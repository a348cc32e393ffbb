/** VLAN tags (IEEE Std 802.1Q-2018, clause 9.6) on a packet with headroom: push, pop, and the bounded parser. */
module Vlan {

  type Byte = b: int | 0 <= b < 0x100

  /** Sizes of the Ethernet header and of a VLAN header. */
  const ETH := 14
  const TAG := 4

  const C_TAG := 0x8100
  const S_TAG := 0x88A8
  const MAX_DEPTH := 2

  /** The 16-bit big-endian value at offset `i`. */
  function Short(f: seq<Byte>, i: nat): (v: nat)
    requires i + 2 <= |f|
    ensures v < 0x1_0000
  {
    0x100 * (f[i] as int) + f[i + 1]
  }

  /** `bpf_htons` of an integer, as the bytes it puts on the wire. */
  function Wire(v: int): (bs: seq<Byte>)
    ensures |bs| == 2 && Short(bs, 0) == v % 0x1_0000
  {
    var t := v % 0x1_0000;
    [t / 0x100, t % 0x100]
  }

  /** `proto_is_vlan` */
  predicate IsVlan(proto: nat) {
    proto == C_TAG || proto == S_TAG
  }

  /** A frame with a tag put in behind the addresses. */
  function Pushed(f: seq<Byte>, vlid: int): seq<Byte>
    requires |f| >= ETH
  {
    f[..12] + Wire(C_TAG) + Wire(vlid) + f[12..]
  }

  predicate CanPop(f: seq<Byte>)
    requires |f| >= ETH
  {
    IsVlan(Short(f, 12)) && |f| >= ETH + TAG
  }

  /** A frame without its outer tag. */
  function Popped(f: seq<Byte>): seq<Byte>
    requires |f| >= ETH && CanPop(f)
  {
    f[..12] + f[16..]
  }

  /** Popping undoes pushing, and returns the tag, which stands on the wire as 81 00 and two bytes, the higher first. */
  lemma PopUndoesPush(f: seq<Byte>, vlid: int)
    requires |f| >= 14
    ensures var g := Pushed(f, vlid);
            && CanPop(g) && Popped(g) == f && Short(g, ETH) == vlid % 0x1_0000
            && g[12] == 0x81 && g[13] == 0 && 0x100 * (g[14] as int) + g[15] == vlid % 0x1_0000
  {
    var g := Pushed(f, vlid);
    assert g[12] == Wire(C_TAG)[0] && g[13] == Wire(C_TAG)[1];
    assert g[14] == Wire(vlid)[0] && g[15] == Wire(vlid)[1];
    assert g[..12] == f[..12] && g[16..] == f[12..];
  }

  /** Pushing the popped tag back restores the frame exactly when that tag was a C-TAG: push writes no other kind. */
  lemma PushUndoesPop(f: seq<Byte>)
    requires |f| >= ETH && CanPop(f)
    ensures Pushed(Popped(f), Short(f, ETH)) == f <==> Short(f, 12) == C_TAG
  {
    var g := Pushed(Popped(f), Short(f, ETH));
    assert g == f[..12] + Wire(C_TAG) + Wire(Short(f, ETH)) + f[16..];
    WireIsShort(f, ETH);
    WireIsShort(f, 12);
    if Short(f, 12) == C_TAG {
      assert f == f[..12] + f[12..14] + f[14..16] + f[16..];
    } else {
      assert Short(g, 12) == C_TAG by {
        assert g[12] == Wire(C_TAG)[0] && g[13] == Wire(C_TAG)[1];
      }
    }
  }

  lemma WireIsShort(f: seq<Byte>, i: nat)
    requires i + 2 <= |f|
    ensures Wire(Short(f, i)) == f[i..i + 2]
  {
  }

  // ---------------------------------------------------------------- parsing

  /** What the parser finds: the inner EtherType, the VLAN ids in order, and where it stopped. */
  datatype Parsed = Parsed(proto: nat, ids: seq<nat>, pos: nat)

  /** At most `depth` further tags, as far as the frame goes. */
  function Tags(f: seq<Byte>, pos: nat, proto: nat, depth: nat): (r: Parsed)
    requires pos <= |f|
    ensures pos <= r.pos <= |f| && |r.ids| <= depth && r.pos == pos + TAG * |r.ids|
    decreases depth
  {
    if depth == 0 || !IsVlan(proto) || pos + TAG > |f| then Parsed(proto, [], pos)
    else
      var inner := Tags(f, pos + TAG, Short(f, pos + 2), depth - 1);
      inner.(ids := [Short(f, pos) % 0x1000] + inner.ids)
  }

  /** The parse from a cursor that has a full Ethernet header before it. */
  function ParseAt(f: seq<Byte>, pos: nat): (r: Parsed)
    requires pos + ETH <= |f|
    ensures pos + ETH <= r.pos <= |f|
  {
    Tags(f, pos + ETH, Short(f, pos + 12), MAX_DEPTH)
  }

  function Parse(f: seq<Byte>): (r: Parsed)
    requires |f| >= ETH
  {
    ParseAt(f, 0)
  }

  /** Bytes put in earlier only move what comes after them. */
  lemma {:induction false} TagsShift(f: seq<Byte>, g: seq<Byte>, pos: nat, proto: nat, depth: nat)
    requires pos <= |f| && |g| == |f| + TAG && g[pos + TAG..] == f[pos..]
    ensures var r := Tags(f, pos, proto, depth); Tags(g, pos + TAG, proto, depth) == r.(pos := r.pos + TAG)
    decreases depth
  {
    if depth > 0 && IsVlan(proto) && pos + TAG <= |f| {
      assert forall i :: pos <= i < |f| ==> f[i] == f[pos..][i - pos] == g[i + TAG];
      assert g[pos + TAG + TAG..] == f[pos + TAG..];
      TagsShift(f, g, pos + TAG, Short(f, pos + 2), depth - 1);
    }
  }

  /** A smaller depth only cuts the list of ids short. */
  lemma {:induction false} TagsCut(f: seq<Byte>, pos: nat, proto: nat, depth: nat)
    requires pos <= |f|
    ensures var r, s := Tags(f, pos, proto, depth), Tags(f, pos, proto, depth + 1);
            && r.ids == s.ids[..if |s.ids| <= depth then |s.ids| else depth]
            && (|s.ids| <= depth ==> r == s)
    decreases depth
  {
    if depth > 0 && IsVlan(proto) && pos + TAG <= |f| {
      TagsCut(f, pos + TAG, Short(f, pos + 2), depth - 1);
    }
  }

  /** Whether the bytes after the addresses announce a tag, and it is complete. */
  predicate Tagged(f: seq<Byte>) {
    |f| >= 18 && ((f[12] == 0x81 && f[13] == 0) || (f[12] == 0x88 && f[13] == 0xa8))
  }

  /** Parsing a frame by its bytes: an untagged frame has no ids, and its EtherType stands behind the addresses; a
      tagged one has the id of its outer tag, the low 12 bits, and then those of the frame without it,
      cut to two in all, and its EtherType if that is not cut off. */
  lemma ParseExactly(f: seq<Byte>)
    requires |f| >= 14
    ensures CanPop(f) <==> Tagged(f)
    ensures !Tagged(f) ==> Parse(f) == Parsed(0x100 * (f[12] as int) + f[13], [], 14)
    ensures Tagged(f) ==>
              var r, inner := Parse(f), Parse(Popped(f));
              && r.ids == [(0x100 * (f[14] as int) + f[15]) % 0x1000]
                          + (if |inner.ids| <= 1 then inner.ids else inner.ids[..1])
              && (|inner.ids| <= 1 ==> r.proto == inner.proto && r.pos == inner.pos + 4)
  {
    if Tagged(f) {
      var g := Popped(f);
      assert g[12] == f[16] && g[13] == f[17];
      assert g[ETH..] == f[ETH + TAG..];
      TagsShift(g, f, ETH, Short(g, 12), 1);
      TagsCut(g, ETH, Short(g, 12), 1);
      TagsStep(f, ETH, Short(f, 12), MAX_DEPTH);
      hide Tags;
    }
  }

  /** Parsing a frame after a push: the pushed id first, then the ids of the frame, cut to two in all; the same
      EtherType while no tag is cut off, and the cursor four bytes further exactly then. */
  lemma ParseAfterPush(f: seq<Byte>, vlid: int)
    requires |f| >= ETH
    ensures var r, s := Parse(f), Parse(Pushed(f, vlid));
            && s.ids == [vlid % 0x1000] + (if |r.ids| <= 1 then r.ids else r.ids[..1])
            && (|r.ids| <= 1 ==> s.proto == r.proto)
            && (s.pos == r.pos + TAG <==> |r.ids| <= 1)
  {
    var g := Pushed(f, vlid);
    PushedParts(f, vlid);
    hide Pushed, Short;
    TagsShift(f, g, ETH, Short(f, 12), 1);
    TagsCut(f, ETH, Short(f, 12), 1);
    TagsStep(g, ETH, C_TAG, MAX_DEPTH);
    hide Tags;
  }

  /** The fields of a pushed frame. */
  lemma PushedParts(f: seq<Byte>, vlid: int)
    requires |f| >= ETH
    ensures var g := Pushed(f, vlid);
            && |g| == |f| + TAG
            && Short(g, 12) == C_TAG && Short(g, ETH) % 0x1000 == vlid % 0x1000 && Short(g, ETH + 2) == Short(f, 12)
            && g[ETH + TAG..] == f[ETH..]
  {
    var g, tpid, tci := Pushed(f, vlid), Wire(C_TAG), Wire(vlid);
    assert Short(tpid, 0) == C_TAG;
    TagBits(vlid);
    hide Wire;
    assert g[12] == tpid[0] && g[13] == tpid[1];
    assert g[14] == tci[0] && g[15] == tci[1];
    assert g[16] == f[12] && g[17] == f[13];
  }

  /** The VLAN id is the low 12 of the 16 bits that are stored. */
  lemma TagBits(vlid: int)
    ensures vlid % 0x1_0000 % 0x1000 == vlid % 0x1000
  {
  }

  // ---------------------------------------------------------------- the code

  /** `parse_ethhdr_vlan` from cursor `pos`; -1 if the Ethernet header is cut off. Only the
      entries of `ids` for tags found are written. The cursor never passes the end of the data. */
  method ParseEthernet(f: seq<Byte>, pos: nat, ids: array<nat>) returns (proto: int, next: nat)
    requires pos <= |f| && ids.Length == MAX_DEPTH
    modifies ids
    ensures proto == -1 <==> pos + ETH > |f|
    ensures proto == -1 ==> next == pos && ids[..] == old(ids[..])
    ensures proto != -1 ==>
              var r := ParseAt(f, pos);
              proto == r.proto && next == r.pos && ids[..] == r.ids + old(ids[|r.ids|..])
    ensures next <= |f|
  {
    hide Tags, Short, Continues;
    next := pos;
    if next + ETH > |f| {
      return -1, next;
    }
    next := next + ETH;
    proto := Short(f, pos + 12);
    ghost var r, given := ParseAt(f, pos), ids[..];
    ContinuesFrom(r);
    var i := 0;
    while i < MAX_DEPTH
      invariant 0 <= i <= MAX_DEPTH && 0 <= proto < 0x1_0000
      invariant pos + ETH <= next <= |f|
      invariant ids[i..] == given[i..]
      invariant Continues(r, ids[..i], Tags(f, next, proto, MAX_DEPTH - i))
    {
      TagsStep(f, next, proto, MAX_DEPTH - i);
      if !IsVlan(proto) {
        break;
      }
      if next + TAG > |f| {
        break;
      }
      ghost var done, rest := ids[..i], Tags(f, next, proto, MAX_DEPTH - i);
      ContinuesOn(r, done, rest, Short(f, next) % 0x1000, Tags(f, next + TAG, Short(f, next + 2), MAX_DEPTH - i - 1));
      proto := Short(f, next + 2);
      ids[i] := Short(f, next) % 0x1000;
      assert ids[..i + 1] == done + [ids[i]] && ids[i + 1..] == given[i..][1..];
      next := next + TAG;
      i := i + 1;
    }
    TagsStep(f, next, proto, MAX_DEPTH - i);
    ContinuesToEnd(r, ids[..i], Parsed(proto, [], next));
    assert ids[..] == ids[..i] + ids[i..];
  }

  lemma ContinuesFrom(r: Parsed)
    ensures Continues(r, [], r)
  {
  }

  lemma ContinuesOn(r: Parsed, done: seq<nat>, rest: Parsed, id: nat, inner: Parsed)
    requires Continues(r, done, rest) && Continues(rest, [id], inner)
    ensures Continues(r, done + [id], inner)
  {
  }

  lemma ContinuesToEnd(r: Parsed, done: seq<nat>, rest: Parsed)
    requires Continues(r, done, rest) && rest.ids == []
    ensures r == rest.(ids := done)
  {
  }

  /** `r` is `rest` with the ids already found in front. */
  predicate Continues(r: Parsed, done: seq<nat>, rest: Parsed) {
    r.proto == rest.proto && r.pos == rest.pos && r.ids == done + rest.ids
  }

  lemma TagsStep(f: seq<Byte>, pos: nat, proto: nat, depth: nat)
    requires pos <= |f|
    ensures var stop := depth == 0 || !IsVlan(proto) || pos + TAG > |f|;
            && (stop ==> Tags(f, pos, proto, depth) == Parsed(proto, [], pos))
            && (!stop ==>
                  Continues(
                    Tags(f, pos, proto, depth), [Short(f, pos) % 0x1000],
                    Tags(f, pos + TAG, Short(f, pos + 2), depth - 1)))
  {
  }

  function Overwritten(f: seq<Byte>, at: nat, bytes: seq<Byte>): seq<Byte>
    requires at + |bytes| <= |f|
  {
    f[..at] + bytes + f[at + |bytes|..]
  }

  /** Copying the header forward and filling in the tag is a push. */
  lemma PushByWrites(f: seq<Byte>, g: seq<Byte>, vlid: int)
    requires |f| >= ETH && |g| == |f| + TAG && g[TAG..] == f
    ensures var header := f[..ETH];
            var g2 := Overwritten(Overwritten(g, 0, header), ETH, Wire(vlid));
            Overwritten(Overwritten(g2, ETH + 2, header[12..]), 12, Wire(C_TAG)) == Pushed(f, vlid)
  {
    hide Wire;
    var header, tci, tpid := f[..ETH], Wire(vlid), Wire(C_TAG);
    assert g[ETH + TAG..] == f[ETH..];
    var g1 := Overwritten(g, 0, header);
    var g2 := Overwritten(g1, ETH, tci);
    assert g2 == header + tci + g[16..];
    var g3 := Overwritten(g2, ETH + 2, header[12..]);
    assert g3 == header + tci + f[12..ETH] + f[ETH..];
  }

  /** Copying the header back over the tag is a pop. */
  lemma PopByWrites(f: seq<Byte>)
    requires |f| >= ETH + TAG
    ensures Overwritten(Overwritten(f[TAG..], 0, f[..ETH]), 12, f[16..18]) == f[..12] + f[16..]
  {
    var g1 := Overwritten(f[TAG..], 0, f[..ETH]);
    assert g1 == f[..ETH] + f[18..];
  }

  /** What a write within the memory means for the frame. */
  lemma FrameAfterWrite(was: seq<Byte>, now: seq<Byte>, data: nat, end: nat, at: nat, bytes: seq<Byte>)
    requires data + at + |bytes| <= end <= |was| == |now|
    requires forall j :: 0 <= j < |was| ==>
               now[j] == if data + at <= j < data + at + |bytes| then bytes[j - data - at] else was[j]
    ensures now[data..end] == Overwritten(was[data..end], at, bytes)
  {
    var g := now[data..end];
    forall i | 0 <= i < |g| ensures g[i] == Overwritten(was[data..end], at, bytes)[i] {
      assert g[i] == now[data + i];
    }
  }

  /** An XDP context: the memory of the packet and the bounds of the frame within it. */
  class Packet {
    const memory: array<Byte>
    var data: nat
    var dataEnd: nat

    predicate Valid()
      reads this
    {
      data <= dataEnd <= memory.Length
    }

    function Frame(): seq<Byte>
      requires Valid()
      reads this, memory
    {
      memory[data..dataEnd]
    }

    constructor (memory: array<Byte>, headroom: nat)
      requires headroom <= memory.Length
      ensures Valid() && this.memory == memory && data == headroom && dataEnd == memory.Length
    {
      this.memory, data, dataEnd := memory, headroom, memory.Length;
    }

    /** `bpf_xdp_adjust_head`: fails without headroom, or if less than an Ethernet header would be left. */
    method AdjustHead(delta: int) returns (failed: bool)
      requires Valid()
      modifies this`data
      ensures failed <==> old(data) + delta < 0 || old(data) + delta + ETH > dataEnd
      ensures Valid() && data == if failed then old(data) else old(data) + delta
    {
      failed := data + delta < 0 || data + delta + ETH > dataEnd;
      if !failed {
        data := data + delta;
      }
    }

    /** `memcpy` into the frame. */
    method Write(at: nat, bytes: seq<Byte>)
      requires Valid() && data + at + |bytes| <= dataEnd
      modifies memory
      ensures Frame() == Overwritten(old(Frame()), at, bytes)
    {
      for i := 0 to |bytes|
        invariant forall j :: 0 <= j < memory.Length ==>
                    memory[j] == if data + at <= j < data + at + i then bytes[j - data - at] else old(memory[j])
      {
        memory[data + at + i] := bytes[i];
      }
      FrameAfterWrite(old(memory[..]), memory[..], data, dataEnd, at, bytes);
    }

    /** `vlan_tag_push`; the caller has checked the Ethernet header. */
    method Push(vlid: int) returns (result: int)
      requires Valid() && |Frame()| >= ETH
      modifies this`data, memory
      ensures Valid() && dataEnd == old(dataEnd)
      ensures result == if old(data) >= TAG then 0 else -1
      ensures Frame() == if result == 0 then Pushed(old(Frame()), vlid) else old(Frame())
    {
      ghost var f := Frame();
      var header := memory[data..data + ETH];
      assert header == f[..ETH];
      var failed := AdjustHead(-TAG);
      if failed {
        return -1;
      }
      assert Frame()[TAG..] == f;
      PushByWrites(f, Frame(), vlid);
      hide Overwritten, Wire, Pushed;
      Write(0, header);
      Write(ETH, Wire(vlid));
      Write(ETH + 2, header[12..]);
      Write(12, Wire(C_TAG));
      return 0;
    }

    /** `vlan_tag_pop`; returns the tag, or -1 if there is none or it is cut off. */
    method Pop() returns (result: int)
      requires Valid() && |Frame()| >= ETH
      modifies this`data, memory
      ensures Valid() && dataEnd == old(dataEnd)
      ensures result == if CanPop(old(Frame())) then Short(old(Frame()), ETH) else -1
      ensures Frame() == if CanPop(old(Frame())) then Popped(old(Frame())) else old(Frame())
    {
      ghost var f := Frame();
      var header := memory[data..data + ETH];
      assert header == f[..ETH];
      if !IsVlan(Short(header, 12)) {
        return -1;
      }
      if data + ETH + TAG > dataEnd {
        return -1;
      }
      var tag, inner := memory[data + ETH..data + ETH + 2], memory[data + ETH + 2..data + ETH + TAG];
      assert inner[0] == f[16] && inner[1] == f[17] && tag[0] == f[ETH] && tag[1] == f[ETH + 1];
      assert inner == f[16..18];
      var failed := AdjustHead(TAG);
      assert Frame() == f[TAG..];
      PopByWrites(f);
      hide Overwritten;
      Write(0, header);
      Write(12, inner);
      return Short(tag, 0);
    }
  }
}
