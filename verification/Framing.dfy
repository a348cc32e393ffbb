/** Fixed-size messages over a byte stream: `writen` and `readn` around system
    calls that may move fewer bytes than asked for, be interrupted, or fail. */
module Framing {

  type Byte = b: int | 0 <= b < 0x100

  /** How the kernel answers one call: it moves up to `n` bytes, a signal interrupts it, or it fails. */
  datatype Answer = Moves(n: nat) | Interrupted | Fails

  function Min(a: nat, b: nat): nat {
    if a < b then a else b
  }

  /** The answers still to come; after the last one every call moves all it can. */
  function Head(script: seq<Answer>, all: nat): Answer {
    if script == [] then Moves(all) else script[0]
  }

  function Tail(script: seq<Answer>): seq<Answer> {
    if script == [] then [] else script[1..]
  }

  /** No call fails, and no write takes nothing at all; interruptions and short counts remain. */
  predicate Harmless(script: seq<Answer>) {
    forall a :: a in script ==> !a.Fails? && a != Moves(0)
  }

  /** The sending end. `sent` is the stream so far. */
  class Sender {
    var sent: seq<Byte>
    var script: seq<Answer>

    constructor (script: seq<Answer>)
      ensures sent == [] && this.script == script
    {
      this.script, sent := script, [];
    }

    /** `write`: the number of bytes taken, or -1, and whether that was an interruption. */
    method Write(bytes: seq<Byte>) returns (n: int, interrupted: bool)
      modifies this
      ensures script == Tail(old(script)) && -1 <= n <= |bytes|
      ensures n >= 0 ==> sent == old(sent) + bytes[..n]
      ensures n == -1 ==> sent == old(sent)
      ensures Harmless(old(script)) ==> Harmless(script) && (bytes != [] ==> n > 0 || (n == -1 && interrupted))
      ensures old(script) == [] ==> n == |bytes|
    {
      n, interrupted := -1, false;
      assert script != [] ==> script[0] in script;
      match Head(script, |bytes|) {
        case Moves(k) =>
          n := Min(k, |bytes|);
          sent := sent + bytes[..n];
        case Interrupted => interrupted := true;
        case Fails =>
      }
      script := Tail(script);
    }

    /** `writen`: all bytes go out in order, or -1 is returned after some prefix of them. */
    method WriteN(bytes: seq<Byte>) returns (result: int)
      modifies this
      ensures result == |bytes| || (result == -1 && bytes != [])
      ensures result != -1 ==> sent == old(sent) + bytes
      ensures Harmless(old(script)) ==> Harmless(script) && result != -1
      ensures result == -1 ==> exists k: nat :: k < |bytes| && sent == old(sent) + bytes[..k]
    {
      var left := |bytes|;
      while left > 0
        invariant 0 <= left <= |bytes| && sent == old(sent) + bytes[..|bytes| - left]
        invariant Harmless(old(script)) ==> Harmless(script)
        decreases |script|, left
      {
        var at := |bytes| - left;
        var n, interrupted := Write(bytes[at..]);
        if n <= 0 {
          if n < 0 && interrupted {
            n := 0;
          } else {
            return -1;
          }
        }
        assert bytes[..at] + bytes[at..][..n] == bytes[..at + n];
        left := left - n;
      }
      return |bytes|;
    }
  }

  /** The receiving end. `rest` is what the stream still holds before its end. */
  class Receiver {
    var rest: seq<Byte>
    var script: seq<Answer>

    constructor (stream: seq<Byte>, script: seq<Answer>)
      ensures rest == stream && this.script == script
    {
      rest, this.script := stream, script;
    }

    /** `read` of at most `n` bytes: at least one while there are any, none only at the end, or an error. */
    method Read(n: nat) returns (bytes: seq<Byte>, failed: bool, interrupted: bool)
      requires n > 0
      modifies this
      ensures script == Tail(old(script))
      ensures failed ==> bytes == [] && rest == old(rest)
      ensures !failed ==> |bytes| <= n && old(rest) == bytes + rest && (bytes == [] <==> old(rest) == [])
      ensures Harmless(old(script)) ==> Harmless(script) && (failed ==> interrupted)
      ensures old(script) == [] ==> !failed
    {
      bytes, failed, interrupted := [], true, false;
      assert script != [] ==> script[0] in script;
      match Head(script, n) {
        case Moves(k) =>
          var m := Min(Min(k + 1, n), |rest|);
          bytes, rest, failed := rest[..m], rest[m..], false;
        case Interrupted => interrupted := true;
        case Fails =>
      }
      script := Tail(script);
    }

    /** `readn`: exactly the next `size` bytes, or what is left before the end, unless a call fails. */
    method ReadN(size: nat) returns (bytes: seq<Byte>, failed: bool)
      modifies this
      ensures old(rest) == bytes + rest
      ensures !failed ==> |bytes| == Min(size, |old(rest)|)
      ensures failed ==> |bytes| < size
      ensures Harmless(old(script)) ==> Harmless(script) && !failed
    {
      bytes := [];
      var left := size;
      while left > 0
        invariant 0 <= left <= size && |bytes| == size - left && old(rest) == bytes + rest
        invariant Harmless(old(script)) ==> Harmless(script)
        decreases |script|, left
      {
        var more, broken, interrupted := Read(left);
        if broken && !interrupted {
          return bytes, true;
        }
        if !broken && more == [] {
          break;
        }
        bytes := bytes + more;
        left := left - |more|;
      }
      return bytes, false;
    }
  }

  function Concat(records: seq<seq<Byte>>): (s: seq<Byte>)
  {
    if records == [] then [] else records[0] + Concat(records[1..])
  }

  /** A stream cut into records of `size` bytes; the last one may be shorter. */
  function Cut(s: seq<Byte>, size: nat): (records: seq<seq<Byte>>)
    requires size > 0
    ensures s == [] <==> records == []
    decreases |s|
  {
    if s == [] then [] else [s[..Min(size, |s|)]] + Cut(s[Min(size, |s|)..], size)
  }

  /** Cutting undoes joining records of one size. */
  lemma {:induction false} CutUndoesConcat(records: seq<seq<Byte>>, size: nat)
    requires size > 0 && forall r :: r in records ==> |r| == size
    ensures Cut(Concat(records), size) == records
  {
    if records != [] {
      assert records[0] in records && forall r :: r in records[1..] ==> r in records;
      CutUndoesConcat(records[1..], size);
      var s := Concat(records);
      assert s[..size] == records[0] && s[size..] == Concat(records[1..]);
    }
  }

  lemma {:induction false} ConcatAppends(records: seq<seq<Byte>>, r: seq<Byte>)
    ensures Concat(records + [r]) == Concat(records) + r
  {
    if records == [] {
      assert [] + [r] == [r] && Concat([r]) == r + [];
    } else {
      assert (records + [r])[1..] == records[1..] + [r];
      ConcatAppends(records[1..], r);
    }
  }

  /** One `Writen` after the other, up to the first failure. */
  method SendAll(out: Sender, records: seq<seq<Byte>>) returns (ok: bool)
    modifies out
    ensures ok ==> out.sent == old(out.sent) + Concat(records)
    ensures Harmless(old(out.script)) ==> ok
  {
    for i := 0 to |records|
      invariant out.sent == old(out.sent) + Concat(records[..i])
      invariant Harmless(old(out.script)) ==> Harmless(out.script)
    {
      var n := out.WriteN(records[i]);
      if n != |records[i]| {
        return false;
      }
      ConcatAppends(records[..i], records[i]);
      assert records[..i + 1] == records[..i] + [records[i]];
    }
    assert records[..|records|] == records;
    return true;
  }

  /** The loop of `process_request`: read records until a read returns nothing. */
  method ReceiveAll(from: Receiver, size: nat) returns (ok: bool, records: seq<seq<Byte>>)
    requires size > 0
    modifies from
    ensures ok ==> records == Cut(old(from.rest), size)
    ensures Harmless(old(from.script)) ==> ok
  {
    records := [];
    while true
      invariant Cut(old(from.rest), size) == records + Cut(from.rest, size)
      invariant Harmless(old(from.script)) ==> Harmless(from.script)
      decreases |from.rest|
    {
      ghost var before := from.rest;
      var bytes, failed := from.ReadN(size);
      if failed {
        return false, records;
      }
      if bytes == [] {
        return true, records;
      }
      assert before[..|bytes|] == bytes && before[|bytes|..] == from.rest;
      records := records + [bytes];
    }
  }

  /** Whatever the fragmentation and the interruptions on either side: if nothing fails, the reads
      return the records that were written, one for one and in order. */
  method Exchange(records: seq<seq<Byte>>, size: nat, forWrites: seq<Answer>, forReads: seq<Answer>)
    returns (ok: bool, received: seq<seq<Byte>>)
    requires size > 0 && forall r :: r in records ==> |r| == size
    ensures ok ==> received == records
    ensures Harmless(forWrites) && Harmless(forReads) ==> ok
  {
    received := [];
    var out := new Sender(forWrites);
    ok := SendAll(out, records);
    if ok {
      assert out.sent == Concat(records);
      CutUndoesConcat(records, size);
      var from := new Receiver(out.sent, forReads);
      ok, received := ReceiveAll(from, size);
    }
  }
}
