/** The tables of currently attached peers, their housekeeping, and the cyclic scans that pick one
    live peer after the other. Sources and destinations are kept in two tables that work alike. */
module PeerTable {

  const SLOTS := 10

  /** `vHouseTime`, in seconds. */
  const STALE := 18

  /** Address 0 marks a free slot. */
  datatype Slot = Slot(address: nat, lastSeen: int)

  const FREE := Slot(0, 0)

  /** The array, the number of peers attached, and the role flag. */
  datatype Table = Table(slots: seq<Slot>, attached: int, role: bool)

  /** The two places that record a peer: telemetry samples set the role only for a new source,
      connections set it every time. */
  datatype Site = Telemetry | Connection

  predicate Live(s: Slot) {
    s.address != 0
  }

  predicate Has(t: Table, address: nat) {
    exists i :: 0 <= i < |t.slots| && t.slots[i].address == address
  }

  /** The number of live slots from `lo` up to `hi`. */
  function LiveCount(slots: seq<Slot>, lo: nat, hi: nat): nat
    requires lo <= hi <= |slots|
    decreases hi - lo
  {
    if lo == hi then 0 else LiveCount(slots, lo, hi - 1) + if Live(slots[hi - 1]) then 1 else 0
  }

  predicate Distinct(slots: seq<Slot>) {
    forall i, j :: 0 <= i < j < |slots| && Live(slots[i]) ==> slots[i].address != slots[j].address
  }

  predicate Valid(t: Table) {
    && |t.slots| == SLOTS
    && Distinct(t.slots)
    && t.attached == LiveCount(t.slots, 0, SLOTS)
    && (t.role <==> t.attached > 0)
  }

  /** The first slot with this address, or the table size. */
  function Find(slots: seq<Slot>, address: nat): (i: nat)
    ensures i <= |slots|
    ensures i < |slots| ==> slots[i].address == address
    ensures forall j :: 0 <= j < i ==> slots[j].address != address
    decreases |slots|
  {
    if slots == [] then 0
    else if slots[0].address == address then 0
    else 1 + Find(slots[1..], address)
  }

  /** A peer is seen: refresh its slot, or take the first free one. A peer with address 0 would "refresh" a free
      slot. A new peer that finds the table full is counted all the same, and written before the array. */
  function Observe(t: Table, site: Site, address: nat, now: int): Table
    requires |t.slots| == SLOTS
  {
    var i, j := Find(t.slots, address), Find(t.slots, 0);
    if i < SLOTS then Table(t.slots[i := Slot(address, now)], t.attached, t.role || site.Connection?)
    else Table(if j < SLOTS then t.slots[j := Slot(address, now)] else t.slots, t.attached + 1, true)
  }

  /** A new peer meets a full table. */
  predicate Overflows(t: Table, address: nat) {
    !Has(t, address) && !Has(t, 0)
  }

  /** A connection from address 0 to an empty table, which sets the role for nobody. */
  predicate Degenerate(t: Table, site: Site, address: nat) {
    site.Connection? && address == 0 && t.attached == 0
  }

  predicate Expired(s: Slot, now: int) {
    Live(s) && now - s.lastSeen >= STALE
  }

  /** The slots after a sweep; the sweep only happens while the role flag is set. */
  function Swept(slots: seq<Slot>, now: int): (r: seq<Slot>)
    ensures |r| == |slots|
    ensures forall i :: 0 <= i < |slots| ==> r[i] == if Expired(slots[i], now) then FREE else slots[i]
  {
    seq(|slots|, i requires 0 <= i < |slots| => if Expired(slots[i], now) then FREE else slots[i])
  }

  function Sweep(t: Table, now: int): Table
    requires |t.slots| == SLOTS
  {
    if !t.role then t
    else
      var slots := Swept(t.slots, now);
      var gone := LiveCount(t.slots, 0, SLOTS) - LiveCount(slots, 0, SLOTS);
      Table(slots, t.attached - gone, t.attached - gone != 0)
  }

  lemma {:induction false} CountAfterUpdate(slots: seq<Slot>, i: nat, s: Slot, hi: nat)
    requires i < |slots| && hi <= |slots|
    ensures LiveCount(slots[i := s], 0, hi) == LiveCount(slots, 0, hi) +
            if i >= hi || Live(s) == Live(slots[i]) then 0 else if Live(s) then 1 else -1
  {
    if hi > 0 {
      CountAfterUpdate(slots, i, s, hi - 1);
    }
  }

  lemma {:induction false} SomeLive(slots: seq<Slot>, lo: nat, hi: nat)
    requires lo <= hi <= |slots|
    ensures LiveCount(slots, lo, hi) <= hi - lo
    ensures LiveCount(slots, lo, hi) > 0 <==> exists i :: lo <= i < hi && Live(slots[i])
    decreases hi - lo
  {
    if lo < hi {
      SomeLive(slots, lo, hi - 1);
    }
  }

  /** Seeing a peer keeps the table valid, although expiry leaves holes, exactly unless a
      new peer meets a full table or the call is the degenerate one. */
  lemma ObserveKeepsValid(t: Table, site: Site, address: nat, now: int)
    requires Valid(t)
    ensures Valid(Observe(t, site, address, now)) <==> !Overflows(t, address) && !Degenerate(t, site, address)
    ensures address != 0 && !Overflows(t, address) ==> Has(Observe(t, site, address, now), address)
  {
    hide LiveCount, Find;
    var i, j := Find(t.slots, address), Find(t.slots, 0);
    var s := Slot(address, now);
    SomeLive(t.slots, 0, SLOTS);
    if i < SLOTS {
      CountAfterUpdate(t.slots, i, s, SLOTS);
      assert t.slots[i := s][i] == s;
    } else if j < SLOTS {
      CountAfterUpdate(t.slots, j, s, SLOTS);
      assert t.slots[j := s][j] == s;
    }
  }

  lemma SweepKeepsValid(t: Table, now: int)
    requires Valid(t)
    ensures Valid(Sweep(t, now))
  {
    SomeLive(Swept(t.slots, now), 0, SLOTS);
  }

  // ---------------------------------------------------------------- expiry over runs

  datatype Event =
    | Seen(site: Site, address: nat, at: int)
    | Housekeeping(at: int)

  function Next(t: Table, e: Event): Table
    requires |t.slots| == SLOTS
  {
    match e
    case Seen(site, address, at) => Observe(t, site, address, at)
    case Housekeeping(at) => Sweep(t, at)
  }

  predicate Moves(t: Table, e: Event, u: Table) {
    |t.slots| == SLOTS && u == Next(t, e)
  }

  /** A history from an empty table. */
  ghost predicate Behavior(ts: seq<Table>, es: seq<Event>) {
    && |ts| == |es| + 1
    && Valid(ts[0]) && ts[0].attached == 0
    && forall i :: 0 <= i < |es| ==> Moves(ts[i], es[i], ts[i + 1])
  }

  ghost predicate Chronological(es: seq<Event>) {
    forall i, j :: 0 <= i <= j < |es| ==> es[i].at <= es[j].at
  }

  predicate Spoils(t: Table, e: Event) {
    e.Seen? && (Overflows(t, e.address) || Degenerate(t, e.site, e.address))
  }

  lemma NextKeepsValid(t: Table, e: Event)
    requires Valid(t)
    ensures Valid(Next(t, e)) <==> !Spoils(t, e)
  {
    hide Valid, LiveCount, Swept, Find;
    assert |t.slots| == SLOTS by {
      TableSize(t);
    }
    match e
    case Seen(site, address, at) => ObserveKeepsValid(t, site, address, at);
    case Housekeeping(at) => SweepKeepsValid(t, at);
  }

  lemma TableSize(t: Table)
    requires Valid(t)
    ensures |t.slots| == SLOTS
  {
  }

  ghost predicate NoneSpoils(ts: seq<Table>, es: seq<Event>, n: nat)
    requires n <= |es| <= |ts|
  {
    forall i :: 0 <= i < n ==> !Spoils(ts[i], es[i])
  }

  /** Over a whole run: live addresses are distinct, the counter counts them, and the role is held exactly
      while there are some, in every state, exactly if no event spoils the table. */
  lemma {:induction false} ValidThroughout(ts: seq<Table>, es: seq<Event>, n: nat)
    requires Behavior(ts, es) && n <= |es|
    ensures (forall i :: 0 <= i <= n ==> Valid(ts[i])) <==> NoneSpoils(ts, es, n)
  {
    hide Next, Valid, Spoils;
    if n > 0 {
      ValidThroughout(ts, es, n - 1);
      assert Moves(ts[n - 1], es[n - 1], ts[n]);
      if Valid(ts[n - 1]) {
        NextKeepsValid(ts[n - 1], es[n - 1]);
      }
    }
  }

  /** What even spoilt tables keep: addresses are distinct, and the counter
      never falls behind, so housekeeping never stops too early. */
  predicate Counted(t: Table) {
    |t.slots| == SLOTS && Distinct(t.slots) && LiveCount(t.slots, 0, SLOTS) <= t.attached && (t.attached > 0 ==> t.role)
  }

  lemma NextKeepsCounted(t: Table, e: Event)
    requires Counted(t)
    ensures Counted(Next(t, e))
  {
    hide LiveCount, Find;
    if e.Seen? {
      var i, j, s := Find(t.slots, e.address), Find(t.slots, 0), Slot(e.address, e.at);
      if i < SLOTS {
        CountAfterUpdate(t.slots, i, s, SLOTS);
      } else if j < SLOTS {
        CountAfterUpdate(t.slots, j, s, SLOTS);
      }
    }
  }

  lemma {:induction false} CountedThroughout(ts: seq<Table>, es: seq<Event>, i: nat)
    requires Behavior(ts, es) && i <= |es|
    ensures Counted(ts[i])
  {
    if i > 0 {
      hide Next, Valid, Counted;
      CountedThroughout(ts, es, i - 1);
      assert Moves(ts[i - 1], es[i - 1], ts[i]);
      NextKeepsCounted(ts[i - 1], es[i - 1]);
    }
  }

  /** More peers are counted than are live; so the role is never given up. */
  predicate Overcounted(t: Table) {
    Counted(t) && LiveCount(t.slots, 0, SLOTS) < t.attached
  }

  lemma NextKeepsOvercounted(t: Table, e: Event)
    requires Counted(t) && (Overcounted(t) || (e.Seen? && Overflows(t, e.address)))
    ensures Overcounted(Next(t, e)) && Next(t, e).role
  {
    hide LiveCount, Find, Swept;
    NextKeepsCounted(t, e);
    SomeLive(t.slots, 0, SLOTS);
    if e.Seen? {
      var i, j, s := Find(t.slots, e.address), Find(t.slots, 0), Slot(e.address, e.at);
      if i < SLOTS {
        CountAfterUpdate(t.slots, i, s, SLOTS);
      } else if j < SLOTS {
        CountAfterUpdate(t.slots, j, s, SLOTS);
      }
    } else {
      SomeLive(Swept(t.slots, e.at), 0, SLOTS);
    }
  }

  /** After one new peer has met a full table, the role is held for ever, whether peers are attached or not. */
  lemma {:induction false} OverflowIsForEver(ts: seq<Table>, es: seq<Event>, i: nat, n: nat)
    requires Behavior(ts, es) && i < n <= |es|
    requires es[i].Seen? && Overflows(ts[i], es[i].address)
    ensures Overcounted(ts[n]) && ts[n].role && !Valid(ts[n])
  {
    hide Next, Counted, Overflows, LiveCount;
    CountedThroughout(ts, es, n - 1);
    assert Moves(ts[n - 1], es[n - 1], ts[n]);
    if i < n - 1 {
      OverflowIsForEver(ts, es, i, n - 1);
    }
    NextKeepsOvercounted(ts[n - 1], es[n - 1]);
  }

  /** Peers 1 to `n`, connecting at time 1. */
  function Connections(n: nat): (es: seq<Event>)
    ensures |es| == n && forall i :: 0 <= i < n ==> es[i] == Seen(Connection, i + 1, 1)
  {
    seq(n, i requires 0 <= i < n => Seen(Connection, i + 1, 1))
  }

  /** As many new peers as there are slots fill the table in order. */
  lemma {:induction false} Filling(t: Table, n: nat) returns (ts: seq<Table>)
    requires Valid(t) && t.slots == seq(SLOTS, _ => FREE) && n <= SLOTS
    ensures Behavior(ts, Connections(n)) && ts[0] == t
    ensures |ts[n].slots| == SLOTS && ts[n].attached == n
    ensures forall i :: 0 <= i < SLOTS ==> ts[n].slots[i] == if i < n then Slot(i + 1, 1) else FREE
  {
    hide LiveCount, Find;
    SomeLive(t.slots, 0, SLOTS);
    if n == 0 {
      ts := [t];
    } else {
      ts := Filling(t, n - 1);
      var last := ts[n - 1];
      assert Find(last.slots, n) == SLOTS;
      assert last.slots[n - 1] == FREE && Find(last.slots, 0) == n - 1;
      ts := ts + [Next(last, Seen(Connection, n, 1))];
      forall i | 0 <= i < n ensures Moves(ts[i], Connections(n)[i], ts[i + 1]) {
        if i < n - 1 {
          assert Moves(ts[i], Connections(n - 1)[i], ts[i + 1]);
        }
      }
    }
  }

  /** A full table is reached, and an eleventh peer is then counted without a slot. */
  lemma EleventhPeer(t: Table) returns (ts: seq<Table>)
    requires Valid(t) && t.slots == seq(SLOTS, _ => FREE)
    ensures Behavior(ts, Connections(11)) && ts[0] == t
    ensures Overflows(ts[10], 11) && ts[11].attached == 11 && ts[11].slots == ts[10].slots
  {
    hide LiveCount, Find;
    ts := Filling(t, SLOTS);
    ts := ts + [Next(ts[10], Seen(Connection, 11, 1))];
    forall i | 0 <= i < 11 ensures Moves(ts[i], Connections(11)[i], ts[i + 1]) {
      if i < SLOTS {
        assert Moves(ts[i], Connections(SLOTS)[i], ts[i + 1]);
      }
    }
  }

  /** The peer is not listed, or was last seen no later than `last`. */
  predicate SilentSince(t: Table, address: nat, last: int) {
    forall i :: 0 <= i < |t.slots| && t.slots[i].address == address ==> t.slots[i].lastSeen <= last
  }

  lemma NextKeepsSilent(t: Table, e: Event, address: nat, last: int)
    requires Counted(t) && address != 0
    requires SilentSince(t, address, last) && !(e.Seen? && e.address == address)
    ensures SilentSince(Next(t, e), address, last)
    ensures e.Housekeeping? && e.at - last >= 18 ==> !Has(Next(t, e), address)
    ensures !Has(t, address) ==> !Has(Next(t, e), address)
  {
    hide LiveCount;
    SomeLive(t.slots, 0, SLOTS);
  }

  /** A peer not seen from event `i` on is gone after the first sweep 18 seconds
      after it was last seen, and stays away; other peers may do what they like. */
  lemma {:induction false} SilentPeerLeaves(
    ts: seq<Table>, es: seq<Event>, address: nat, last: int, i: nat, j: nat, n: nat)
    requires Behavior(ts, es) && address != 0 && i <= n <= |es|
    requires SilentSince(ts[i], address, last)
    requires forall k :: i <= k < n ==> !(es[k].Seen? && es[k].address == address)
    ensures SilentSince(ts[n], address, last)
    ensures i <= j < n && es[j].Housekeeping? && es[j].at - last >= 18 ==> !Has(ts[n], address)
    decreases n
  {
    hide Next, Valid, SilentSince, Has, Counted;
    if i < n {
      SilentPeerLeaves(ts, es, address, last, i, j, n - 1);
      CountedThroughout(ts, es, n - 1);
      assert Moves(ts[n - 1], es[n - 1], ts[n]);
      NextKeepsSilent(ts[n - 1], es[n - 1], address, last);
    }
  }

  /** The peer is listed, as last seen at `at`. */
  predicate ListedAt(t: Table, address: nat, at: int) {
    Has(t, address) && forall i :: 0 <= i < |t.slots| && t.slots[i].address == address ==> t.slots[i].lastSeen == at
  }

  lemma SeenIsListed(t: Table, site: Site, address: nat, now: int)
    requires Counted(t) && address != 0 && !Overflows(t, address)
    ensures ListedAt(Observe(t, site, address, now), address, now)
  {
    hide LiveCount, Find;
    var i, j := Find(t.slots, address), Find(t.slots, 0);
    var u := Observe(t, site, address, now);
    assert u.slots[if i < SLOTS then i else j] == Slot(address, now);
  }

  /** A listed peer that is not seen again stays as it is, except that a sweep 18 seconds later removes it. */
  lemma NextKeepsListed(t: Table, e: Event, address: nat, at: int)
    requires Counted(t) && address != 0 && ListedAt(t, address, at) && !(e.Seen? && e.address == address)
    ensures if e.Housekeeping? && e.at - at >= 18 then !Has(Next(t, e), address) else ListedAt(Next(t, e), address, at)
  {
    hide LiveCount, Find, Swept;
    SomeLive(t.slots, 0, SLOTS);
    var i :| 0 <= i < SLOTS && t.slots[i].address == address;
    var u := Next(t, e);
    assert u.slots[i] == t.slots[i] || (e.Housekeeping? && e.at - at >= 18);
  }

  /** A sweep between events `i` and `n` that comes 18 seconds or more after time `at`. */
  ghost predicate SweptAfter(es: seq<Event>, i: nat, n: nat, at: int)
    requires n <= |es|
  {
    exists j :: i < j < n && es[j].Housekeeping? && es[j].at - at >= 18
  }

  /** In any history: a peer last seen at event `i`, and not with a full table, is listed later, with
      the time of that event, exactly as long as no sweep has come 18 seconds or more after it. */
  lemma {:induction false} ListedExactly(ts: seq<Table>, es: seq<Event>, i: nat, n: nat)
    requires Behavior(ts, es) && i < n <= |es|
    requires es[i].Seen? && es[i].address != 0 && !Overflows(ts[i], es[i].address)
    requires forall k :: i < k < n ==> !(es[k].Seen? && es[k].address == es[i].address)
    ensures Has(ts[n], es[i].address) <==> !SweptAfter(es, i, n, es[i].at)
    ensures Has(ts[n], es[i].address) ==> ListedAt(ts[n], es[i].address, es[i].at)
    decreases n
  {
    hide Next, Counted, Overflows, ListedAt, Has;
    var a, at := es[i].address, es[i].at;
    CountedThroughout(ts, es, n - 1);
    assert Moves(ts[n - 1], es[n - 1], ts[n]);
    if i == n - 1 {
      SeenIsListed(ts[i], es[i].site, a, at);
      ListedHas(ts[n], a, at);
      NextIsObserve(ts[i], es[i]);
    } else {
      ListedExactly(ts, es, i, n - 1);
      if Has(ts[n - 1], a) {
        NextKeepsListed(ts[n - 1], es[n - 1], a, at);
        ListedHas(ts[n], a, at);
      } else {
        NextKeepsAbsent(ts[n - 1], es[n - 1], a);
      }
    }
  }

  lemma ListedHas(t: Table, address: nat, at: int)
    ensures ListedAt(t, address, at) ==> Has(t, address)
  {
  }

  lemma NextIsObserve(t: Table, e: Event)
    requires |t.slots| == SLOTS && e.Seen?
    ensures Next(t, e) == Observe(t, e.site, e.address, e.at)
  {
  }

  lemma NextKeepsAbsent(t: Table, e: Event, address: nat)
    requires Counted(t) && address != 0 && !Has(t, address) && !(e.Seen? && e.address == address)
    ensures !Has(Next(t, e), address)
  {
    hide LiveCount, Find, Swept;
  }

  /** Sweeps at least every `gap` seconds up to time `until`, from event `i` on. */
  ghost predicate SweptEvery(es: seq<Event>, gap: nat, i: nat, from: int, until: int) {
    forall t: int :: from <= t && t + gap <= until ==> SweepWithin(es, i, t, gap)
  }

  ghost predicate SweepWithin(es: seq<Event>, i: nat, from: int, span: nat) {
    exists j :: i <= j < |es| && es[j].Housekeeping? && from <= es[j].at <= from + span
  }

  /** With a sweep at least every 10 seconds, a silent peer is gone within 28 seconds of being last seen. */
  lemma SilentPeerGoneIn28(ts: seq<Table>, es: seq<Event>, address: nat, last: int, i: nat, n: nat)
    requires Behavior(ts, es) && address != 0 && i <= n <= |es|
    requires SilentSince(ts[i], address, last)
    requires forall k :: i <= k < n ==> !(es[k].Seen? && es[k].address == address)
    requires n < |es| ==> es[n].at > last + 28
    requires Chronological(es) && SweptEvery(es, 10, i, last, last + 28)
    ensures !Has(ts[n], address)
  {
    assert SweepWithin(es, i, last + 18, 10);
    var j :| i <= j < |es| && es[j].Housekeeping? && last + 18 <= es[j].at <= last + 28;
    SilentPeerLeaves(ts, es, address, last, i, j, n);
  }

  /** The array of one role with its counter and flag, updated in place. */
  class Peers {
    const slots: array<Slot>
    var attached: int
    var role: bool

    ghost function View(): Table
      reads this, slots
    {
      Table(slots[..], attached, role)
    }

    constructor ()
      ensures Valid(View()) && attached == 0 && fresh(slots)
    {
      slots := new Slot[SLOTS](_ => FREE);
      attached, role := 0, false;
      new;
      SomeLive(slots[..], 0, SLOTS);
    }

    /** The table part of `sample_func` and of the connection loop; `isNew` makes telemetry announce
        the peer. With a full table the index becomes -1; what that write does is not modelled. */
    method See(site: Site, address: nat, now: int) returns (isNew: bool)
      requires slots.Length == SLOTS
      modifies this, slots
      ensures View() == Observe(old(View()), site, address, now)
      ensures isNew <==> !Has(old(View()), address)
    {
      isNew := true;
      var free := 0;
      var i := 0;
      while i < SLOTS
        invariant 0 <= i <= SLOTS && 0 <= free <= i && slots[..] == old(slots[..]) && isNew
        invariant attached == old(attached) && role == old(role)
        invariant forall j :: 0 <= j < i ==> slots[j].address != address
        invariant if free == 0 then forall j :: 0 <= j < i ==> slots[j].address != 0
                  else slots[free - 1].address == 0 && forall j :: 0 <= j < free - 1 ==> slots[j].address != 0
      {
        if slots[i].address == address {
          isNew := false;
          break;
        } else if slots[i].address == 0 && free == 0 {
          free := i + 1;
        }
        i := i + 1;
      }
      if isNew {
        i := free - 1;
        attached := attached + 1;
      }
      if i >= 0 {
        slots[i] := Slot(address, now);
      }
      if isNew || site.Connection? {
        role := true;
      }
    }

    /** The loop over the slots, which counts down for every peer it clears. */
    method ClearExpired(now: int)
      requires slots.Length == SLOTS
      modifies this`attached, slots
      ensures slots[..] == Swept(old(slots[..]), now)
      ensures attached == old(attached) - (LiveCount(old(slots[..]), 0, SLOTS) - LiveCount(slots[..], 0, SLOTS))
    {
      ghost var was, swept := slots[..], Swept(slots[..], now);
      hide Swept;
      for i := 0 to SLOTS
        invariant forall j :: 0 <= j < i ==> slots[j] == swept[j]
        invariant forall j :: i <= j < SLOTS ==> slots[j] == was[j]
        invariant attached == old(attached) - (LiveCount(was, 0, i) - LiveCount(swept, 0, i))
      {
        if Expired(slots[i], now) {
          slots[i] := FREE;
          attached := attached - 1;
        }
      }
      assert slots[..] == swept;
    }

    /** `tHouseKeeping_TimerID_Handler`, for one of the two tables. */
    method Housekeep(now: int)
      requires slots.Length == SLOTS
      modifies this, slots
      ensures View() == Sweep(old(View()), now)
      ensures old(Valid(View())) ==> Valid(View())
    {
      if Valid(View()) {
        SweepKeepsValid(View(), now);
      }
      if role {
        ClearExpired(now);
        if attached == 0 {
          role := false;
        }
      }
    }
  }
}

/** The scans that go round the table of destinations, one live peer per call. */
module PeerScan {
  import opened PeerTable

  /** The slot at position `u` of an endless way round the table. */
  function Index(u: nat): (i: nat)
    ensures i < SLOTS && (u < SLOTS ==> i == u)
  {
    u % SLOTS
  }

  predicate LiveAt(slots: seq<Slot>, u: nat)
    requires |slots| == SLOTS
  {
    Live(slots[Index(u)])
  }

  lemma RoundTheTable(u: nat)
    ensures Index(u + SLOTS) == Index(u)
    ensures Index(Index(u) + 1) == Index(u + 1)
  {
  }

  lemma IndexStep(u: nat)
    ensures Index(u + 1) == if Index(u) + 1 == SLOTS then 0 else Index(u) + 1
  {
  }

  lemma SameSlot(u: nat, v: nat)
    requires u < v < u + SLOTS
    ensures Index(u) != Index(v)
  {
  }

  /** The first live position from `u` on, or `hi`. */
  function First(slots: seq<Slot>, u: nat, hi: nat): (r: nat)
    requires |slots| == SLOTS && u <= hi
    ensures u <= r <= hi && (r < hi ==> LiveAt(slots, r))
    ensures forall v :: u <= v < r ==> !LiveAt(slots, v)
    decreases hi - u
  {
    if u == hi || LiveAt(slots, u) then u else First(slots, u + 1, hi)
  }

  /** The slot a scan from slot `start` picks, if any is live: the first live one in cyclic order. */
  function Pick(slots: seq<Slot>, start: nat): (p: nat)
    requires |slots| == SLOTS
    ensures p < SLOTS
  {
    Index(First(slots, start, start + SLOTS))
  }

  /** One scan from slot `at`: at most ten steps, no pick exactly if no slot is live, otherwise the first live
      slot in cyclic order, with the next scan starting behind it. */
  method Scan(slots: array<Slot>, at: nat) returns (found: bool, picked: nat, next: nat)
    requires slots.Length == SLOTS && at < SLOTS
    ensures found <==> exists i :: 0 <= i < SLOTS && Live(slots[i])
    ensures found ==> picked == Pick(slots[..], at) && Live(slots[picked]) && next == Index(picked + 1)
    ensures !found ==> next == at
  {
    hide Index;
    next := at;
    var count := SLOTS;
    ghost var u := at;
    while !Live(slots[next]) && count > 0
      invariant 0 <= count <= SLOTS && u == at + (SLOTS - count) && next == Index(u)
      invariant forall v :: at <= v < u ==> !LiveAt(slots[..], v)
    {
      assert !LiveAt(slots[..], u);
      IndexStep(u);
      count := count - 1;
      u := u + 1;
      next := next + 1;
      if next == SLOTS {
        next := 0;
      }
    }
    picked := next;
    found := count > 0;
    if found {
      assert LiveAt(slots[..], u);
      assert First(slots[..], at, at + SLOTS) == u;
      IndexStep(picked);
      next := next + 1;
      if next == SLOTS {
        next := 0;
      }
    } else {
      RoundTheTable(at);
      forall i | 0 <= i < SLOTS ensures !Live(slots[i]) {
        RoundTheTable(i);
        assert !LiveAt(slots[..], if i < at then i + SLOTS else i);
      }
    }
  }

  /** Where the scan after `k` picks starts. */
  function StartAfter(slots: seq<Slot>, start: nat, k: nat): (at: nat)
    requires |slots| == SLOTS && start < SLOTS
    ensures at < SLOTS
  {
    if k == 0 then start else Index(Pick(slots, StartAfter(slots, start, k - 1)) + 1)
  }

  /** `k` picks in a row on an unchanged table. */
  function Picks(slots: seq<Slot>, start: nat, k: nat): (ps: seq<nat>)
    requires |slots| == SLOTS && start < SLOTS
    ensures |ps| == k
  {
    if k == 0 then [] else Picks(slots, start, k - 1) + [Pick(slots, StartAfter(slots, start, k - 1))]
  }

  /** Live positions from `lo` up to `hi`. */
  function Around(slots: seq<Slot>, lo: nat, hi: nat): nat
    requires |slots| == SLOTS && lo <= hi
    decreases hi - lo
  {
    if lo == hi then 0 else Around(slots, lo, hi - 1) + if LiveAt(slots, hi - 1) then 1 else 0
  }

  lemma {:induction false} AroundSplits(slots: seq<Slot>, lo: nat, mid: nat, hi: nat)
    requires |slots| == SLOTS && lo <= mid <= hi
    ensures Around(slots, lo, hi) == Around(slots, lo, mid) + Around(slots, mid, hi)
    decreases hi - mid
  {
    if mid < hi {
      AroundSplits(slots, lo, mid, hi - 1);
    }
  }

  lemma {:induction false} AroundNone(slots: seq<Slot>, lo: nat, hi: nat)
    requires |slots| == SLOTS && lo <= hi && forall u :: lo <= u < hi ==> !LiveAt(slots, u)
    ensures Around(slots, lo, hi) == 0
    decreases hi - lo
  {
    if lo < hi {
      AroundNone(slots, lo, hi - 1);
    }
  }

  lemma {:induction false} AroundPrefix(slots: seq<Slot>, hi: nat)
    requires |slots| == SLOTS && hi <= SLOTS
    ensures Around(slots, 0, hi) == LiveCount(slots, 0, hi)
  {
    if hi > 0 {
      AroundPrefix(slots, hi - 1);
    }
  }

  /** Once round meets every live slot, wherever it starts. */
  lemma {:induction false} OnceRound(slots: seq<Slot>, start: nat)
    requires |slots| == SLOTS
    ensures Around(slots, start, start + SLOTS) == LiveCount(slots, 0, SLOTS)
  {
    if start == 0 {
      AroundPrefix(slots, SLOTS);
    } else {
      hide Index;
      OnceRound(slots, start - 1);
      AroundSplits(slots, start - 1, start, start - 1 + SLOTS);
      RoundTheTable(start - 1);
      assert Around(slots, start - 1, start)
          == Around(slots, start - 1, start - 1) + if LiveAt(slots, start - 1) then 1 else 0;
    }
  }

  lemma {:induction false} FirstShifts(slots: seq<Slot>, u: nat, hi: nat)
    requires |slots| == SLOTS && u <= hi
    ensures First(slots, u + SLOTS, hi + SLOTS) == First(slots, u, hi) + SLOTS
    decreases hi - u
  {
    hide Index;
    RoundTheTable(u);
    if u < hi && !LiveAt(slots, u) {
      FirstShifts(slots, u + 1, hi);
    }
  }

  /** The first `k` picks, laid out on the way round: increasing, within one round, and leaving out no live slot. */
  ghost predicate Layout(slots: seq<Slot>, start: nat, k: nat, us: seq<nat>, end: nat)
    requires |slots| == SLOTS && start < SLOTS
  {
    && |us| == k
    && start <= end <= start + SLOTS && Index(end) == StartAfter(slots, start, k)
    && Around(slots, start, end) == k
    && (forall n :: 0 <= n < k ==>
          start <= us[n] < end && LiveAt(slots, us[n]) && Picks(slots, start, k)[n] == Index(us[n]))
    && (forall m, n :: 0 <= m < n < k ==> us[m] < us[n])
    && (forall u :: start <= u < end && LiveAt(slots, u) ==> u in us)
  }

  /** The next pick from position `end` is the first live position there. */
  lemma PickFrom(slots: seq<Slot>, end: nat)
    requires |slots| == SLOTS && end < 2 * SLOTS
    ensures Pick(slots, Index(end)) == Index(First(slots, end, end + SLOTS))
  {
    hide Index;
    if end >= SLOTS {
      RoundTheTable(end - SLOTS);
      FirstShifts(slots, end - SLOTS, end);
      RoundTheTable(First(slots, end - SLOTS, end));
    }
  }

  /** While fewer picks were made than slots are live, the next one comes before the end of the round. */
  lemma NextWithinRound(slots: seq<Slot>, start: nat, end: nat)
    requires |slots| == SLOTS && start <= end <= start + SLOTS
    requires Around(slots, start, end) < LiveCount(slots, 0, SLOTS)
    ensures var u := First(slots, end, end + SLOTS);
            u < start + SLOTS && Around(slots, start, u + 1) == Around(slots, start, end) + 1
  {
    var u := First(slots, end, end + SLOTS);
    hide Index, LiveAt;
    OnceRound(slots, start);
    AroundSplits(slots, start, end, start + SLOTS);
    if u >= start + SLOTS {
      AroundNone(slots, end, start + SLOTS);
    }
    AroundNone(slots, end, u);
    AroundSplits(slots, start, end, u);
  }

  lemma LayoutStarts(slots: seq<Slot>, start: nat)
    requires |slots| == SLOTS && start < SLOTS
    ensures Layout(slots, start, 0, [], start)
  {
  }

  lemma {:induction false} PicksLayOut(slots: seq<Slot>, start: nat, k: nat) returns (us: seq<nat>, end: nat)
    requires |slots| == SLOTS && start < SLOTS && k <= LiveCount(slots, 0, SLOTS)
    ensures Layout(slots, start, k, us, end)
  {
    hide Index, LiveAt, Pick, First, Around;
    if k == 0 {
      us, end := [], start;
      LayoutStarts(slots, start);
    } else {
      us, end := PicksLayOut(slots, start, k - 1);
      NextWithinRound(slots, start, end);
      PickFrom(slots, end);
      var u := First(slots, end, end + SLOTS);
      RoundTheTable(u);
      us, end := us + [u], u + 1;
    }
  }

  /** On an unchanged table with `m` live slots, any `m` consecutive picks visit each live slot exactly once. */
  lemma RoundRobin(slots: seq<Slot>, start: nat)
    requires |slots| == SLOTS && start < SLOTS
    ensures var ps := Picks(slots, start, LiveCount(slots, 0, SLOTS));
            && (forall m, n :: 0 <= m < n < |ps| ==> ps[m] != ps[n])
            && (forall i: nat :: i in ps <==> i < SLOTS && Live(slots[i]))
  {
    hide Index, Around;
    var k := LiveCount(slots, 0, SLOTS);
    var us, end := PicksLayOut(slots, start, k);
    var ps := Picks(slots, start, k);
    forall m, n | 0 <= m < n < k ensures ps[m] != ps[n] {
      SameSlot(us[m], us[n]);
    }
    forall i: nat | i < SLOTS && Live(slots[i]) ensures i in ps {
      RoundTheTable(i);
      var u := if i < start then i + SLOTS else i;
      assert LiveAt(slots, u);
      RoundIsOver(slots, start, end, u);
      var n :| 0 <= n < k && us[n] == u;
      assert ps[n] == i;
    }
  }

  /** When all live slots are counted, no live position is left in the round. */
  lemma RoundIsOver(slots: seq<Slot>, start: nat, end: nat, u: nat)
    requires |slots| == SLOTS && start <= end <= start + SLOTS && start <= u < start + SLOTS && LiveAt(slots, u)
    requires Around(slots, start, end) == LiveCount(slots, 0, SLOTS)
    ensures u < end
  {
    hide Index, LiveAt;
    OnceRound(slots, start);
    AroundSplits(slots, start, end, start + SLOTS);
    if u >= end {
      LiveCounted(slots, end, u, start + SLOTS);
    }
  }

  lemma LiveCounted(slots: seq<Slot>, lo: nat, u: nat, hi: nat)
    requires |slots| == SLOTS && lo <= u < hi && LiveAt(slots, u)
    ensures Around(slots, lo, hi) > 0
  {
    hide LiveAt;
    AroundSplits(slots, lo, u, hi);
    AroundSplits(slots, u, u + 1, hi);
  }
}
