/** The window of the last ten interval counts from which the source derives its retransmission rate. */
module RetransmissionWindow {

  const SIZE := 10

  /** One past the largest `unsigned long`. */
  const WRAP := 0x1_0000_0000_0000_0000

  type Counter = n: int | 0 <= n < WRAP

  /** Unsigned 64-bit arithmetic. */
  function Wrap(n: int): Counter {
    n % WRAP
  }

  lemma WrapSmall(n: int)
    requires 0 <= n < WRAP
    ensures Wrap(n) == n
  {
  }

  lemma WrapAdds(a: int, b: int)
    ensures Wrap(Wrap(a) + b) == Wrap(a + b)
  {
  }

  /** Counters of one poll, or the change between two. */
  datatype Counts = Counts(retrans: Counter, packets: Counter)

  /** A sum of counts, in unbounded arithmetic. */
  datatype Total = Total(retrans: nat, packets: nat)

  const ZERO := Counts(0, 0)

  /** The change from one poll to the next, in unsigned arithmetic. */
  function Delta(before: Counts, now: Counts): Counts
  {
    if now.packets > before.packets then
      Counts(Wrap(now.retrans - before.retrans), now.packets - before.packets)
    else
      ZERO
  }

  /** The changes along a series of polls, the first one counted from zero. */
  function Deltas(polls: seq<Counts>): (ds: seq<Counts>)
    ensures |ds| == |polls|
  {
    if polls == [] then []
    else Deltas(polls[..|polls| - 1]) + [Delta(Before(polls, |polls| - 1), polls[|polls| - 1])]
  }

  lemma DeltasAppend(polls: seq<Counts>, now: Counts)
    ensures Deltas(polls + [now]) == Deltas(polls) + [Delta(Before(polls, |polls|), now)]
  {
    assert (polls + [now])[..|polls|] == polls;
    assert Before(polls + [now], |polls|) == Before(polls, |polls|);
  }

  /** The poll before number `i`; zero counters before the first. */
  function Before(polls: seq<Counts>, i: nat): Counts
    requires i <= |polls|
  {
    if i == 0 then ZERO else polls[i - 1]
  }

  function LastTen(ds: seq<Counts>): seq<Counts> {
    if |ds| <= SIZE then ds else ds[|ds| - SIZE..]
  }

  function Sum(ds: seq<Counts>): Total {
    if ds == [] then Total(0, 0)
    else
      var s := Sum(ds[..|ds| - 1]);
      Total(s.retrans + ds[|ds| - 1].retrans, s.packets + ds[|ds| - 1].packets)
  }

  /** A snapshot of the two arrays, `vRateCount` and `fRateArrayDone`. */
  datatype Ring = Ring(slots: seq<Counts>, count: nat, full: bool)

  predicate Valid(r: Ring) {
    |r.slots| == SIZE && r.count <= SIZE && (r.full ==> r.count > 0)
  }

  /** What the ring holds, oldest first. */
  function Window(r: Ring): seq<Counts>
    requires Valid(r)
  {
    if r.full then r.slots[r.count..] + r.slots[..r.count] else r.slots[..r.count]
  }

  function Push(r: Ring, d: Counts): Ring
    requires Valid(r)
  {
    if r.count < SIZE then r.(slots := r.slots[r.count := d], count := r.count + 1)
    else Ring(r.slots[0 := d], 1, true)
  }

  lemma PushKeepsLastTen(r: Ring, d: Counts)
    requires Valid(r)
    ensures Valid(Push(r, d)) && Window(Push(r, d)) == LastTen(Window(r) + [d])
  {
    var slots, k := Push(r, d).slots, r.count;
    if k == SIZE {
      assert Window(r) == r.slots && slots[1..] == r.slots[1..];
    } else {
      assert slots[..k + 1] == r.slots[..k] + [d] && slots[k + 1..] == r.slots[k + 1..];
      if r.full {
        assert LastTen(Window(r) + [d]) == (r.slots[k..] + r.slots[..k] + [d])[1..];
        assert r.slots[k..][1..] == r.slots[k + 1..];
      }
    }
  }

  lemma LastTenAppends(ds: seq<Counts>, d: Counts)
    ensures LastTen(LastTen(ds) + [d]) == LastTen(ds + [d])
    ensures |LastTen(ds)| == if |ds| < SIZE then |ds| else SIZE
  {
  }

  lemma {:induction false} SumAppends(a: seq<Counts>, b: seq<Counts>)
    ensures Sum(a + b).retrans == Sum(a).retrans + Sum(b).retrans
    ensures Sum(a + b).packets == Sum(a).packets + Sum(b).packets
    decreases |b|
  {
    if b == [] {
      assert a + b == a;
    } else {
      assert (a + b)[..|a + b| - 1] == a + b[..|b| - 1];
      SumAppends(a, b[..|b| - 1]);
    }
  }

  /** One more slot in the running sums. */
  lemma SumPlus(slots: seq<Counts>, x: nat)
    requires x < |slots|
    ensures Sum(slots[..0]) == Total(0, 0) && Wrap(0) == 0
    ensures Wrap(Wrap(Sum(slots[..x]).retrans) + slots[x].retrans) == Wrap(Sum(slots[..x + 1]).retrans)
    ensures Wrap(Wrap(Sum(slots[..x]).packets) + slots[x].packets) == Wrap(Sum(slots[..x + 1]).packets)
  {
    assert slots[..x + 1][..x] == slots[..x];
    WrapAdds(Sum(slots[..x]).retrans, slots[x].retrans);
    WrapAdds(Sum(slots[..x]).packets, slots[x].packets);
    WrapSmall(0);
    hide Wrap;
  }

  lemma WindowLength(r: Ring)
    requires Valid(r)
    ensures |Window(r)| == if r.full then SIZE else r.count
  {
  }

  /** The slots in use add up to the window, in whatever order they lie. */
  lemma SlotsSum(r: Ring)
    requires Valid(r)
    ensures Sum(r.slots[..if r.full then SIZE else r.count]) == Sum(Window(r))
  {
    if r.full {
      SumAppends(r.slots[..r.count], r.slots[r.count..]);
      SumAppends(r.slots[r.count..], r.slots[..r.count]);
      assert r.slots[..SIZE] == r.slots[..r.count] + r.slots[r.count..];
    }
  }

  /** Counters that never decrease, with retransmissions changing only when packets do. */
  predicate Monotone(polls: seq<Counts>) {
    forall i :: 0 <= i < |polls| ==>
      && Before(polls, i).retrans <= polls[i].retrans && Before(polls, i).packets <= polls[i].packets
      && (Before(polls, i).packets == polls[i].packets ==> Before(polls, i).retrans == polls[i].retrans)
  }

  lemma MonotoneFront(front: seq<Counts>, now: Counts)
    requires Monotone(front + [now])
    ensures Monotone(front)
    ensures forall k :: 0 <= k <= |front| ==> Before(front + [now], k) == Before(front, k)
    ensures var d := Delta(Before(front, |front|), now);
            && d.retrans + Before(front, |front|).retrans == now.retrans
            && d.packets + Before(front, |front|).packets == now.packets
  {
    var polls := front + [now];
    assert forall k :: 0 <= k < |front| ==> front[k] == polls[k] && Before(front, k) == Before(polls, k);
    assert polls[|front|] == now && Before(polls, |front|) == Before(front, |front|);
    DeltaExact(Before(front, |front|), now);
  }

  /** Then the changes telescope: their sum from poll `i` on is the difference of the totals. */
  lemma {:induction false} DeltasTelescope(polls: seq<Counts>, i: nat)
    requires Monotone(polls) && i <= |polls|
    ensures Sum(Deltas(polls)[i..]).retrans + Before(polls, i).retrans == Before(polls, |polls|).retrans
    ensures Sum(Deltas(polls)[i..]).packets + Before(polls, i).packets == Before(polls, |polls|).packets
  {
    hide Wrap, Delta, Deltas, Monotone;
    if i < |polls| {
      var front, now := polls[..|polls| - 1], polls[|polls| - 1];
      assert polls == front + [now];
      MonotoneFront(front, now);
      DeltasTelescope(front, i);
      DeltasAppend(front, now);
      var d := Delta(Before(front, |front|), now);
      assert Deltas(polls)[i..] == Deltas(front)[i..] + [d];
      assert (Deltas(front)[i..] + [d])[..|front| - i] == Deltas(front)[i..];
    }
  }

  /** An interval without new packets counts for nothing; otherwise the change leads from one poll to
      the next, retransmissions across a wrap of their counter. */
  lemma DeltaMeans(before: Counts, now: Counts)
    ensures now.packets <= before.packets ==> Delta(before, now) == Counts(0, 0)
    ensures now.packets > before.packets ==>
              && before.packets + Delta(before, now).packets == now.packets
              && (before.retrans + Delta(before, now).retrans) % 0x1_0000_0000_0000_0000 == now.retrans
  {
  }

  lemma DeltaExact(before: Counts, now: Counts)
    requires before.retrans <= now.retrans && before.packets <= now.packets
    requires before.packets == now.packets ==> before.retrans == now.retrans
    ensures Delta(before, now) == Counts(now.retrans - before.retrans, now.packets - before.packets)
  {
  }

  /** The window adds up to the difference between the newest totals and those of ten polls before. */
  lemma WindowTelescopes(polls: seq<Counts>)
    requires Monotone(polls)
    ensures var i := if |polls| <= SIZE then 0 else |polls| - SIZE;
            var sum := Sum(LastTen(Deltas(polls)));
            && sum.retrans + Before(polls, i).retrans == Before(polls, |polls|).retrans
            && sum.packets + Before(polls, i).packets == Before(polls, |polls|).packets
            && sum.retrans < WRAP && sum.packets < WRAP
  {
    hide Deltas, Sum, Monotone;
    var i := if |polls| <= SIZE then 0 else |polls| - SIZE;
    DeltasTelescope(polls, i);
    assert LastTen(Deltas(polls)) == Deltas(polls)[i..];
  }

  /** The published percentage: the share of retransmissions in the window, divided by its length once more. */
  function Rate(sum: Total, n: nat): real
    requires n > 0
  {
    var retrans, packets := Wrap(sum.retrans), Wrap(sum.packets);
    if packets == 0 then 0.0 else retrans as real / packets as real * 100.0 / n as real
  }

  lemma {:induction false} SumBelow(ds: seq<Counts>)
    requires forall d :: d in ds ==> d.retrans <= d.packets
    ensures Sum(ds).retrans <= Sum(ds).packets
  {
    if ds != [] {
      assert forall d :: d in ds[..|ds| - 1] ==> d in ds;
      SumBelow(ds[..|ds| - 1]);
      assert ds[|ds| - 1] in ds;
    }
  }

  lemma Quotient(x: real, y: real, n: real)
    requires 0.0 <= x <= y && y > 0.0 && n > 0.0
    ensures 0.0 <= x / y * 100.0 / n <= 100.0 / n
  {
    var q := x / y;
    assert 0.0 <= q <= 1.0;
  }

  /** If no interval retransmits more than it sends and the sums fit the machine,
      the rate lies between 0 and 100 divided by the number of intervals. */
  lemma WindowRateBounded(window: seq<Counts>)
    requires window != [] && Sum(window).packets < WRAP && forall d :: d in window ==> d.retrans <= d.packets
    ensures 0.0 <= Rate(Sum(window), |window|) <= 100.0 / |window| as real
  {
    SumBelow(window);
    var s := Sum(window);
    WrapSmall(s.retrans);
    WrapSmall(s.packets);
    hide Sum, Wrap;
    var packets := if s.packets == 0 then 1 else s.packets;
    Quotient(s.retrans as real, packets as real, |window| as real);
  }

  /** No interval retransmits more than it sends. */
  predicate Plausible(polls: seq<Counts>) {
    forall d :: d in Deltas(polls) ==> d.retrans <= d.packets
  }

  /** For any such history of counters that never decrease, the rate of its last
      ten intervals lies between 0 and 100 divided by their number; the sums never overflow. */
  lemma RateBounded(polls: seq<Counts>)
    requires polls != [] && Monotone(polls) && Plausible(polls)
    ensures var window := LastTen(Deltas(polls));
            && |window| == (if |polls| < SIZE then |polls| else SIZE)
            && 0.0 <= Rate(Sum(window), |window|) <= 100.0 / |window| as real
  {
    hide Sum, Monotone, Rate;
    var window := LastTen(Deltas(polls));
    LastTenAppends(Deltas(polls), ZERO);
    WindowTelescopes(polls);
    assert forall d :: d in window ==> d in Deltas(polls);
    WindowRateBounded(window);
  }

  /** For counters that never decrease, with retransmissions changing only when packets do: the rate is
      the percentage of retransmissions among the packets since ten polls before, or since
      the start, divided by the number of intervals; zero if there were no packets. */
  lemma RateExactly(polls: seq<Counts>)
    requires polls != [] && Monotone(polls)
    ensures var n := if |polls| < 10 then |polls| else 10;
            var from, to := Before(polls, |polls| - n), polls[|polls| - 1];
            var window := LastTen(Deltas(polls));
            && |window| == n && from.packets <= to.packets && from.retrans <= to.retrans
            && Rate(Sum(window), n) ==
               if from.packets == to.packets then 0.0
               else (to.retrans - from.retrans) as real / (to.packets - from.packets) as real * 100.0 / n as real
  {
    hide Deltas, Sum, Monotone;
    LastTenAppends(Deltas(polls), ZERO);
    WindowTelescopes(polls);
    var s := Sum(LastTen(Deltas(polls)));
    WrapSmall(s.retrans);
    WrapSmall(s.packets);
    hide Wrap, LastTen;
  }

  /** Pushing the change of a new poll keeps the window up to date. */
  lemma PollEntersWindow(r: Ring, polls: seq<Counts>, now: Counts)
    requires Valid(r) && Window(r) == LastTen(Deltas(polls))
    ensures var d := Delta(Before(polls, |polls|), now);
            Valid(Push(r, d)) && Window(Push(r, d)) == LastTen(Deltas(polls + [now]))
  {
    hide Wrap, Delta, Deltas, Window, LastTen, Push, Valid;
    var d := Delta(Before(polls, |polls|), now);
    PushKeepsLastTen(r, d);
    LastTenAppends(Deltas(polls), d);
    DeltasAppend(polls, now);
  }

  /** The thread that polls the counters of the current peer. `polls` lists the polls since the last reset. */
  class Poller {
    const retrans: array<Counter>
    const packets: array<Counter>
    var count: nat
    var full: bool
    var last: Counts
    var published: real
    ghost var polls: seq<Counts>

    ghost function View(): (r: Ring)
      requires retrans.Length == packets.Length == SIZE
      reads this`count, this`full, retrans, packets
      ensures |r.slots| == SIZE && r.count == count && r.full == full
      ensures forall x :: 0 <= x < SIZE ==> r.slots[x] == Counts(retrans[x], packets[x])
    {
      Ring(seq(SIZE, i requires 0 <= i < SIZE reads retrans, packets => Counts(retrans[i], packets[i])), count, full)
    }

    /** The ring holds exactly the last ten changes since the last reset. */
    ghost predicate Holds()
      reads this`count, this`full, this`last, this`polls, retrans, packets
    {
      && retrans.Length == packets.Length == SIZE && retrans != packets
      && Valid(View())
      && last == Before(polls, |polls|)
      && Window(View()) == LastTen(Deltas(polls))
    }

    constructor ()
      ensures Holds() && polls == [] && published == 0.0 && fresh(retrans) && fresh(packets)
    {
      retrans := new Counter[SIZE];
      packets := new Counter[SIZE];
      count, full, last, published, polls := 0, false, ZERO, 0.0, [];
    }

    /** The sums over the slots in use, in unsigned arithmetic, and how many these are. */
    method Totals() returns (retransTotal: nat, packetsTotal: nat, n: nat)
      requires Holds()
      ensures retransTotal == Wrap(Sum(Window(View())).retrans) && packetsTotal == Wrap(Sum(Window(View())).packets)
      ensures n == |Window(View())|
    {
      hide Wrap, Deltas, LastTen, Window, View, Sum;
      ghost var ring := View();
      SlotsSum(ring);
      WindowLength(ring);
      SumPlus(ring.slots, 0);
      retransTotal, packetsTotal := 0, 0;
      n := if full then SIZE else count;
      for x := 0 to n
        invariant retransTotal == Wrap(Sum(ring.slots[..x]).retrans)
        invariant packetsTotal == Wrap(Sum(ring.slots[..x]).packets)
      {
        SumPlus(ring.slots, x);
        retransTotal := Wrap(retransTotal + retrans[x]);
        packetsTotal := Wrap(packetsTotal + packets[x]);
      }
    }

    /** Writes one change into the arrays. */
    method Store(d: Counts)
      requires retrans.Length == packets.Length == SIZE && retrans != packets && Valid(View())
      modifies this`count, this`full, retrans, packets
      ensures View() == Push(old(View()), d)
    {
      if count < SIZE {
        retrans[count], packets[count] := d.retrans, d.packets;
        count := count + 1;
      } else {
        full := true;
        retrans[0], packets[0] := d.retrans, d.packets;
        count := 1;
      }
    }

    /** Recomputes the rate from the window. */
    method Publish()
      requires Holds() && polls != []
      modifies this`published
      ensures var window := LastTen(Deltas(polls)); window != [] && published == Rate(Sum(window), |window|)
    {
      hide Wrap, Deltas, Sum, Window, LastTen, Valid, View;
      LastTenAppends(Deltas(polls), ZERO);
      var r, p, n := Totals();
      published := if p == 0 then 0.0 else r as real / p as real * 100.0 / n as real;
    }

    /** A poll that found the peer, with the totals over its connections. */
    method Found(now: Counts)
      requires Holds()
      modifies this, retrans, packets
      ensures Holds() && polls == old(polls) + [now]
      ensures var window := LastTen(Deltas(polls)); window != [] && published == Rate(Sum(window), |window|)
      ensures Monotone(polls) && Plausible(polls) ==>
                0.0 <= published <= 100.0 / (if |polls| < SIZE then |polls| else SIZE) as real
    {
      hide Wrap, Delta, Deltas, Sum, Window, LastTen, Push, Valid, View, Rate, Monotone, Plausible;
      PollEntersWindow(View(), polls, now);
      Store(Delta(last, now));
      last := now;
      polls := polls + [now];
      Publish();
      if Monotone(polls) && Plausible(polls) {
        RateBounded(polls);
      }
    }

    /** A poll that did not find the peer resets everything but the published rate. */
    method NotFound()
      requires Holds()
      modifies this
      ensures Holds() && polls == [] && published == old(published)
    {
      last, count, full, polls := ZERO, 0, false, [];
    }
  }
}
