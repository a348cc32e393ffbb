/** The feedback loop that tunes `net.ipv4.tcp_wmem`: once a second it compares the measured
    bitrate with the best so far, climbs up or down, and backs off after each verdict. */
module WmemTuner {

  const DELTA := 200000
  const LOW_MARK := 600000
  const MAX_APPLY := 10

  const UP := 1
  const DOWN := 2
  const BACK_TO_BEST := 3

  /** The three values of the kernel setting. */
  datatype Wmem = Wmem(minimum: nat, default: int, maximum: nat)

  /** A command buffer that may never have been written. */
  datatype Buffer = Unset | Holds(w: Wmem)

  /** Fixed for a run: tuning or learning mode, `my_tune_max`, and `vGoodBitrateValue`. */
  datatype Config = Config(tuning: bool, tuneMax: nat, good: real)

  /** In Gb/s. */
  type Bitrate = r: real | r >= 0.0

  /** One second: the average bitrate, and what the kernel would hold if the shell were given an unset command. */
  datatype Reading = Reading(rate: Bitrate, garbage: Wmem)

  /** What the loop carries from second to second: direction, `applied`, and the back-off counters. */
  datatype Loop = Loop(tune: int, applied: bool, suggested: nat, nothingDone: nat, maxApply: nat)

  /** `command` is `aApplyDefTunBest`, `best` is `best_wmem_val`. */
  datatype State = State(
    loop: Loop, highest: Bitrate, previous: Bitrate, command: Buffer, best: Buffer, kernel: Wmem)

  datatype Verdict =
    | Skipped
    | Unchecked
    | Sufficient
    | TooLow
    | BadDirection
    | Suggested
    | Explored(w: Wmem)
    | Reapplied(w: Wmem)
    | ReappliedUnset

  predicate Initial(s: State) {
    s == State(Loop(UP, false, 0, 0, 0), 0.0, 0.0, Unset, Unset, s.kernel)
  }

  /** The second after a re-application is not compared with anything. */
  predicate Compared(s: State, x: Reading) {
    s.loop.tune != BACK_TO_BEST || x.rate == 0.0
  }

  predicate NewHighest(s: State, x: Reading) {
    Compared(s, x) && s.highest <= x.rate
  }

  /** Consecutive seconds that found something applied, counted anew at each new highest bitrate. */
  function Streak(s: State, x: Reading): nat {
    if !s.loop.applied then 0 else if NewHighest(s, x) then 1 else s.loop.maxApply + 1
  }

  /** First part of a pass: judge the last setting by the new bitrate. */
  function Judge(s: State, x: Reading): State {
    if !Compared(s, x) then
      s.(loop := s.loop.(tune := 0, applied := false, nothingDone := 1))
    else
      var highest := if NewHighest(s, x) then x.rate else s.highest;
      var best := if NewHighest(s, x) && s.loop.applied then s.command else s.best;
      var n := Streak(s, x);
      if n >= MAX_APPLY then
        State(s.loop.(tune := BACK_TO_BEST, maxApply := 0), highest, x.rate, best, best, s.kernel)
      else
        State(s.loop.(tune := if s.previous < highest then UP else DOWN, maxApply := n),
              highest, x.rate, s.command, best, s.kernel)
  }

  predicate BacksOff(l: Loop) {
    if l.suggested != 0 then l.suggested <= 3
    else !l.applied && l.nothingDone != 0 && l.nothingDone <= 5
  }

  /** Second part: count down, or clear what has run out. */
  function CountDown(l: Loop): Loop {
    if BacksOff(l) then
      if l.suggested != 0 then l.(suggested := l.suggested + 1) else l.(nothingDone := l.nothingDone + 1)
    else if l.suggested != 0 then l.(suggested := 0, applied := false)
    else if l.applied then l.(applied := false)
    else l.(nothingDone := 0)
  }

  /** `check_if_bitrate_too_low` on the kernel's current setting. */
  function Check(c: Config, s: State, x: Reading): Verdict {
    var k := s.kernel;
    if !(1.0 <= x.rate < c.good) || c.tuneMax == 0 then Unchecked
    else if c.tuneMax <= k.maximum then Sufficient
    else if !c.tuning then Suggested
    else if s.loop.tune == UP then Explored(k.(maximum := k.maximum + DELTA))
    else if s.loop.tune == DOWN then
      if k.maximum > LOW_MARK then Explored(k.(maximum := k.maximum - DELTA)) else TooLow
    else if s.loop.tune == BACK_TO_BEST then
      if s.command.Unset? then ReappliedUnset else Reapplied(s.command.w)
    else BadDirection
  }

  /** Third part: what the verdict changes. An unset command is a
      string of arbitrary bytes, so it may leave any setting behind. */
  function Act(s: State, v: Verdict, x: Reading): State {
    match v
    case Explored(w) => s.(loop := s.loop.(applied := true), command := Holds(w), kernel := w)
    case Reapplied(w) => s.(loop := s.loop.(applied := true), kernel := w)
    case ReappliedUnset => s.(loop := s.loop.(applied := true), kernel := x.garbage)
    case Suggested => s.(loop := s.loop.(suggested := 1))
    case Skipped => s
    case Unchecked => s
    case _ => s.(loop := s.loop.(nothingDone := 1))
  }

  function VerdictOf(c: Config, s: State, x: Reading): Verdict {
    var j := Judge(s, x);
    if BacksOff(j.loop) then Skipped else Check(c, j.(loop := CountDown(j.loop)), x)
  }

  /** One pass for one second with reading `x`. */
  function Next(c: Config, s: State, x: Reading): State {
    var j := Judge(s, x);
    Act(j.(loop := CountDown(j.loop)), VerdictOf(c, s, x), x)
  }

  predicate Moves(c: Config, s: State, x: Reading, t: State) {
    t == Next(c, s, x)
  }

  ghost predicate Behavior(c: Config, ss: seq<State>, xs: seq<Reading>) {
    && |ss| == |xs| + 1
    && Initial(ss[0])
    && forall i :: 0 <= i < |xs| ==> Moves(c, ss[i], xs[i], ss[i + 1])
  }

  // ---------------------------------------------------------------- back-off

  /** At most one of the three reasons to wait is pending, and no counter overruns. */
  predicate Exclusive(c: Config, l: Loop) {
    && l.tune in {0, UP, DOWN, BACK_TO_BEST}
    && l.suggested <= 4 && l.nothingDone <= 6 && l.maxApply < MAX_APPLY
    && (l.suggested != 0 ==> !c.tuning && !l.applied && l.nothingDone == 0)
    && (l.applied ==> c.tuning && l.nothingDone == 0)
    && (!c.tuning ==> l.tune != BACK_TO_BEST)
    && (l.tune == 0 ==> 2 <= l.nothingDone)
  }

  lemma NextKeepsExclusive(c: Config, s: State, x: Reading)
    requires Exclusive(c, s.loop)
    ensures Exclusive(c, Next(c, s, x).loop)
    ensures VerdictOf(c, s, x) != BadDirection
  {
  }

  lemma {:induction false} ExclusiveThroughout(c: Config, ss: seq<State>, xs: seq<Reading>, i: nat)
    requires Behavior(c, ss, xs) && i <= |xs|
    ensures Exclusive(c, ss[i].loop)
  {
    if i > 0 {
      hide Next;
      ExclusiveThroughout(c, ss, xs, i - 1);
      assert Moves(c, ss[i - 1], xs[i - 1], ss[i]);
      NextKeepsExclusive(c, ss[i - 1], xs[i - 1]);
    }
  }

  /** The verdict of pass `i` of a history. */
  ghost function At(c: Config, ss: seq<State>, xs: seq<Reading>, i: nat): Verdict
    requires |ss| == |xs| + 1 && i < |xs|
  {
    VerdictOf(c, ss[i], xs[i])
  }

  /** Waiting after `nothingDone`, at count `n`. */
  predicate WaitingIdle(l: Loop, n: nat) {
    !l.applied && l.suggested == 0 && l.nothingDone == n && (n >= 2 ==> l.tune != BACK_TO_BEST)
  }

  lemma IdleWaitStep(c: Config, s: State, x: Reading, n: nat)
    requires WaitingIdle(s.loop, n) && 1 <= n <= 6
    ensures VerdictOf(c, s, x).Skipped? <==> n <= 5
    ensures n <= 5 ==> WaitingIdle(Next(c, s, x).loop, n + 1)
  {
  }

  lemma {:induction false} IdleWait(c: Config, ss: seq<State>, xs: seq<Reading>, i: nat, n: nat)
    requires Behavior(c, ss, xs) && 1 <= n <= 6 && i <= |xs| && WaitingIdle(ss[i].loop, n)
    ensures forall j :: i <= j < i + 6 - n && j < |xs| ==> At(c, ss, xs, j).Skipped?
    ensures i + 6 - n < |xs| ==> !At(c, ss, xs, i + 6 - n).Skipped?
    decreases 6 - n
  {
    hide Next, VerdictOf;
    if i < |xs| {
      IdleWaitStep(c, ss[i], xs[i], n);
      if n < 6 {
        assert Moves(c, ss[i], xs[i], ss[i + 1]);
        IdleWait(c, ss, xs, i + 1, n + 1);
      }
    }
  }

  lemma SuggestedWaitStep(c: Config, s: State, x: Reading)
    requires Exclusive(c, s.loop) && s.loop.suggested > 0
    ensures VerdictOf(c, s, x).Skipped? <==> s.loop.suggested <= 3
    ensures s.loop.suggested <= 3 ==> Next(c, s, x).loop.suggested == s.loop.suggested + 1
  {
  }

  lemma {:induction false} SuggestedWait(c: Config, ss: seq<State>, xs: seq<Reading>, i: nat, n: nat)
    requires Behavior(c, ss, xs) && 1 <= n <= 4 && i <= |xs| && ss[i].loop.suggested == n
    ensures forall j :: i <= j < i + 4 - n && j < |xs| ==> At(c, ss, xs, j).Skipped?
    ensures i + 4 - n < |xs| ==> !At(c, ss, xs, i + 4 - n).Skipped?
    decreases 4 - n
  {
    hide Next, VerdictOf;
    if i < |xs| {
      ExclusiveThroughout(c, ss, xs, i);
      SuggestedWaitStep(c, ss[i], xs[i]);
      if n < 4 {
        assert Moves(c, ss[i], xs[i], ss[i + 1]);
        SuggestedWait(c, ss, xs, i + 1, n + 1);
      }
    }
  }

  /** How each verdict leaves the counters. */
  lemma VerdictSetsCounters(c: Config, s: State, x: Reading)
    requires Exclusive(c, s.loop)
    ensures var v, l := VerdictOf(c, s, x), Next(c, s, x).loop;
            && (v.Sufficient? || v.TooLow? ==> WaitingIdle(l, 1))
            && (v.Suggested? ==> l.suggested == 1)
            && (v.Reapplied? || v.ReappliedUnset? ==> Ready(l) && l.tune == BACK_TO_BEST)
            && (v.Explored? ==> Ready(l) && l.tune != BACK_TO_BEST)
            && (v.Unchecked? ==> Ready(l))
  {
  }

  /** Nothing to wait for, except perhaps the pass that is due after a decision to go back to the best. */
  predicate Ready(l: Loop) {
    l.suggested == 0 && (l.applied || l.nothingDone == 0)
  }

  /** The pass after such a decision, whether or not the best was re-applied, is the first of
      a wait, unless it sees no bitrate; any other pass that is ready does not wait. */
  lemma ReadyStep(c: Config, s: State, x: Reading)
    requires Exclusive(c, s.loop) && Ready(s.loop)
    ensures VerdictOf(c, s, x).Skipped? <==> s.loop.tune == BACK_TO_BEST && x.rate != 0.0
    ensures VerdictOf(c, s, x).Skipped? ==> WaitingIdle(Next(c, s, x).loop, 2)
  {
  }

  /** Exactly `n` checks are skipped after pass `i`, as far as the history goes. */
  ghost predicate Suspends(c: Config, ss: seq<State>, xs: seq<Reading>, i: nat, n: nat)
    requires |ss| == |xs| + 1
  {
    && (forall j :: i < j <= i + n && j < |xs| ==> At(c, ss, xs, j).Skipped?)
    && (i + n + 1 < |xs| ==> !At(c, ss, xs, i + n + 1).Skipped?)
  }

  /** How many checks a verdict suspends, given the direction it leaves and what the next pass reads. */
  function Suspension(v: Verdict, tune: int, next: Reading): nat {
    match v
    case Sufficient => 5
    case TooLow => 5
    case Suggested => 3
    case _ => if tune == BACK_TO_BEST && next.rate != 0.0 then 5 else 0
  }

  /** Over a whole run: after every pass that is not itself skipped, exactly so many checks
      are skipped as its verdict says, whatever is measured meanwhile. A decision to go
      back to the best suspends five, but none if no bitrate is seen at once. */
  lemma BackOffLengths(c: Config, ss: seq<State>, xs: seq<Reading>, i: nat)
    requires Behavior(c, ss, xs) && i + 1 < |xs| && !At(c, ss, xs, i).Skipped?
    ensures Suspends(c, ss, xs, i, Suspension(At(c, ss, xs, i), ss[i + 1].loop.tune, xs[i + 1]))
    ensures At(c, ss, xs, i).Reapplied? || At(c, ss, xs, i).ReappliedUnset? ==> ss[i + 1].loop.tune == BACK_TO_BEST
    ensures At(c, ss, xs, i).Explored? ==> ss[i + 1].loop.tune != BACK_TO_BEST
  {
    hide Next, VerdictOf, Exclusive;
    var v := At(c, ss, xs, i);
    ExclusiveThroughout(c, ss, xs, i);
    ExclusiveThroughout(c, ss, xs, i + 1);
    assert Moves(c, ss[i], xs[i], ss[i + 1]) && Moves(c, ss[i + 1], xs[i + 1], ss[i + 2]);
    VerdictSetsCounters(c, ss[i], xs[i]);
    NextKeepsExclusive(c, ss[i], xs[i]);
    if v.Sufficient? || v.TooLow? {
      IdleWait(c, ss, xs, i + 1, 1);
    } else if v.Suggested? {
      SuggestedWait(c, ss, xs, i + 1, 1);
    } else {
      ReadyStep(c, ss[i + 1], xs[i + 1]);
      if At(c, ss, xs, i + 1).Skipped? {
        IdleWait(c, ss, xs, i + 2, 2);
      }
    }
  }

  // ---------------------------------------------------------------- exploration

  /** `m + 1` explorations in a row from pass `i`, with no new highest bitrate after the first. */
  ghost predicate Fruitless(c: Config, ss: seq<State>, xs: seq<Reading>, i: nat, m: nat)
    requires |ss| == |xs| + 1 && i + m < |xs|
  {
    && (forall d :: i <= d <= i + m ==> At(c, ss, xs, d).Explored?)
    && (forall d :: i < d <= i + m ==> !NewHighest(ss[d], xs[d]))
  }

  lemma ExplorationStep(c: Config, s: State, x: Reading)
    requires Exclusive(c, s.loop) && VerdictOf(c, s, x).Explored?
    ensures Next(c, s, x).loop.applied && Next(c, s, x).loop.tune != BACK_TO_BEST
    ensures s.loop.applied && !NewHighest(s, x) ==>
              Next(c, s, x).loop.maxApply == s.loop.maxApply + 1 < MAX_APPLY
  {
  }

  /** At most ten explorations follow each other without a new highest bitrate. */
  lemma {:induction false} AtMostTenFruitless(c: Config, ss: seq<State>, xs: seq<Reading>, i: nat, m: nat)
    requires Behavior(c, ss, xs) && i + m < |xs| && Fruitless(c, ss, xs, i, m)
    ensures m + 1 <= 10
    ensures m <= ss[i + m + 1].loop.maxApply && ss[i + m + 1].loop.applied
    decreases m
  {
    hide Next, VerdictOf, NewHighest;
    ExclusiveThroughout(c, ss, xs, i + m);
    assert At(c, ss, xs, i + m).Explored?;
    assert Moves(c, ss[i + m], xs[i + m], ss[i + m + 1]);
    ExplorationStep(c, ss[i + m], xs[i + m]);
    if m > 0 {
      AtMostTenFruitless(c, ss, xs, i, m - 1);
    }
  }

  /** Within what a tuner that starts from `k` may set. */
  predicate InRange(c: Config, k: Wmem, w: Wmem) {
    && w.minimum == k.minimum && w.default == k.default
    && (k.maximum <= w.maximum || LOW_MARK - DELTA + 1 <= w.maximum)
    && (w.maximum <= k.maximum || w.maximum <= c.tuneMax + DELTA - 1)
  }

  predicate BuffersInRange(c: Config, k: Wmem, s: State) {
    && InRange(c, k, s.kernel)
    && (s.command.Holds? ==> InRange(c, k, s.command.w))
    && (s.best.Holds? ==> InRange(c, k, s.best.w))
  }

  lemma NextInRange(c: Config, k: Wmem, s: State, x: Reading)
    requires BuffersInRange(c, k, s) && !VerdictOf(c, s, x).ReappliedUnset?
    ensures BuffersInRange(c, k, Next(c, s, x))
  {
  }

  ghost predicate NeverUnset(c: Config, ss: seq<State>, xs: seq<Reading>, n: nat)
    requires |ss| == |xs| + 1 && n <= |xs|
  {
    forall i :: 0 <= i < n ==> !At(c, ss, xs, i).ReappliedUnset?
  }

  /** The maximum stays within [min(start, 400001), max(start, my_tune_max + 199999)], and the
      other two values stay as they were, as long as no unset command is re-applied. */
  lemma {:induction false} MaximumStaysInRange(c: Config, ss: seq<State>, xs: seq<Reading>, i: nat)
    requires Behavior(c, ss, xs) && i <= |xs| && NeverUnset(c, ss, xs, i)
    ensures BuffersInRange(c, ss[0].kernel, ss[i])
    ensures var k0, k := ss[0].kernel.maximum, ss[i].kernel.maximum;
            && (if k0 < 400001 then k0 else 400001) <= k <= (if k0 > c.tuneMax + 199999 then k0 else c.tuneMax + 199999)
            && ss[i].kernel.minimum == ss[0].kernel.minimum && ss[i].kernel.default == ss[0].kernel.default
  {
    hide Next, VerdictOf;
    if i > 0 {
      MaximumStaysInRange(c, ss, xs, i - 1);
      assert Moves(c, ss[i - 1], xs[i - 1], ss[i]);
      assert !At(c, ss, xs, i - 1).ReappliedUnset?;
      NextInRange(c, ss[0].kernel, ss[i - 1], xs[i - 1]);
    }
  }

  /** A history of at most as many passes with the same bitrates, whatever an unset command would do to the kernel. */
  ghost predicate Replays(c: Config, s: State, xs: seq<Reading>, ts: seq<State>, ys: seq<Reading>) {
    && Behavior(c, ts, ys) && ts[0] == s && |ys| <= |xs|
    && forall i :: 0 <= i < |ys| ==> ys[i].rate == xs[i].rate
  }

  lemma GarbageUnused(c: Config, s: State, x: Reading, y: Reading)
    requires x.rate == y.rate
    ensures VerdictOf(c, s, x) == VerdictOf(c, s, y)
    ensures !VerdictOf(c, s, x).ReappliedUnset? ==> Next(c, s, x) == Next(c, s, y)
  {
  }

  lemma {:induction false} ReplayIsSame(
    c: Config, ss: seq<State>, xs: seq<Reading>, ts: seq<State>, ys: seq<Reading>, i: nat)
    requires Behavior(c, ss, xs) && NeverUnset(c, ss, xs, |xs|)
    requires Replays(c, ss[0], xs, ts, ys) && i <= |ys|
    ensures ts[i] == ss[i]
  {
    if i > 0 {
      hide Next, VerdictOf;
      ReplayIsSame(c, ss, xs, ts, ys, i - 1);
      assert Moves(c, ss[i - 1], xs[i - 1], ss[i]) && Moves(c, ts[i - 1], ys[i - 1], ts[i]);
      assert !At(c, ss, xs, i - 1).ReappliedUnset?;
      GarbageUnused(c, ss[i - 1], xs[i - 1], ys[i - 1]);
    }
  }

  /** Where an unset command is run, it can take the setting out of its range. */
  lemma UnsetEscapes(c: Config, ss: seq<State>, xs: seq<Reading>, i: nat) returns (ts: seq<State>, ys: seq<Reading>)
    requires Behavior(c, ss, xs) && i < |xs| && At(c, ss, xs, i).ReappliedUnset?
    ensures Replays(c, ss[0], xs, ts, ys) && !InRange(c, ss[0].kernel, ts[|ys|].kernel)
  {
    var k := ss[0].kernel;
    var y := Reading(xs[i].rate, k.(maximum := k.maximum + c.tuneMax + DELTA));
    GarbageUnused(c, ss[i], xs[i], y);
    UnsetRuns(c, ss[i], y);
    hide Next, VerdictOf;
    ys, ts := xs[..i] + [y], ss[..i + 1] + [Next(c, ss[i], y)];
    forall m | 0 <= m < |ys| ensures Moves(c, ts[m], ys[m], ts[m + 1]) {
      if m < i {
        assert Moves(c, ss[m], xs[m], ss[m + 1]);
      }
    }
  }

  lemma UnsetRuns(c: Config, s: State, x: Reading)
    requires VerdictOf(c, s, x).ReappliedUnset?
    ensures Next(c, s, x).kernel == x.garbage
  {
  }

  /** The setting is sure to stay in its range exactly if no unset command is run. */
  lemma RangeExactly(c: Config, ss: seq<State>, xs: seq<Reading>)
    requires Behavior(c, ss, xs)
    ensures (forall ts: seq<State>, ys :: Replays(c, ss[0], xs, ts, ys) ==>
                InRange(c, ss[0].kernel, ts[|ys|].kernel))
            <==> NeverUnset(c, ss, xs, |xs|)
  {
    hide Next, VerdictOf, InRange;
    if NeverUnset(c, ss, xs, |xs|) {
      forall ts: seq<State>, ys | Replays(c, ss[0], xs, ts, ys) ensures InRange(c, ss[0].kernel, ts[|ys|].kernel) {
        ReplayIsSame(c, ss, xs, ts, ys, |ys|);
        MaximumStaysInRange(c, ss, xs, |ys|);
      }
    } else {
      var i :| 0 <= i < |xs| && At(c, ss, xs, i).ReappliedUnset?;
      var ts, ys := UnsetEscapes(c, ss, xs, i);
    }
  }

  /** An unset command is re-applied exactly when ten applications in a row have brought no new
      highest bitrate, none ever did before, and the check goes ahead in tuning mode. */
  lemma UnsetIff(c: Config, s: State, x: Reading)
    requires Exclusive(c, s.loop)
    ensures VerdictOf(c, s, x).ReappliedUnset? <==>
              && s.loop.applied && Streak(s, x) == MAX_APPLY && s.best.Unset?
              && 1.0 <= x.rate < c.good && s.kernel.maximum < c.tuneMax && Compared(s, x)
  {
  }

  /** A best value once recorded stays recorded, and then no unset command is applied. */
  lemma BestStepStaysSet(c: Config, s: State, x: Reading)
    requires Exclusive(c, s.loop) && (s.best.Holds? ==> s.command.Holds?)
    ensures Next(c, s, x).best.Holds? ==> Next(c, s, x).command.Holds?
    ensures s.best.Holds? ==> Next(c, s, x).best.Holds? && !VerdictOf(c, s, x).ReappliedUnset?
  {
  }

  lemma {:induction false} BestImpliesCommand(c: Config, ss: seq<State>, xs: seq<Reading>, i: nat)
    requires Behavior(c, ss, xs) && i <= |xs|
    ensures ss[i].best.Holds? ==> ss[i].command.Holds?
  {
    hide Next;
    if i > 0 {
      BestImpliesCommand(c, ss, xs, i - 1);
      ExclusiveThroughout(c, ss, xs, i - 1);
      assert Moves(c, ss[i - 1], xs[i - 1], ss[i]);
      BestStepStaysSet(c, ss[i - 1], xs[i - 1]);
    }
  }

  /** Once some applied setting has brought a new highest bitrate, no unset command is ever re-applied. */
  lemma {:induction false} NoUnsetAfterBest(c: Config, ss: seq<State>, xs: seq<Reading>, i: nat, j: nat)
    requires Behavior(c, ss, xs) && i <= j <= |xs| && ss[i].best.Holds? && NeverUnset(c, ss, xs, i)
    ensures ss[j].best.Holds? && NeverUnset(c, ss, xs, j)
    decreases j
  {
    hide Next, VerdictOf;
    if i < j {
      NoUnsetAfterBest(c, ss, xs, i, j - 1);
      BestImpliesCommand(c, ss, xs, j - 1);
      ExclusiveThroughout(c, ss, xs, j - 1);
      assert Moves(c, ss[j - 1], xs[j - 1], ss[j]);
      BestStepStaysSet(c, ss[j - 1], xs[j - 1]);
    }
  }

  const FAST_NIC := Config(true, 100_000_000, 30.0)

  /** `n` seconds of which only the first, with nothing applied yet, was good. */
  lemma {:induction false} LowRun(n: nat) returns (ss: seq<State>, xs: seq<Reading>)
    requires 1 <= n <= MAX_APPLY
    ensures Behavior(FAST_NIC, ss, xs) && |xs| == n
    ensures var s := ss[n];
            && s.loop.applied && s.loop.maxApply == n - 1 && s.loop.nothingDone == 0 && s.loop.suggested == 0
            && s.loop.tune != BACK_TO_BEST && s.highest == 5.0 && s.best.Unset?
            && 10_000_000 - n * DELTA <= s.kernel.maximum <= 10_000_000 + n * DELTA
  {
    var w := Wmem(4096, 65536, 10_000_000);
    if n == 1 {
      var s, x := State(Loop(UP, false, 0, 0, 0), 0.0, 0.0, Unset, Unset, w), Reading(5.0, w);
      ss, xs := [s, Next(FAST_NIC, s, x)], [x];
    } else {
      ss, xs := LowRun(n - 1);
      ss, xs := ss + [Next(FAST_NIC, ss[n - 1], Reading(4.0, w))], xs + [Reading(4.0, w)];
    }
  }

  /** It does happen before that: one good second and ten poorer ones
      re-apply a command nobody has written, and nothing bounds the setting any more. */
  lemma UnsetIsReached(garbage: Wmem) returns (ss: seq<State>, xs: seq<Reading>)
    ensures Behavior(FAST_NIC, ss, xs) && |xs| == 11
    ensures At(FAST_NIC, ss, xs, 10).ReappliedUnset? && ss[11].kernel == garbage
  {
    ss, xs := LowRun(10);
    var x := Reading(4.0, garbage);
    ss, xs := ss + [Next(FAST_NIC, ss[10], x)], xs + [x];
  }

  // ---------------------------------------------------------------- the best setting

  /** Pass `j` applied `w`, and the pass after it measured the highest bitrate of all passes compared so far. */
  ghost predicate Peak(c: Config, ss: seq<State>, xs: seq<Reading>, j: nat, w: Wmem)
    requires |ss| == |xs| + 1 && j + 1 < |xs|
  {
    && (At(c, ss, xs, j) == Explored(w) || At(c, ss, xs, j) == Reapplied(w))
    && NewHighest(ss[j + 1], xs[j + 1])
    && forall m :: 0 <= m <= j + 1 && Compared(ss[m], xs[m]) ==> xs[m].rate <= xs[j + 1].rate
  }

  lemma {:induction false} HighestDominates(c: Config, ss: seq<State>, xs: seq<Reading>, i: nat)
    requires Behavior(c, ss, xs) && i <= |xs|
    ensures forall m :: 0 <= m < i && Compared(ss[m], xs[m]) ==> xs[m].rate <= ss[i].highest
  {
    if i > 0 {
      HighestDominates(c, ss, xs, i - 1);
      assert Moves(c, ss[i - 1], xs[i - 1], ss[i]);
    }
  }

  /** The highest bitrate is zero, or one that was compared. */
  lemma {:induction false} HighestIsAttained(c: Config, ss: seq<State>, xs: seq<Reading>, i: nat)
    requires Behavior(c, ss, xs) && i <= |xs|
    ensures ss[i].highest == 0.0
            || exists m :: 0 <= m < i && Compared(ss[m], xs[m]) && xs[m].rate == ss[i].highest
  {
    if i > 0 {
      hide VerdictOf, Compared;
      HighestIsAttained(c, ss, xs, i - 1);
      assert Moves(c, ss[i - 1], xs[i - 1], ss[i]);
    }
  }

  /** A bitrate is a new highest exactly if it is compared and none compared before it was higher. */
  lemma NewHighestMeans(c: Config, ss: seq<State>, xs: seq<Reading>, i: nat)
    requires Behavior(c, ss, xs) && i < |xs|
    ensures NewHighest(ss[i], xs[i]) <==>
            && Compared(ss[i], xs[i])
            && forall m :: 0 <= m < i && Compared(ss[m], xs[m]) ==> xs[m].rate <= xs[i].rate
  {
    hide Compared;
    HighestDominates(c, ss, xs, i);
    HighestIsAttained(c, ss, xs, i);
  }

  /** The bitrate compared last before pass `i`; zero before the first. */
  ghost function LastRate(ss: seq<State>, xs: seq<Reading>, i: nat): Bitrate
    requires i <= |xs| <= |ss|
  {
    if i == 0 then 0.0 else if Compared(ss[i - 1], xs[i - 1]) then xs[i - 1].rate else LastRate(ss, xs, i - 1)
  }

  lemma JudgeRate(c: Config, s: State, x: Reading)
    ensures Next(c, s, x).previous == if Compared(s, x) then x.rate else s.previous
  {
    hide CountDown, VerdictOf, Streak;
  }

  lemma {:induction false} PreviousIsLast(c: Config, ss: seq<State>, xs: seq<Reading>, i: nat)
    requires Behavior(c, ss, xs) && i <= |xs|
    ensures ss[i].previous == LastRate(ss, xs, i)
  {
    if i > 0 {
      hide Next, Compared;
      PreviousIsLast(c, ss, xs, i - 1);
      assert Moves(c, ss[i - 1], xs[i - 1], ss[i]);
      JudgeRate(c, ss[i - 1], xs[i - 1]);
    }
  }

  lemma ExploredMeans(c: Config, s: State, x: Reading)
    requires Exclusive(c, s.loop) && VerdictOf(c, s, x).Explored?
    ensures var w, up := VerdictOf(c, s, x).w, s.previous < s.highest || s.previous < x.rate;
            && Compared(s, x) && Next(c, s, x).kernel == w
            && w == s.kernel.(maximum := w.maximum)
            && w.maximum == if up then s.kernel.maximum + 200000 else s.kernel.maximum - 200000
  {
  }

  /** Over a whole run: an exploration raises the maximum by 200000 exactly if some bitrate compared so far,
      the one just measured included, beats the one compared last before; otherwise it lowers it by as much. */
  lemma ExplorationDirection(c: Config, ss: seq<State>, xs: seq<Reading>, i: nat)
    requires Behavior(c, ss, xs) && i < |xs| && At(c, ss, xs, i).Explored?
    ensures var up, k := Rising(ss, xs, i), ss[i].kernel;
            && ss[i + 1].kernel == k.(maximum := ss[i + 1].kernel.maximum)
            && ss[i + 1].kernel.maximum == if up then k.maximum + 200000 else k.maximum - 200000
  {
    hide Next, VerdictOf, Compared, Exclusive, LastRate;
    ExclusiveThroughout(c, ss, xs, i);
    assert Moves(c, ss[i], xs[i], ss[i + 1]);
    ExploredMeans(c, ss[i], xs[i]);
    PreviousIsLast(c, ss, xs, i);
    HighestDominates(c, ss, xs, i);
    HighestIsAttained(c, ss, xs, i);
  }

  /** Some bitrate compared up to pass `i` beats the one compared last before it. */
  ghost predicate Rising(ss: seq<State>, xs: seq<Reading>, i: nat)
    requires i < |xs| <= |ss|
  {
    exists m :: 0 <= m <= i && Compared(ss[m], xs[m]) && LastRate(ss, xs, i) < xs[m].rate
  }

  lemma VerdictMeans(c: Config, s: State, x: Reading)
    requires Exclusive(c, s.loop) && !VerdictOf(c, s, x).Skipped?
    ensures Compared(s, x)
    ensures var due, room := 1.0 <= x.rate < c.good && c.tuneMax > 0, s.kernel.maximum < c.tuneMax;
            var up, back := s.previous < s.highest || s.previous < x.rate, Streak(s, x) == 10;
            match VerdictOf(c, s, x)
            case Unchecked => !due
            case Sufficient => due && !room
            case Suggested => due && room && !c.tuning
            case Explored(_) => due && room && c.tuning && !back && (up || s.kernel.maximum > 600000)
            case TooLow => due && room && c.tuning && !back && !up && s.kernel.maximum <= 600000
            case Reapplied(w) => due && room && c.tuning && back && Next(c, s, x).best == Holds(w)
            case ReappliedUnset => due && room && c.tuning && back && Next(c, s, x).best.Unset?
            case _ => false
    ensures match VerdictOf(c, s, x)
            case Explored(w) => Next(c, s, x).kernel == w
            case Reapplied(w) => Next(c, s, x).kernel == w
            case ReappliedUnset => true
            case _ => Next(c, s, x).kernel == s.kernel
  {
  }

  /** Over a whole run: which verdict a pass that is not skipped comes to. No check below 1 Gb/s or from the good
      bitrate on; else "sufficient" from `my_tune_max` on; below it a suggestion in learning mode, and in tuning mode a
      re-application after ten fruitless ones, an exploration upwards while bitrates are rising, and otherwise one
      downwards, unless the maximum is 600000 or less already. Only applications change the setting. */
  lemma VerdictExactly(c: Config, ss: seq<State>, xs: seq<Reading>, i: nat)
    requires Behavior(c, ss, xs) && i < |xs| && !At(c, ss, xs, i).Skipped?
    ensures var k, rate, v := ss[i].kernel.maximum, xs[i].rate, At(c, ss, xs, i);
            var due, back, up := 1.0 <= rate < c.good && c.tuneMax > 0, Streak(ss[i], xs[i]) == 10, Rising(ss, xs, i);
            && (v.Unchecked? <==> !due)
            && (v.Sufficient? <==> due && c.tuneMax <= k)
            && (v.Suggested? <==> due && k < c.tuneMax && !c.tuning)
            && (v.Reapplied? || v.ReappliedUnset? <==> due && k < c.tuneMax && c.tuning && back)
            && (v.Explored? <==> due && k < c.tuneMax && c.tuning && !back && (up || k > 600000))
            && (v.TooLow? <==> due && k < c.tuneMax && c.tuning && !back && !up && k <= 600000)
            && (ss[i + 1].kernel != ss[i].kernel ==> v.Explored? || v.Reapplied? || v.ReappliedUnset?)
  {
    hide Next, VerdictOf, Compared, Exclusive, LastRate, Streak;
    ExclusiveThroughout(c, ss, xs, i);
    assert Moves(c, ss[i], xs[i], ss[i + 1]);
    VerdictMeans(c, ss[i], xs[i]);
    PreviousIsLast(c, ss, xs, i);
    HighestDominates(c, ss, xs, i);
    HighestIsAttained(c, ss, xs, i);
  }

  /** What the state says about the last application. */
  lemma AppliedMeans(c: Config, s: State, x: Reading)
    requires Exclusive(c, s.loop)
    ensures var t, v := Next(c, s, x), VerdictOf(c, s, x);
            && (t.loop.applied <==> v.Explored? || v.Reapplied? || v.ReappliedUnset?)
            && (v.Explored? || v.Reapplied? ==> t.command == Holds(v.w) && t.kernel == v.w)
            && (v.ReappliedUnset? ==> t.command.Unset?)
            && (v.Reapplied? ==> t.best == Holds(v.w))
  {
  }

  lemma JudgeBest(c: Config, s: State, x: Reading)
    ensures Next(c, s, x).best == if NewHighest(s, x) && s.loop.applied then s.command else s.best
    ensures NewHighest(s, x) ==> Next(c, s, x).highest == x.rate
  {
  }

  /** The recorded best value was applied, measured as a peak, and no later application has equalled that peak. */
  lemma {:induction false} BestIsPeak(c: Config, ss: seq<State>, xs: seq<Reading>, i: nat) returns (j: nat)
    requires Behavior(c, ss, xs) && i <= |xs| && ss[i].best.Holds?
    ensures j + 1 < i && Peak(c, ss, xs, j, ss[i].best.w)
    ensures forall m :: j + 1 < m < i && ss[m].loop.applied ==> !NewHighest(ss[m], xs[m])
  {
    hide Next, VerdictOf, NewHighest;
    var p := i - 1;
    var s := ss[p];
    assert Moves(c, s, xs[p], ss[i]);
    JudgeBest(c, s, xs[p]);
    if NewHighest(s, xs[p]) && s.loop.applied {
      assert Moves(c, ss[p - 1], xs[p - 1], s);
      ExclusiveThroughout(c, ss, xs, p - 1);
      AppliedMeans(c, ss[p - 1], xs[p - 1]);
      HighestDominates(c, ss, xs, i);
      j := p - 1;
    } else {
      j := BestIsPeak(c, ss, xs, p);
    }
  }

  /** A re-application brings back a setting that an earlier pass applied, the one whose
      effect was the highest bitrate, and that no later application has equalled. */
  lemma ReapplicationIsPeak(c: Config, ss: seq<State>, xs: seq<Reading>, i: nat) returns (j: nat)
    requires Behavior(c, ss, xs) && i < |xs| && At(c, ss, xs, i).Reapplied?
    ensures j + 1 <= i && Peak(c, ss, xs, j, At(c, ss, xs, i).w)
    ensures forall m :: j + 1 < m <= i && ss[m].loop.applied ==> !NewHighest(ss[m], xs[m])
    ensures ss[i + 1].kernel == At(c, ss, xs, i).w
  {
    hide Next, VerdictOf, NewHighest;
    ExclusiveThroughout(c, ss, xs, i);
    assert Moves(c, ss[i], xs[i], ss[i + 1]);
    AppliedMeans(c, ss[i], xs[i]);
    j := BestIsPeak(c, ss, xs, i + 1);
  }

  // ---------------------------------------------------------------- the loop

  /** The variables of `fDoRunGetThresholds` that the tuning uses; `kernel` is the setting itself. */
  class Tuner {
    const config: Config
    var tune: int
    var applied: bool
    var suggested: nat
    var nothingDone: nat
    var maxApply: nat
    var highest: Bitrate
    var previous: Bitrate
    var command: Buffer
    var best: Buffer
    var kernel: Wmem

    function View(): State
      reads this
    {
      State(Loop(tune, applied, suggested, nothingDone, maxApply), highest, previous, command, best, kernel)
    }

    constructor (config: Config, kernel: Wmem)
      ensures Initial(View()) && this.config == config && this.kernel == kernel
    {
      this.config, this.kernel := config, kernel;
      tune, applied, suggested, nothingDone, maxApply := 1, false, 0, 0, 0;
      highest, previous, command, best := 0.0, 0.0, Unset, Unset;
    }

    /** Comparison of the new bitrate, up to the back-off. */
    method Evaluate(x: Reading)
      modifies this
      ensures View() == Judge(old(View()), x)
    {
      if tune == 3 && x.rate != 0.0 {
        tune, applied, nothingDone := 0, false, 1;
      } else {
        if highest <= x.rate {
          highest := x.rate;
          if applied {
            best := command;
            maxApply := 0;
          }
        }
        tune := if previous < highest then 1 else 2;
        maxApply := if applied then maxApply + 1 else 0;
        if maxApply >= 10 {
          tune := 3;
          command := best;
          maxApply := 0;
        }
        previous := x.rate;
      }
    }

    /** `check_if_bitrate_too_low` */
    method CheckBitrate(x: Reading)
      requires !applied
      modifies this
      ensures View() == Act(old(View()), Check(config, old(View()), x), x)
    {
      if x.rate < 1.0 || x.rate >= config.good || config.tuneMax == 0 {
        return;
      }
      if config.tuneMax <= kernel.maximum {
        nothingDone := 1;
      } else if !config.tuning {
        suggested := 1;
      } else {
        if tune == 1 {
          command := Holds(kernel.(maximum := kernel.maximum + 200000));
        } else if tune == 2 {
          if kernel.maximum > 600000 {
            command := Holds(kernel.(maximum := kernel.maximum - 200000));
          } else {
            nothingDone := 1;
            return;
          }
        } else if tune != 3 {
          nothingDone := 1;
          return;
        }
        kernel := if command.Holds? then command.w else x.garbage;
        applied := true;
      }
    }

    /** One pass of the loop. */
    method Pass(x: Reading)
      modifies this
      ensures View() == Next(config, old(View()), x)
    {
      Evaluate(x);
      if suggested != 0 {
        if suggested > 3 {
          suggested := 0;
        } else {
          suggested := suggested + 1;
          return;
        }
      } else if applied {
        applied := false;
      } else if nothingDone != 0 {
        if nothingDone > 5 {
          nothingDone := 0;
        } else {
          nothingDone := nothingDone + 1;
          return;
        }
      }
      applied := false;
      CheckBitrate(x);
    }
  }
}
