/** One destination and one source: the destination's handlers, the ring and its sending
    thread, and the pacing record of a source that knows the destination and is in tuning mode. */
module EndToEnd {
  import opened Messages
  import opened MessageRing
  import D = Destination
  import P = Pacing

  /** `log` and `handled` record what the destination did and which messages the source has handled. */
  datatype System = System(
    dest: D.State, ring: Ring<Message>, source: P.State, log: seq<D.Action>, handled: seq<Message>)

  /** What the source measures when it handles a QINFO. */
  datatype Measured = Measured(bitrate: real, share: real, retransmission: real, limit: real)

  datatype Step =
    | AtDestination(e: D.Event)
    | ToSource(measured: Measured)
    | SourceIdle

  /** `process_request`: the handler a message selects. */
  function Handle(s: P.State, m: Message, x: Measured): P.State {
    match m
    case Start(_, _) => s
    case Qinfo(_, hopDelay, _, _) =>
      P.Next(s, P.QinfoMessage(true, true, hopDelay, x.bitrate, x.share, x.retransmission, x.limit))
    case Reset(_, _) => P.Next(s, P.ResetMessage(true, true))
    case Cleanup(_) => P.Next(s, P.CleanupMessage(true))
  }

  /** The messages among the actions of the destination. */
  function Sent(log: seq<D.Action>): seq<Message> {
    if log == [] then []
    else Sent(D.Front(log)) + if D.Last(log).Queue? then [D.Last(log).m] else []
  }

  /** A handler with a message to send blocks until the ring has a free slot, before it changes its flags. */
  predicate Enabled(s: System, step: Step) {
    match step
    case AtDestination(e) =>
      D.Enabled(s.dest, e) && Valid(s.ring) && (Sent(D.Effects(s.dest, e)) == [] || !Full(s.ring))
    case ToSource(_) => Valid(s.ring) && !Empty(s.ring)
    case SourceIdle => true
  }

  /** What a delivery hands to the source. */
  function Delivered(s: System): Message
    requires Valid(s.ring)
  {
    s.ring.slots[s.ring.first]
  }

  function Next(s: System, step: Step): System
    requires Enabled(s, step)
  {
    match step
    case AtDestination(e) =>
      var sent := Sent(D.Effects(s.dest, e));
      s.(dest := D.Next(s.dest, e), log := s.log + D.Effects(s.dest, e),
         ring := if sent == [] then s.ring else Put(s.ring, sent[0]))
    case ToSource(measured) =>
      var m := Delivered(s);
      s.(ring := Take(s.ring), source := Handle(s.source, m, measured), handled := s.handled + [m])
    case SourceIdle =>
      s.(source := P.Next(s.source, P.IdleLink(true)))
  }

  /** No event of the destination sends more than one message. */
  lemma OneMessage(s: D.State, e: D.Event)
    ensures |Sent(D.Effects(s, e))| <= 1
  {
    hide D.High;
    SentOf(D.Effects(s, e));
    hide Sent;
  }

  /** The messages among up to two actions. */
  lemma SentOf(acts: seq<D.Action>)
    requires |acts| <= 2
    ensures acts == [] ==> Sent(acts) == []
    ensures |acts| == 1 ==> Sent(acts) == if acts[0].Queue? then [acts[0].m] else []
    ensures |acts| == 2 ==>
              Sent(acts) == (if acts[0].Queue? then [acts[0].m] else []) + if acts[1].Queue? then [acts[1].m] else []
  {
    if |acts| > 0 {
      SentOf(D.Front(acts));
    }
  }

  predicate Initial(s: System) {
    && D.Initial(s.dest) && !s.dest.settings.useKafka
    && Valid(s.ring) && Empty(s.ring)
    && P.Initial(s.source) && s.log == [] && s.handled == []
  }

  predicate Moves(s: System, step: Step, t: System) {
    Enabled(s, step) && t == Next(s, step)
  }

  ghost predicate Behavior(ss: seq<System>, steps: seq<Step>) {
    && |ss| == |steps| + 1
    && Initial(ss[0])
    && forall i :: 0 <= i < |steps| ==> Moves(ss[i], steps[i], ss[i + 1])
  }

  /** The last message that acts on pacing; `Start` where there is none. */
  function LastControl(ms: seq<Message>): Message {
    if ms == [] then Start(0, 0)
    else if ms[|ms| - 1].Control() then ms[|ms| - 1]
    else LastControl(ms[..|ms| - 1])
  }

  /** What the messages handled so far leave the record with. */
  predicate Settled(s: P.State, last: Message) {
    && (last.Start? || last.Cleanup? ==> s.record.flag == 0)
    && (last.Reset? ==> s.record.flag != P.REGULAR)
  }

  predicate Inv(s: System) {
    && !s.dest.settings.useKafka
    && D.FlagsTell(s.dest, s.log)
    && Valid(s.ring)
    && Sent(s.log) == s.handled + Contents(s.ring)
    && P.Consistent(s.source)
    && Settled(s.source, LastControl(s.handled))
  }

  lemma {:induction false} SentAppends(a: seq<D.Action>, b: seq<D.Action>)
    ensures Sent(a + b) == Sent(a) + Sent(b)
    decreases |b|
  {
    if b == [] {
      assert a + b == a;
    } else {
      assert D.Front(a + b) == a + D.Front(b) && D.Last(a + b) == D.Last(b);
      SentAppends(a, D.Front(b));
      hide D.Front, D.Last;
    }
  }

  lemma HandleSettles(s: P.State, m: Message, x: Measured, before: seq<Message>)
    requires P.Consistent(s) && Settled(s, LastControl(before))
    ensures P.Consistent(Handle(s, m, x)) && Settled(Handle(s, m, x), LastControl(before + [m]))
  {
    LastControlAppends(before, m);
    match m
    case Start(_, _) =>
    case Qinfo(_, hopDelay, _, _) =>
      P.NextKeepsConsistent(s, P.QinfoMessage(true, true, hopDelay, x.bitrate, x.share, x.retransmission, x.limit));
    case Reset(_, _) => P.NextKeepsConsistent(s, P.ResetMessage(true, true));
    case Cleanup(_) => P.NextKeepsConsistent(s, P.CleanupMessage(true));
  }

  lemma IdleSettles(s: P.State, last: Message)
    requires P.Consistent(s) && Settled(s, last)
    ensures P.Consistent(P.Next(s, P.IdleLink(true))) && Settled(P.Next(s, P.IdleLink(true)), last)
  {
    P.NextKeepsConsistent(s, P.IdleLink(true));
  }

  lemma DestinationKeepsInv(s: System, e: D.Event)
    requires Inv(s) && Enabled(s, AtDestination(e))
    ensures Inv(Next(s, AtDestination(e)))
  {
    hide D.Next, D.Effects, D.Enabled, D.FlagsTell, P.Consistent, Settled, LastControl, Contents, Put, Full, Sent;
    var sent := Sent(D.Effects(s.dest, e));
    D.StepKeepsFlags(s.dest, e, s.log);
    D.KafkaIsFixed(s.dest, e);
    SentAppends(s.log, D.Effects(s.dest, e));
    OneMessage(s.dest, e);
    if sent != [] {
      PutAppends(s.ring, sent[0]);
      assert sent == [sent[0]];
      assert s.handled + Contents(s.ring) + [sent[0]] == s.handled + (Contents(s.ring) + [sent[0]]);
    }
  }

  lemma DeliveryKeepsInv(s: System, x: Measured)
    requires Inv(s) && Enabled(s, ToSource(x))
    ensures Inv(Next(s, ToSource(x)))
  {
    hide D.FlagsTell, P.Consistent, Settled, Handle, Take, Contents, Sent, LastControl;
    var m, t := Delivered(s), Next(s, ToSource(x));
    TakeRemovesOldest(s.ring);
    HandleSettles(s.source, m, x, s.handled);
    assert t.handled + Contents(t.ring) == s.handled + ([m] + Contents(t.ring));
  }

  lemma NextKeepsInv(s: System, step: Step)
    requires Inv(s) && Enabled(s, step)
    ensures Inv(Next(s, step))
  {
    match step {
      case AtDestination(e) => DestinationKeepsInv(s, e);
      case ToSource(measured) => DeliveryKeepsInv(s, measured);
      case SourceIdle =>
        hide D.FlagsTell, P.Next, P.Consistent, Settled, Contents;
        IdleSettles(s.source, LastControl(s.handled));
    }
  }

  lemma {:induction false} InvThroughout(ss: seq<System>, steps: seq<Step>, i: nat)
    requires Behavior(ss, steps) && i <= |steps|
    ensures Inv(ss[i])
  {
    hide Next, Inv, Initial;
    if i == 0 {
      InitiallyInv(ss[0]);
    } else {
      InvThroughout(ss, steps, i - 1);
      assert Moves(ss[i - 1], steps[i - 1], ss[i]);
      NextKeepsInv(ss[i - 1], steps[i - 1]);
    }
  }

  lemma InitiallyInv(s: System)
    requires Initial(s)
    ensures Inv(s)
  {
    IndexTests(s.ring);
  }

  /** The last thing the destination did about pacing was to queue a QINFO
      without managing to start the evaluation timer. */
  predicate StartFailed(log: seq<D.Action>) {
    && log != []
    && D.Last(log) != D.WindowOpens(true) && !D.IsAnswer(D.Last(log))
    && (D.IsQinfo(D.Last(log)) || StartFailed(D.Front(log)))
  }

  lemma LastControlAppends(ms: seq<Message>, m: Message)
    ensures LastControl(ms + [m]) == if m.Control() then m else LastControl(ms)
  {
    assert (ms + [m])[..|ms|] == ms;
  }

  /** The last control message sent is a QINFO exactly if it is unanswered or opened no window. */
  lemma {:induction false} LastIsQinfo(log: seq<D.Action>)
    requires D.Ordered(log)
    ensures LastControl(Sent(log)).Qinfo? <==> D.Unanswered(log) || StartFailed(log)
  {
    if log != [] {
      var last, before := D.Last(log), Sent(D.Front(log));
      if last.Queue? {
        LastControlAppends(before, last.m);
      } else {
        assert Sent(log) == before;
      }
      hide LastControl;
      LastIsQinfo(D.Front(log));
    }
  }

  lemma {:induction false} LastAfterAll(a: seq<Message>, b: seq<Message>)
    requires LastControl(a).Qinfo? && forall m :: m in b ==> !m.Answer()
    ensures LastControl(a + b).Qinfo?
    decreases |b|
  {
    if b == [] {
      assert a + b == a;
    } else {
      var front := b[..|b| - 1];
      LastAfterAll(a, front);
      assert (a + b)[..|a + b| - 1] == a + front;
      assert b[|b| - 1] in b;
    }
  }

  /** In every state of every run: while the source's record says REGULAR, the destination still owes a RESET or
      CLEANUP, or has one under way, or could not start the evaluation timer of its last QINFO. */
  lemma RegularIsTemporary(ss: seq<System>, steps: seq<Step>, i: nat)
    requires Behavior(ss, steps) && i <= |steps|
    requires ss[i].source.record.flag == P.REGULAR
    ensures Valid(ss[i].ring)
    ensures ss[i].dest.sentPacing
            || (exists m :: m in Contents(ss[i].ring) && m.Answer())
            || StartFailed(ss[i].log)
  {
    InvThroughout(ss, steps, i);
    var s := ss[i];
    if !s.dest.sentPacing && !(exists m :: m in Contents(s.ring) && m.Answer()) {
      LastAfterAll(s.handled, Contents(s.ring));
      LastIsQinfo(s.log);
    }
  }

  /** Every message is delivered and no congestion is outstanding. */
  predicate Finished(s: System) {
    Empty(s.ring) && !s.dest.sentPacing
  }

  /** Then the source is not held to any rate, unless the last evaluation timer failed to start. Once all messages
      are delivered and the last was a CLEANUP, record and discipline are the initial ones. */
  lemma UnpacedOnceAnswered(ss: seq<System>, steps: seq<Step>, i: nat)
    requires Behavior(ss, steps) && i <= |steps|
    ensures Finished(ss[i]) && !StartFailed(ss[i].log) ==>
              && ss[i].source.record.flag in {0, P.NOPACING} && !ss[i].source.qdisc.FqRate?
    ensures Empty(ss[i].ring) && LastControl(Sent(ss[i].log)).Cleanup? ==> P.Initial(ss[i].source)
  {
    InvThroughout(ss, steps, i);
    IndexTests(ss[i].ring);
    assert ss[i].handled + [] == ss[i].handled;
    if ss[i].source.record.flag == P.REGULAR {
      RegularIsTemporary(ss, steps, i);
    }
  }

  // ---------------------------------------------------------------- what is owed

  /** If the last control message sent was a QINFO, the destination knows that an answer is due. */
  predicate Owed(s: System) {
    LastControl(Sent(s.log)).Qinfo? ==> s.dest.sentPacing
  }

  /** A timer fires, its QINFO is queued with nothing outstanding, and `timer_settime` fails. */
  predicate Forgets(s: System, step: Step) {
    && step.AtDestination?
    && (step.e.HopTimer? || step.e.OccTimer?)
    && s.dest.canStart && !step.e.started && !s.dest.sentPacing
  }

  lemma LastControlOfStep(s: D.State, e: D.Event, log: seq<D.Action>)
    ensures var sent := Sent(D.Effects(s, e));
            && (sent == [] ==> Sent(log + D.Effects(s, e)) == Sent(log))
            && (sent != [] ==>
                  LastControl(Sent(log + D.Effects(s, e))) ==
                  if sent[0].Control() then sent[0] else LastControl(Sent(log)))
  {
    OneMessage(s, e);
    var sent := Sent(D.Effects(s, e));
    SentAppends(log, D.Effects(s, e));
    hide D.Effects, Sent;
    if sent != [] {
      assert sent == [sent[0]];
      LastControlAppends(Sent(log), sent[0]);
    }
  }

  /** Every step of the system keeps answers owed, except exactly a QINFO that goes out and is forgotten. */
  lemma StepKeepsOwed(s: System, step: Step)
    requires Inv(s) && Owed(s) && Enabled(s, step)
    ensures Owed(Next(s, step)) <==> !Forgets(s, step)
  {
    if step.AtDestination? {
      hide D.FlagsTell, P.Consistent, Settled, Contents, LastControl;
      LastControlOfStep(s.dest, step.e, s.log);
      SentByStep(s.dest, step.e);
    }
  }

  /** What a step sends, and what it does to `vSentPacingOver`. */
  lemma SentByStep(s: D.State, e: D.Event)
    requires D.Enabled(s, e) && !s.settings.useKafka
    ensures var sent, t := Sent(D.Effects(s, e)), D.Next(s, e);
            && (sent != [] && sent[0].Qinfo? ==> (e.HopTimer? || e.OccTimer?) && s.canStart)
            && ((e.HopTimer? || e.OccTimer?) && s.canStart ==> sent != [] && sent[0].Qinfo?)
            && ((e.HopTimer? || e.OccTimer?) && s.canStart ==> t.sentPacing == (s.sentPacing || e.started))
            && (s.sentPacing && !t.sentPacing ==> sent != [] && sent[0].Answer())
  {
    hide D.High, D.Latency, D.Occupancy;
    SentOf(D.Effects(s, e));
    hide Sent;
  }

  ghost predicate NoneForgotten(ss: seq<System>, steps: seq<Step>, n: nat)
    requires n <= |steps| <= |ss|
  {
    forall i :: 0 <= i < n ==> !Forgets(ss[i], steps[i])
  }

  /** Over a whole run: an answer is owed for the last QINFO in every state exactly if no QINFO is forgotten. */
  lemma {:induction false} OwedThroughout(ss: seq<System>, steps: seq<Step>, n: nat)
    requires Behavior(ss, steps) && n <= |steps|
    ensures (forall i :: 0 <= i <= n ==> Owed(ss[i])) <==> NoneForgotten(ss, steps, n)
  {
    hide Next, Inv, Forgets;
    if n > 0 {
      OwedThroughout(ss, steps, n - 1);
      InvThroughout(ss, steps, n - 1);
      assert Moves(ss[n - 1], steps[n - 1], ss[n]);
      if Owed(ss[n - 1]) {
        StepKeepsOwed(ss[n - 1], steps[n - 1]);
      }
    }
  }

  // ---------------------------------------------------------------- when a source can be stranded

  /** The source's own link has been idle since it last handled a QINFO. */
  ghost predicate IdleSince(ss: seq<System>, steps: seq<Step>, n: nat)
    requires Behavior(ss, steps) && n <= |steps|
  {
    && n > 0
    && (steps[n - 1].SourceIdle?
        || (IdleSince(ss, steps, n - 1) && !DeliversQinfo(ss[n - 1], steps[n - 1])))
  }

  predicate DeliversQinfo(s: System, step: Step) {
    step.ToSource? && Valid(s.ring) && Delivered(s).Qinfo?
  }

  /** The same steps, whatever the source measures. */
  predicate SameButMeasured(a: seq<Step>, b: seq<Step>) {
    |a| == |b| && forall i :: 0 <= i < |a| ==> a[i] == b[i] || (a[i].ToSource? && b[i].ToSource?)
  }

  /** Everything but the source. */
  predicate Alike(s: System, t: System) {
    s.dest == t.dest && s.ring == t.ring && s.log == t.log && s.handled == t.handled
  }

  lemma StepsAlike(s: System, t: System, a: Step, b: Step)
    requires Alike(s, t) && Enabled(s, a) && (a == b || (a.ToSource? && b.ToSource?))
    ensures Enabled(t, b) && Alike(Next(s, a), Next(t, b))
  {
  }

  lemma {:induction false} RunsAlike(
    ss: seq<System>, steps: seq<Step>, ts: seq<System>, others: seq<Step>, n: nat)
    requires Behavior(ss, steps) && Behavior(ts, others) && ss[0] == ts[0]
    requires SameButMeasured(steps, others) && n <= |steps|
    ensures Alike(ss[n], ts[n]) && IdleSince(ss, steps, n) == IdleSince(ts, others, n)
  {
    if n > 0 {
      hide Next, Enabled, Initial;
      RunsAlike(ss, steps, ts, others, n - 1);
      assert Moves(ss[n - 1], steps[n - 1], ss[n]) && Moves(ts[n - 1], others[n - 1], ts[n]);
      StepsAlike(ss[n - 1], ts[n - 1], steps[n - 1], others[n - 1]);
    }
  }

  /** Once the source has been idle, its record stays clear until the next QINFO. */
  lemma {:induction false} IdleIsClear(ss: seq<System>, steps: seq<Step>, n: nat)
    requires Behavior(ss, steps) && n <= |steps| && IdleSince(ss, steps, n)
    ensures ss[n].source.record.flag == 0
  {
    hide D.Next, D.Effects, Take, Put;
    assert Moves(ss[n - 1], steps[n - 1], ss[n]);
    if !steps[n - 1].SourceIdle? {
      IdleIsClear(ss, steps, n - 1);
    }
  }

  /** A bitrate at which every QINFO is acted on and asks for a rate. */
  const CONGESTED := Measured(10.0, 0.9, 1.0, 0.0)

  lemma CongestedPaces(s: P.State, m: Message)
    requires P.Consistent(s) && m.Qinfo?
    ensures Handle(s, m, CONGESTED).record.flag == P.REGULAR
  {
  }

  function WithCongestion(steps: seq<Step>): (r: seq<Step>)
    ensures SameButMeasured(steps, r)
    ensures forall i :: 0 <= i < |r| && r[i].ToSource? ==> r[i].measured == CONGESTED
  {
    seq(|steps|, i requires 0 <= i < |steps| => if steps[i].ToSource? then ToSource(CONGESTED) else steps[i])
  }

  lemma CongestedStep(t: System, b: Step, idle: bool)
    requires P.Consistent(t.source) && Enabled(t, b) && (b.ToSource? ==> b.measured == CONGESTED)
    requires LastControl(t.handled).Qinfo? && !idle ==> t.source.record.flag == P.REGULAR
    ensures var u := Next(t, b);
            LastControl(u.handled).Qinfo? && !b.SourceIdle? && (!idle || DeliversQinfo(t, b))
            ==> u.source.record.flag == P.REGULAR
  {
    hide D.Next, D.Effects, Take, Put, Sent, P.Consistent;
    if b.ToSource? {
      LastControlAppends(t.handled, Delivered(t));
      if Delivered(t).Qinfo? {
        CongestedPaces(t.source, Delivered(t));
      }
      hide LastControl;
    }
  }

  lemma BehaviorPlus(ts: seq<System>, steps: seq<Step>, b: Step)
    requires Behavior(ts, steps) && Enabled(ts[|steps|], b)
    ensures Behavior(ts + [Next(ts[|steps|], b)], steps + [b])
  {
    hide Next, Enabled, Initial;
    var us, bs := ts + [Next(ts[|steps|], b)], steps + [b];
    forall i | 0 <= i < |bs| ensures Moves(us[i], bs[i], us[i + 1]) {
      if i < |steps| {
        assert Moves(ts[i], steps[i], ts[i + 1]);
      }
    }
  }

  /** The same run with the source congested at every QINFO: where
      a QINFO came last and no idle link since, the record says REGULAR. */
  lemma {:induction false} CongestedRun(ss: seq<System>, steps: seq<Step>, n: nat) returns (ts: seq<System>)
    requires Behavior(ss, steps) && n <= |steps|
    ensures Behavior(ts, WithCongestion(steps)[..n]) && ts[0] == ss[0] && Alike(ss[n], ts[n])
    ensures LastControl(ss[n].handled).Qinfo? && !IdleSince(ss, steps, n) ==> ts[n].source.record.flag == P.REGULAR
  {
    hide Next, Enabled, Initial, LastControl, P.Consistent, WithCongestion;
    var others := WithCongestion(steps);
    if n == 0 {
      ts := [ss[0]];
      NothingHandled(ss[0]);
    } else {
      ts := CongestedRun(ss, steps, n - 1);
      var s, t, a, b := ss[n - 1], ts[n - 1], steps[n - 1], others[n - 1];
      assert Moves(s, a, ss[n]);
      StepsAlike(s, t, a, b);
      InvThroughout(ts, others[..n - 1], n - 1);
      CongestedStep(t, b, IdleSince(ss, steps, n - 1));
      BehaviorPlus(ts, others[..n - 1], b);
      assert others[..n] == others[..n - 1] + [b];
      ts := ts + [Next(t, b)];
    }
  }

  lemma NothingHandled(s: System)
    requires Initial(s)
    ensures LastControl(s.handled).Start?
  {
  }

  /** Some choice of what the source measures makes the same run end with a record that says REGULAR. */
  ghost predicate CanBeRegular(ss: seq<System>, steps: seq<Step>)
    requires Behavior(ss, steps)
  {
    exists ts, others :: RegularRun(ss[0], steps, ts, others)
  }

  ghost predicate RegularRun(s: System, steps: seq<Step>, ts: seq<System>, others: seq<Step>) {
    && Behavior(ts, others) && ts[0] == s && SameButMeasured(steps, others)
    && ts[|others|].source.record.flag == P.REGULAR
  }

  /** After any run the source's record can say REGULAR exactly if the last control message
      it handled was a QINFO and its link has not been idle since. */
  lemma RegularExactly(ss: seq<System>, steps: seq<Step>)
    requires Behavior(ss, steps)
    ensures CanBeRegular(ss, steps) <==>
            LastControl(ss[|steps|].handled).Qinfo? && !IdleSince(ss, steps, |steps|)
  {
    hide Next, Enabled, Initial, LastControl, P.Consistent, IdleSince;
    var n := |steps|;
    var ts := CongestedRun(ss, steps, n);
    assert WithCongestion(steps)[..n] == WithCongestion(steps);
    if LastControl(ss[n].handled).Qinfo? && !IdleSince(ss, steps, n) {
      assert RegularRun(ss[0], steps, ts, WithCongestion(steps));
    }
    if CanBeRegular(ss, steps) {
      var us, others :| RegularRun(ss[0], steps, us, others);
      RunsAlike(ss, steps, us, others, n);
      InvThroughout(us, others, n);
      if IdleSince(us, others, n) {
        IdleIsClear(us, others, n);
      }
    }
  }

  /** A finished run guarantees an unpaced source, whatever this measures, unless exactly
      the last timer start failed and the source's link has not been idle since. */
  lemma StrandedExactly(ss: seq<System>, steps: seq<Step>)
    requires Behavior(ss, steps) && Finished(ss[|steps|])
    ensures CanBeRegular(ss, steps) <==> StartFailed(ss[|steps|].log) && !IdleSince(ss, steps, |steps|)
  {
    hide Next, Enabled, Initial, LastControl, P.Consistent, StartFailed, IdleSince, Settled, CanBeRegular;
    var s := ss[|steps|];
    InvThroughout(ss, steps, |steps|);
    IndexTests(s.ring);
    assert s.handled + [] == s.handled;
    LastIsQinfo(s.log);
    RegularExactly(ss, steps);
  }

  /** It does happen: a run whose timer start fails, and whose source stays REGULAR with everything delivered and
      the destination believing that nothing is outstanding. */
  lemma FailedStartStrandsPacing(s: System, high: D.Hop) returns (ss: seq<System>, steps: seq<Step>)
    requires Initial(s) && D.BothHigh(s.dest, high)
    ensures Behavior(ss, steps) && ss[0] == s
    ensures Finished(ss[|steps|]) && ss[|steps|].source == P.State(P.Record(P.REGULAR, 9.0), P.FqRate(9.0))
  {
    var s0, s1 := AtDestination(D.Sample(high, 1, 2, true)), AtDestination(D.HopTimer(false));
    var s2 := ToSource(CONGESTED);
    SentOf(D.Effects(s.dest, s0.e));
    var t1 := Next(s, s0);
    SentOf(D.Effects(t1.dest, s1.e));
    var t2 := Next(t1, s1);
    hide Sent, D.Latency, D.Occupancy;
    var t3 := Next(t2, s2);
    ss, steps := [s, t1, t2, t3], [s0, s1, s2];
    assert Moves(ss[0], s0, ss[1]) && Moves(ss[1], s1, ss[2]) && Moves(ss[2], s2, ss[3]);
  }
}
