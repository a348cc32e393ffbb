/** The destination side of the congestion protocol: telemetry samples arm or
    cancel a debounce timer, its expiry queues a QINFO and opens an evaluation
    window, and a calm sample or an idle link later queues RESET or CLEANUP. */
module Destination {
  import opened Words
  import opened Messages

  /** What the debounce timer will report: `sqOCC_TimerID_Data`. */
  datatype TimerData = TimerData(src: Ipv4, dst: Ipv4, qinfo: Word, hopDelay: Word)

  /** Which of the one-shot POSIX timers run: hop, occupancy, evaluation. */
  datatype Timers = Timers(hop: bool, occ: bool, eval: bool)

  /** What an operator may change; `useKafka` is chosen at start-up. */
  datatype Settings = Settings(useRetransmission: bool, useKafka: bool, occupancyDelta: Word, latencyDelta: Word)

  /** `vq_TimerIsSet`, `vCanStartEvaluationTimer`, `vSentPacingOver`, `vTwiceInaRow`, and what the handlers read. */
  datatype State = State(
    timerIsSet: bool, canStart: bool, sentPacing: bool, twiceInRow: bool,
    timers: Timers, data: TimerData, lastSrc: Ipv4, settings: Settings)

  /** One hop of an INT report, its words in host byte order. */
  datatype Hop = Hop(queueInfo: Word, ingress: Word, egress: Word)

  /** `armed` and `started` say whether `timer_settime` succeeded for the debounce and the evaluation timer.
      `NewPeer` is the end of the pass over a sample whose sender the peer table did not know;
      `KafkaAdjusts` is the Kafka consumer, which opens a window of its own once it has adjusted the pacing. */
  datatype Event =
    | Sample(hop: Hop, src: Ipv4, dst: Ipv4, armed: bool)
    | NewPeer(src: Ipv4, dst: Ipv4)
    | HopTimer(started: bool)
    | OccTimer(started: bool)
    | EvalTimer
    | KafkaAdjusts(started: bool)
    | Measurement(idle: bool)
    | UseRetransmission(on: bool)
    | Thresholds(occupancy: Word, latency: Word)

  /** What a handler does to the outside: queue a message, or open or close the evaluation window. A window is
      `remembered` if `vSentPacingOver` was set with it, for which a RESET or CLEANUP is due later. */
  datatype Action = Queue(m: Message) | WindowOpens(remembered: bool) | WindowCloses

  predicate Initial(s: State) {
    && !s.timerIsSet && s.canStart && !s.sentPacing && !s.twiceInRow
    && s.timers == Timers(false, false, false)
  }

  /** The low 24 bits of the queue word. */
  function Occupancy(h: Hop): Word { h.queueInfo % 0x100_0000 }

  /** Unsigned 32-bit subtraction, as the timestamps wrap. */
  function Latency(h: Hop): Word {
    Minus(h.egress, h.ingress)
  }

  /** What a hop reports, in terms of its words. */
  predicate Reports(h: Hop, occupancy: Word, latency: Word) {
    && occupancy < 0x100_0000 && (h.queueInfo - occupancy) % 0x100_0000 == 0
    && (h.ingress + latency) % 0x1_0000_0000 == h.egress
  }

  /** The occupancy is what the low three bytes spell, and the latency leads
      from the ingress to the egress time, across a wrap of the clock. */
  lemma HopReports(h: Hop)
    ensures Reports(h, Occupancy(h), Latency(h))
    ensures exists top: nat :: top < 0x100 && h.queueInfo == top * 0x100_0000 + Occupancy(h)
    ensures h.ingress <= h.egress ==> h.ingress + Latency(h) == h.egress
  {
    assert h.queueInfo == (h.queueInfo / 0x100_0000) * 0x100_0000 + Occupancy(h);
  }

  /** A hop reports one occupancy and one latency, and is high exactly if the occupancy is over its
      threshold and so is the latency, or retransmissions count. */
  lemma HighMeans(s: State, h: Hop, occupancy: Word, latency: Word)
    requires Reports(h, occupancy, latency)
    ensures Occupancy(h) == occupancy && Latency(h) == latency
    ensures High(s, h) <==>
            && occupancy > s.settings.occupancyDelta
            && (latency > s.settings.latencyDelta || s.settings.useRetransmission)
    ensures BothHigh(s, h) <==> occupancy > s.settings.occupancyDelta && latency > s.settings.latencyDelta
  {
  }

  predicate BothHigh(s: State, h: Hop) {
    Latency(h) > s.settings.latencyDelta && Occupancy(h) > s.settings.occupancyDelta
  }

  /** A sample is high for the settings in force: latency and occupancy both, or
      occupancy alone where the retransmission rate will be consulted. */
  predicate High(s: State, h: Hop) {
    BothHigh(s, h) || (s.settings.useRetransmission && Occupancy(h) > s.settings.occupancyDelta)
  }

  /** `fStartEvaluationTimer`: only without Kafka is the window remembered. */
  function AfterStart(s: State, started: bool): State {
    if started then
      s.(timers := s.timers.(eval := true), canStart := false, sentPacing := s.sentPacing || !s.settings.useKafka)
    else s
  }

  function Opens(s: State, started: bool): seq<Action> {
    if started then [WindowOpens(!s.settings.useKafka)] else []
  }

  /** Either occupancy handler, once its own timer has fired: it opens a window if it may and
      if `timer_settime` starts the evaluation timer. */
  function AfterReport(s: State, timers: Timers, started: bool): State {
    var t := s.(timerIsSet := false, timers := timers);
    if s.canStart then AfterStart(t, started) else t
  }

  function Report(s: State, hopDelay: Word, started: bool): seq<Action> {
    if s.canStart then
      [Queue(Qinfo(s.data.qinfo, hopDelay, s.data.src, s.data.dst))] + Opens(s, started)
    else []
  }

  predicate Arms(s: State, e: Event) {
    e.Sample? && e.armed && !s.timerIsSet && High(s, e.hop)
  }

  /** The data a sample leaves for the timer it arms. */
  function Payload(s: State, e: Event): TimerData
    requires e.Sample?
  {
    TimerData(e.src, e.dst, Occupancy(e.hop), if BothHigh(s, e.hop) then Latency(e.hop) else 0)
  }

  function AfterHigh(s: State, e: Event): State
    requires e.Sample?
  {
    if !Arms(s, e) then
      s.(lastSrc := e.src)
    else
      s.(timerIsSet := true, data := Payload(s, e), lastSrc := e.src,
         timers := if BothHigh(s, e.hop) then s.timers.(hop := true) else s.timers.(occ := true))
  }

  /** A RESET goes out when the congestion last reported is over and its window has closed. */
  predicate SendsReset(s: State, e: Event) {
    e.Sample? && !High(s, e.hop) && s.sentPacing && s.canStart
  }

  /** A calm sample disarms the hop timer, but the occupancy timer only while retransmissions count. */
  function AfterCalm(s: State, src: Ipv4): State {
    s.(timerIsSet := false, lastSrc := src,
       timers :=
         if !s.timerIsSet then s.timers
         else if s.settings.useRetransmission then s.timers.(hop := false, occ := false)
         else s.timers.(hop := false),
       sentPacing := s.sentPacing && !s.canStart)
  }

  /** The second idle measurement in a row cancels an open window. */
  predicate CancelsWindow(s: State) {
    !s.canStart && s.twiceInRow
  }

  predicate SendsCleanup(s: State) {
    s.sentPacing && s.twiceInRow && (s.canStart || CancelsWindow(s))
  }

  /** The idle-link part of `fDoRunGetThresholds`. */
  function AfterIdle(s: State): State {
    s.(timerIsSet := false, canStart := s.canStart || CancelsWindow(s),
       sentPacing := s.sentPacing && !SendsCleanup(s), twiceInRow := true,
       timers := Timers(
         s.timers.hop && !s.timerIsSet, s.timers.occ && !s.timerIsSet, s.timers.eval && !CancelsWindow(s)))
  }

  /** Only an armed timer can fire, and the Kafka consumer adjusts nothing while a window is open. */
  predicate Enabled(s: State, e: Event) {
    match e
    case HopTimer(_) => s.timers.hop
    case OccTimer(_) => s.timers.occ
    case EvalTimer => s.timers.eval
    case KafkaAdjusts(_) => s.settings.useKafka && s.canStart
    case _ => true
  }

  function Next(s: State, e: Event): State
    requires Enabled(s, e)
  {
    match e
    case Sample(hop, src, _, _) => if High(s, hop) then AfterHigh(s, e) else AfterCalm(s, src)
    case NewPeer(_, _) => s
    case HopTimer(started) => AfterReport(s, s.timers.(hop := false), started)
    case OccTimer(started) => AfterReport(s, s.timers.(occ := false), started)
    case EvalTimer => s.(timers := s.timers.(eval := false), canStart := true)
    case KafkaAdjusts(started) => AfterStart(s, started)
    case Measurement(idle) => if idle then AfterIdle(s) else s.(twiceInRow := false)
    case UseRetransmission(on) => s.(settings := s.settings.(useRetransmission := on))
    case Thresholds(occupancy, latency) =>
      s.(settings := s.settings.(occupancyDelta := occupancy, latencyDelta := latency))
  }

  function Effects(s: State, e: Event): seq<Action> {
    match e
    case Sample(_, src, dst, _) => if SendsReset(s, e) then [Queue(Reset(src, dst))] else []
    case NewPeer(src, dst) => [Queue(Start(src, dst))]
    case HopTimer(started) => Report(s, s.data.hopDelay, started)
    case OccTimer(started) => Report(s, 0, started)
    case EvalTimer => [WindowCloses]
    case KafkaAdjusts(started) => Opens(s, started)
    case Measurement(idle) =>
      (if idle && CancelsWindow(s) then [WindowCloses] else [])
      + (if idle && SendsCleanup(s) then [Queue(Cleanup(s.lastSrc))] else [])
    case UseRetransmission(_) => []
    case Thresholds(_, _) => []
  }

  predicate Moves(s: State, e: Event, t: State) {
    Enabled(s, e) && t == Next(s, e)
  }

  /** A history from the initial flags: event `i` takes state `ss[i]` to `ss[i + 1]`. */
  ghost predicate Behavior(ss: seq<State>, es: seq<Event>) {
    && |ss| == |es| + 1
    && Initial(ss[0])
    && forall i :: 0 <= i < |es| ==> Moves(ss[i], es[i], ss[i + 1])
  }

  lemma KafkaIsFixed(s: State, e: Event)
    requires Enabled(s, e)
    ensures Next(s, e).settings.useKafka == s.settings.useKafka
  {
  }

  // ---------------------------------------------------------------- timers

  /** At most one occupancy timer runs, exactly while `vq_TimerIsSet`;
      the evaluation timer runs exactly while no window may open. */
  predicate TimersAgree(s: State) {
    && !(s.timers.hop && s.timers.occ)
    && (s.timerIsSet <==> s.timers.hop || s.timers.occ)
    && (s.canStart <==> !s.timers.eval)
  }

  /** A calm sample while the occupancy timer runs and retransmissions no longer count. */
  predicate Abandons(s: State, e: Event) {
    e.Sample? && !High(s, e.hop) && s.timers.occ && !s.settings.useRetransmission
  }

  /** The agreement survives a step exactly when the step is not such a sample: the flag is
      cleared on every calm sample, the occupancy timer only while retransmissions count. */
  lemma StepKeepsTimers(s: State, e: Event)
    requires TimersAgree(s) && Enabled(s, e)
    ensures TimersAgree(Next(s, e)) <==> !Abandons(s, e)
  {
    hide Latency, Occupancy;
    match e {
      case Sample(_, _, _, _) =>
        if High(s, e.hop) {
        } else {
        }
      case _ =>
    }
  }

  /** After a sample, a debounce timer runs exactly if the sample was high and one was already running or could
      be started, or if the sample abandons one; a timer that was running goes on with its data. A timer just
      armed is the hop timer exactly if the latency is over its threshold, and holds what the hop reported. */
  lemma SampleDecidesTimer(s: State, e: Event, occupancy: Word, latency: Word)
    requires TimersAgree(s) && e.Sample? && Reports(e.hop, occupancy, latency)
    ensures var t, limits := Next(s, e), s.settings;
            var slow := latency > limits.latencyDelta;
            var high := occupancy > limits.occupancyDelta && (slow || limits.useRetransmission);
            && (t.timers.hop || t.timers.occ <==>
                (high && (s.timerIsSet || e.armed)) || (!high && s.timers.occ && !limits.useRetransmission))
            && (high && s.timerIsSet ==> t.timers == s.timers && t.data == s.data)
            && (high && !s.timerIsSet && e.armed ==>
                  t.timers.hop == slow && t.data == TimerData(e.src, e.dst, occupancy, if slow then latency else 0))
  {
    HighMeans(s, e.hop, occupancy, latency);
    hide Latency, Occupancy, Reports;
    if High(s, e.hop) {
    } else {
    }
  }

  ghost predicate NoneAbandoned(ss: seq<State>, es: seq<Event>, n: nat)
    requires n <= |es| <= |ss|
  {
    forall i :: 0 <= i < n ==> !Abandons(ss[i], es[i])
  }

  /** Over a whole run: timers and flags agree in every state exactly if no sample abandons a timer. */
  lemma {:induction false} TimersAgreeThroughout(ss: seq<State>, es: seq<Event>, n: nat)
    requires Behavior(ss, es) && n <= |es|
    ensures (forall i :: 0 <= i <= n ==> TimersAgree(ss[i])) <==> NoneAbandoned(ss, es, n)
  {
    hide Next, Abandons, TimersAgree;
    if n == 0 {
      InitiallyAgree(ss[0]);
    } else {
      TimersAgreeThroughout(ss, es, n - 1);
      assert Moves(ss[n - 1], es[n - 1], ss[n]);
      if TimersAgree(ss[n - 1]) {
        StepKeepsTimers(ss[n - 1], es[n - 1]);
      }
    }
  }

  lemma InitiallyAgree(s: State)
    requires Initial(s)
    ensures TimersAgree(s)
  {
  }

  /** A run that abandons a timer: an operator switches retransmission use off while the
      occupancy timer runs, and the next calm sample leaves it running without a flag. */
  lemma OrphanedTimer(s: State, high: Hop, calm: Hop) returns (ss: seq<State>, es: seq<Event>)
    requires Initial(s) && s.settings.useRetransmission
    requires Occupancy(high) > s.settings.occupancyDelta && Latency(high) <= s.settings.latencyDelta
    requires Occupancy(calm) <= s.settings.occupancyDelta
    ensures Behavior(ss, es) && |es| == 3 && ss[0] == s
    ensures TimersAgree(ss[2]) && !TimersAgree(ss[3]) && ss[3].timers.occ && !ss[3].timerIsSet && ss[3].canStart
  {
    var e0, e1, e2 := Sample(high, 1, 2, true), UseRetransmission(false), Sample(calm, 1, 2, true);
    var s1 := Next(s, e0);
    var s2 := Next(s1, e1);
    ss, es := [s, s1, s2, Next(s2, e2)], [e0, e1, e2];
    assert Moves(ss[0], es[0], ss[1]) && Moves(ss[1], es[1], ss[2]) && Moves(ss[2], es[2], ss[3]);
  }

  // ---------------------------------------------------------------- debounce

  /** A sample that is calm for the thresholds in force, or an idle measurement. */
  predicate Quiet(s: State, e: Event) {
    (e.Sample? && !High(s, e.hop)) || (e.Measurement? && e.idle)
  }

  predicate Fires(e: Event) {
    e.HopTimer? || e.OccTimer?
  }

  /** The timer whose data is pending is the one that its sample has armed. */
  predicate PendingRuns(s: State) {
    && (s.data.hopDelay != 0 ==> s.timers.hop)
    && (s.data.hopDelay == 0 ==> s.timers.occ)
  }

  /** While `vq_TimerIsSet`, only events that are neither quiet nor expiries happen, and only a sample sets it. */
  lemma PendingAcrossStep(s: State, e: Event)
    requires Enabled(s, e) && Next(s, e).timerIsSet
    ensures s.timerIsSet ==>
              !Quiet(s, e) && !Fires(e) && Next(s, e).data == s.data && (PendingRuns(s) ==> PendingRuns(Next(s, e)))
    ensures !s.timerIsSet ==> Arms(s, e) && Next(s, e).data == Payload(s, e) && PendingRuns(Next(s, e))
  {
    hide Latency, Occupancy;
    match e {
      case Sample(_, _, _, _) =>
        if High(s, e.hop) {
        } else {
        }
      case _ =>
    }
  }

  /** Event `j` armed a debounce timer, and up to `i` no calm sample, no idle measurement and no expiry followed. */
  ghost predicate PendingSince(ss: seq<State>, es: seq<Event>, i: nat, j: nat)
    requires i <= |es| < |ss|
  {
    && j < i && Arms(ss[j], es[j]) && ss[i].data == Payload(ss[j], es[j])
    && forall k :: j < k < i ==> !Quiet(ss[k], es[k]) && !Fires(es[k])
  }

  /** The event that armed the timer still pending in state `i`, in any history whatever. */
  lemma {:induction false} PendingHasCause(ss: seq<State>, es: seq<Event>, i: nat) returns (j: nat)
    requires Behavior(ss, es) && i <= |es| && ss[i].timerIsSet
    ensures PendingSince(ss, es, i, j) && PendingRuns(ss[i])
  {
    hide Next, High, BothHigh, Latency, Occupancy, PendingRuns, Payload;
    var p := i - 1;
    assert Moves(ss[p], es[p], ss[i]);
    PendingAcrossStep(ss[p], es[p]);
    if ss[p].timerIsSet {
      j := PendingHasCause(ss, es, p);
    } else {
      j := p;
    }
  }

  /** Conversely, `vq_TimerIsSet` holds for as long as that is so. */
  lemma {:induction false} CauseIsPending(ss: seq<State>, es: seq<Event>, i: nat, j: nat)
    requires Behavior(ss, es) && j < i <= |es| && Arms(ss[j], es[j])
    requires forall k :: j < k < i ==> !Quiet(ss[k], es[k]) && !Fires(es[k])
    ensures ss[i].timerIsSet && ss[i].data == Payload(ss[j], es[j])
  {
    hide Latency, Occupancy;
    assert Moves(ss[i - 1], es[i - 1], ss[i]);
    if j < i - 1 {
      CauseIsPending(ss, es, i - 1, j);
    }
  }

  /** The timer that fires at `i` reports the sample that armed this very timer, with nothing quiet since. */
  ghost predicate Debounced(ss: seq<State>, es: seq<Event>, i: nat)
    requires i < |es| < |ss|
  {
    exists j: nat :: PendingSince(ss, es, i, j) && (BothHigh(ss[j], es[j].hop) <==> es[i].HopTimer?)
  }

  /** In any history, abandoned timers included: an expiry is debounced exactly
      if `vq_TimerIsSet` still holds and the timer is the one that the stored data is for. */
  lemma DebouncedExactly(ss: seq<State>, es: seq<Event>, i: nat)
    requires Behavior(ss, es) && i < |es| && Fires(es[i])
    ensures Debounced(ss, es, i) <==> ss[i].timerIsSet && (es[i].HopTimer? <==> ss[i].data.hopDelay != 0)
  {
    hide Next, Latency, Occupancy, Quiet;
    if ss[i].timerIsSet {
      var j := PendingHasCause(ss, es, i);
      if es[i].HopTimer? <==> ss[i].data.hopDelay != 0 {
        assert BothHigh(ss[j], es[j].hop) <==> es[i].HopTimer?;
      }
    }
    if j: nat :| PendingSince(ss, es, i, j) && (BothHigh(ss[j], es[j].hop) <==> es[i].HopTimer?) {
      CauseIsPending(ss, es, i, j);
    }
  }

  /** An abandoned timer does fire, and reports congestion although a calm sample has come since. */
  lemma UndebouncedExpiry(s: State, high: Hop, calm: Hop) returns (ss: seq<State>, es: seq<Event>)
    requires Initial(s) && s.settings.useRetransmission
    requires Occupancy(high) > s.settings.occupancyDelta && Latency(high) <= s.settings.latencyDelta
    requires Occupancy(calm) <= s.settings.occupancyDelta
    ensures Behavior(ss, es) && |es| == 4 && ss[0] == s && es[3] == OccTimer(true)
    ensures !Debounced(ss, es, 3)
    ensures |Effects(ss[3], es[3])| == 2 && Effects(ss[3], es[3])[0].Queue? && Effects(ss[3], es[3])[0].m.Qinfo?
  {
    hide Next, Latency, Occupancy;
    ss, es := OrphanedTimer(s, high, calm);
    assert forall i :: 0 <= i < 3 ==> Moves(ss[i], es[i], ss[i + 1]);
    ss, es := ss + [Next(ss[3], OccTimer(true))], es + [OccTimer(true)];
    forall i | 0 <= i < 4 ensures Moves(ss[i], es[i], ss[i + 1]) {
      if i < 3 {
        assert Moves(ss[i], es[i], ss[i + 1]);
      }
    }
    DebouncedExactly(ss, es, 3);
  }

  /** Debounce: where no timer was abandoned before, a timer that fires was armed by an earlier sample above the
      thresholds then in force, no calm sample or idle measurement came in between, and if a window may open it queues
      one QINFO reporting that sample: with its delay from the hop timer, with delay zero from the other. */
  lemma Debounce(ss: seq<State>, es: seq<Event>, i: nat) returns (j: nat, occupancy: Word, latency: Word)
    requires Behavior(ss, es) && i < |es| && NoneAbandoned(ss, es, i) && Fires(es[i])
    ensures j < i && es[j].Sample? && Reports(es[j].hop, occupancy, latency)
    ensures occupancy > ss[j].settings.occupancyDelta
    ensures es[i].HopTimer? <==> latency > ss[j].settings.latencyDelta
    ensures es[i].OccTimer? ==> ss[j].settings.useRetransmission
    ensures forall k :: j < k < i ==> !Quiet(ss[k], es[k])
    ensures Debounced(ss, es, i)
    ensures var hopDelay := if es[i].HopTimer? then latency else 0;
            && (es[i].HopTimer? <==> hopDelay != 0)
            && Effects(ss[i], es[i]) ==
               if ss[i].canStart then
                 [Queue(Qinfo(occupancy, hopDelay, es[j].src, es[j].dst))]
                 + (if es[i].started then [WindowOpens(!ss[i].settings.useKafka)] else [])
               else []
  {
    hide Next, Latency, Occupancy, Quiet, Reports;
    TimersAgreeThroughout(ss, es, i);
    assert Moves(ss[i], es[i], ss[i + 1]);
    j := PendingHasCause(ss, es, i);
    DebouncedExactly(ss, es, i);
    occupancy, latency := Occupancy(es[j].hop), Latency(es[j].hop);
    HopReports(es[j].hop);
  }

  // ---------------------------------------------------------------- the message log

  /** Everything the first `n` events of a history did, in order. */
  ghost function Log(ss: seq<State>, es: seq<Event>, n: nat): seq<Action>
    requires Behavior(ss, es) && n <= |es|
  {
    if n == 0 then [] else Log(ss, es, n - 1) + Effects(ss[n - 1], es[n - 1])
  }

  predicate IsQinfo(a: Action) { a.Queue? && a.m.Qinfo? }
  predicate IsAnswer(a: Action) { a.Queue? && a.m.Answer() }

  /** The last window opened has not been closed. */
  predicate WindowOpen(log: seq<Action>) {
    log != [] && (Last(log).WindowOpens? || (!Last(log).WindowCloses? && WindowOpen(Front(log))))
  }

  /** A QINFO that opened a remembered window has had no answer since. */
  predicate Unanswered(log: seq<Action>) {
    log != [] && (Last(log) == WindowOpens(true) || (!IsAnswer(Last(log)) && Unanswered(Front(log))))
  }

  /** Each action comes only where the protocol allows it. */
  predicate Ordered(log: seq<Action>) {
    log != [] ==>
      && Ordered(Front(log))
      && (IsQinfo(Last(log)) || Last(log).WindowOpens? ==> !WindowOpen(Front(log)))
      && (Last(log).WindowCloses? ==> WindowOpen(Front(log)))
      && (Last(log) == WindowOpens(true) ==> Front(log) != [] && IsQinfo(Last(Front(log))))
      && (IsAnswer(Last(log)) ==> !WindowOpen(Front(log)) && Unanswered(Front(log)))
  }

  function Last(log: seq<Action>): Action
    requires log != []
  {
    log[|log| - 1]
  }

  function Front(log: seq<Action>): seq<Action>
    requires log != []
  {
    log[..|log| - 1]
  }

  predicate FlagsTell(s: State, log: seq<Action>) {
    && Ordered(log)
    && (s.canStart <==> !WindowOpen(log))
    && (s.canStart <==> !s.timers.eval)
    && (s.sentPacing <==> Unanswered(log))
  }

  lemma LogPlus(log: seq<Action>, a: Action)
    ensures log + [a] != [] && Last(log + [a]) == a && Front(log + [a]) == log
  {
  }

  lemma LogPlus2(log: seq<Action>, a: Action, b: Action)
    ensures log + [a, b] != [] && Last(log + [a, b]) == b && Front(log + [a, b]) == log + [a]
  {
  }

  lemma ReportKeepsFlags(s: State, timers: Timers, hopDelay: Word, started: bool, log: seq<Action>)
    requires FlagsTell(s, log) && timers.eval == s.timers.eval
    ensures FlagsTell(AfterReport(s, timers, started), log + Report(s, hopDelay, started))
  {
    var qinfo, opens := Queue(Qinfo(s.data.qinfo, hopDelay, s.data.src, s.data.dst)), WindowOpens(!s.settings.useKafka);
    LogPlus(log, qinfo);
    LogPlus2(log, qinfo, opens);
    assert log + [] == log;
    assert [qinfo] + [opens] == [qinfo, opens];
  }

  lemma SampleChangesFlags(s: State, e: Event)
    requires e.Sample?
    ensures Next(s, e).canStart == s.canStart && Next(s, e).timers.eval == s.timers.eval
    ensures Next(s, e).settings.useKafka == s.settings.useKafka
    ensures Next(s, e).sentPacing == (s.sentPacing && !SendsReset(s, e))
  {
    if High(s, e.hop) {
    } else {
    }
  }

  /** An entry that neither opens, closes, reports nor answers changes nothing the flags tell. */
  lemma StartKeepsFlags(s: State, log: seq<Action>, m: Message)
    requires FlagsTell(s, log) && m.Start?
    ensures FlagsTell(s, log + [Queue(m)])
  {
    LogPlus(log, Queue(m));
  }

  lemma SampleKeepsFlags(s: State, e: Event, log: seq<Action>)
    requires FlagsTell(s, log) && e.Sample?
    ensures FlagsTell(Next(s, e), log + Effects(s, e))
  {
    SampleChangesFlags(s, e);
    hide Next, High;
    LogPlus(log, Queue(Reset(e.src, e.dst)));
    assert log + [] == log;
  }

  lemma KafkaKeepsFlags(s: State, started: bool, log: seq<Action>)
    requires FlagsTell(s, log) && Enabled(s, KafkaAdjusts(started))
    ensures FlagsTell(AfterStart(s, started), log + Opens(s, started))
  {
    LogPlus(log, WindowOpens(false));
    assert log + [] == log;
  }

  lemma IdleKeepsFlags(s: State, log: seq<Action>)
    requires FlagsTell(s, log)
    ensures FlagsTell(AfterIdle(s), log + Effects(s, Measurement(true)))
  {
    var cleanup := Queue(Cleanup(s.lastSrc));
    LogPlus(log, WindowCloses);
    LogPlus(log, cleanup);
    LogPlus2(log, WindowCloses, cleanup);
    assert log + [] == log;
    assert [WindowCloses] + [cleanup] == [WindowCloses, cleanup];
  }

  lemma StepKeepsFlags(s: State, e: Event, log: seq<Action>)
    requires FlagsTell(s, log) && Enabled(s, e)
    ensures FlagsTell(Next(s, e), log + Effects(s, e))
  {
    hide AfterReport, AfterStart, AfterIdle;
    assert log + [] == log;
    match e {
      case Sample(_, _, _, _) => SampleKeepsFlags(s, e, log);
      case NewPeer(src, dst) => StartKeepsFlags(s, log, Start(src, dst));
      case HopTimer(started) => ReportKeepsFlags(s, s.timers.(hop := false), s.data.hopDelay, started, log);
      case OccTimer(started) => ReportKeepsFlags(s, s.timers.(occ := false), 0, started, log);
      case EvalTimer => LogPlus(log, WindowCloses);
      case KafkaAdjusts(started) => KafkaKeepsFlags(s, started, log);
      case Measurement(idle) =>
        if idle { IdleKeepsFlags(s, log); }
      case UseRetransmission(_) =>
      case Thresholds(_, _) =>
    }
  }

  lemma {:induction false} FlagsTellThroughout(ss: seq<State>, es: seq<Event>, i: nat)
    requires Behavior(ss, es) && i <= |es|
    ensures FlagsTell(ss[i], Log(ss, es, i))
  {
    hide Next, Effects;
    if i > 0 {
      FlagsTellThroughout(ss, es, i - 1);
      assert Moves(ss[i - 1], es[i - 1], ss[i]);
      StepKeepsFlags(ss[i - 1], es[i - 1], Log(ss, es, i - 1));
    }
  }

  // What `Ordered` says about any two entries of the log.

  lemma {:induction false} OpenUntilClosed(log: seq<Action>, i: nat)
    requires i < |log| && log[i].WindowOpens? && !WindowOpen(log)
    ensures exists k :: i < k < |log| && log[k].WindowCloses?
  {
    if !Last(log).WindowCloses? {
      OpenUntilClosed(Front(log), i);
      var k :| i < k < |Front(log)| && Front(log)[k].WindowCloses?;
      assert log[k].WindowCloses?;
    }
  }

  lemma {:induction false} OpenedSince(log: seq<Action>, i: nat)
    requires i <= |log| && WindowOpen(log) && !WindowOpen(log[..i])
    ensures exists m :: i <= m < |log| && log[m].WindowOpens?
    decreases |log|
  {
    assert log[..|log|] == log;
    if !Last(log).WindowOpens? {
      assert Front(log)[..i] == log[..i];
      OpenedSince(Front(log), i);
      var m :| i <= m < |Front(log)| && Front(log)[m].WindowOpens?;
      assert log[m].WindowOpens?;
    }
  }

  /** Entry `k` is a remembered window, opened by the QINFO before it, and nothing after it answers. */
  ghost predicate UnansweredAt(log: seq<Action>, k: nat) {
    && 0 < k < |log| && log[k] == WindowOpens(true) && IsQinfo(log[k - 1])
    && forall m :: k < m < |log| ==> !IsAnswer(log[m])
  }

  lemma {:induction false} UnansweredSince(log: seq<Action>) returns (k: nat)
    requires Ordered(log) && Unanswered(log)
    ensures UnansweredAt(log, k)
  {
    k := |log| - 1;
    if log[k] != WindowOpens(true) {
      k := UnansweredSince(Front(log));
    }
  }

  lemma {:induction false} OrderedPrefix(log: seq<Action>, n: nat)
    requires Ordered(log) && n <= |log|
    ensures Ordered(log[..n])
    decreases |log|
  {
    if n == |log| {
      assert log[..n] == log;
    } else {
      OrderedPrefix(Front(log), n);
      assert Front(log)[..n] == log[..n];
    }
  }

  /** Without Kafka every window is remembered. */
  lemma {:induction false} RememberedWithoutKafka(ss: seq<State>, es: seq<Event>, n: nat)
    requires Behavior(ss, es) && n <= |es| && !ss[0].settings.useKafka
    ensures !ss[n].settings.useKafka && WindowOpens(false) !in Log(ss, es, n)
  {
    hide Next, High;
    if n > 0 {
      RememberedWithoutKafka(ss, es, n - 1);
      assert Moves(ss[n - 1], es[n - 1], ss[n]);
      KafkaIsFixed(ss[n - 1], es[n - 1]);
    }
  }

  /** Over a whole run: once an evaluation window is open, the next QINFO waits until that window has expired or an
      idle link has cancelled it. Without Kafka it is always a QINFO that has opened the window. */
  lemma QinfosAreSpaced(ss: seq<State>, es: seq<Event>, i: nat, j: nat)
    requires Behavior(ss, es) && i < j < |Log(ss, es, |es|)|
    requires var log := Log(ss, es, |es|); log[i].WindowOpens? && IsQinfo(log[j])
    ensures var log := Log(ss, es, |es|);
            && (!ss[0].settings.useKafka ==> i > 0 && IsQinfo(log[i - 1]))
            && exists k :: i < k < j && log[k].WindowCloses?
  {
    hide Next, Effects;
    var log := Log(ss, es, |es|);
    FlagsTellThroughout(ss, es, |es|);
    OrderedPrefix(log, i + 1);
    OrderedPrefix(log, j + 1);
    assert Front(log[..j + 1]) == log[..j] && Front(log[..i + 1]) == log[..i];
    OpenUntilClosed(log[..j], i);
    var k :| i < k < j && log[..j][k].WindowCloses?;
    assert log[k].WindowCloses?;
    if !ss[0].settings.useKafka {
      RememberedWithoutKafka(ss, es, |es|);
      assert log[i] in log;
    }
  }

  /** Over a whole run: between two QINFOs a window is closed exactly if one is opened. So two QINFOs
      follow each other without an expiry or an idle cancel only if no window was opened for the first. */
  lemma QinfoPairs(ss: seq<State>, es: seq<Event>, i: nat, j: nat)
    requires Behavior(ss, es) && i < j < |Log(ss, es, |es|)|
    requires var log := Log(ss, es, |es|); IsQinfo(log[i]) && IsQinfo(log[j])
    ensures var log := Log(ss, es, |es|);
            (exists k :: i < k < j && log[k].WindowCloses?) <==> (exists k :: i < k < j && log[k].WindowOpens?)
  {
    hide Next, Effects, Ordered, WindowOpen;
    var log := Log(ss, es, |es|);
    FlagsTellThroughout(ss, es, |es|);
    if k :| i < k < j && log[k].WindowOpens? {
      QinfosAreSpaced(ss, es, k, j);
    }
    if k :| i < k < j && log[k].WindowCloses? {
      OrderedAt(log, i);
      OrderedAt(log, k);
      assert log[..k][..i] == log[..i];
      OpenedSince(log[..k], i);
      var m :| i <= m < k && log[..k][m].WindowOpens?;
      assert log[m].WindowOpens?;
    }
  }

  /** Two QINFOs in a row, neither of which could start the evaluation timer. */
  lemma UnspacedQinfos(s: State, high: Hop) returns (ss: seq<State>, es: seq<Event>)
    requires Initial(s) && BothHigh(s, high)
    ensures Behavior(ss, es) && |es| == 4 && ss[0] == s
    ensures var log := Log(ss, es, 4); |log| == 2 && IsQinfo(log[0]) && IsQinfo(log[1])
  {
    hide Latency, Occupancy;
    var e0, e1 := Sample(high, 1, 2, true), HopTimer(false);
    var t1 := Next(s, e0);
    var t2 := Next(t1, e1);
    var t3 := Next(t2, e0);
    ss, es := [s, t1, t2, t3, Next(t3, e1)], [e0, e1, e0, e1];
    assert Moves(ss[0], e0, ss[1]) && Moves(ss[1], e1, ss[2]) && Moves(ss[2], e0, ss[3]) && Moves(ss[3], e1, ss[4]);
    assert Log(ss, es, 1) == [] && |Log(ss, es, 2)| == 1 && Log(ss, es, 3) == Log(ss, es, 2);
  }

  /** What comes before a QINFO or a close. */
  lemma OrderedAt(log: seq<Action>, k: nat)
    requires Ordered(log) && k < |log|
    ensures IsQinfo(log[k]) ==> !WindowOpen(log[..k])
    ensures log[k].WindowCloses? ==> WindowOpen(log[..k])
  {
    OrderedPrefix(log, k + 1);
    assert Front(log[..k + 1]) == log[..k];
  }

  /** Over a whole run: every RESET or CLEANUP has its own QINFO, which comes after any
      earlier RESET or CLEANUP; so two of them never follow each other without a QINFO between. */
  lemma AnswersHaveQinfos(ss: seq<State>, es: seq<Event>, j: nat) returns (q: nat)
    requires Behavior(ss, es) && j < |Log(ss, es, |es|)| && IsAnswer(Log(ss, es, |es|)[j])
    ensures var log := Log(ss, es, |es|);
            q < j && IsQinfo(log[q]) && forall m :: q < m < j ==> !IsAnswer(log[m])
  {
    hide Next, Effects;
    var log := Log(ss, es, |es|);
    FlagsTellThroughout(ss, es, |es|);
    OrderedPrefix(log, j + 1);
    assert Front(log[..j + 1]) == log[..j];
    var k := UnansweredSince(log[..j]);
    q := k - 1;
    forall m | q < m < j ensures !IsAnswer(log[m]) {
      assert log[m] == log[..j][m];
    }
  }

  /** At any time `vSentPacingOver` says whether the last QINFO that opened
      a remembered window is still without a RESET or CLEANUP. */
  lemma SentPacingMeansUnanswered(ss: seq<State>, es: seq<Event>, i: nat)
    requires Behavior(ss, es) && i <= |es|
    ensures ss[i].sentPacing <==> exists k :: UnansweredAt(Log(ss, es, i), k)
  {
    var log := Log(ss, es, i);
    FlagsTellThroughout(ss, es, i);
    if Unanswered(log) {
      var k := UnansweredSince(log);
    } else if k :| UnansweredAt(log, k) {
      AnsweredAfter(log, k);
    }
  }

  /** A calm sample outside an evaluation window leaves no QINFO unanswered;
      neither does the second of two idle measurements in a row. */
  lemma QuietAnswers(ss: seq<State>, es: seq<Event>, i: nat)
    requires Behavior(ss, es) && i < |es| && Quiet(ss[i], es[i])
    requires if es[i].Sample? then ss[i].canStart else ss[i].twiceInRow
    ensures !ss[i + 1].sentPacing && !Unanswered(Log(ss, es, i + 1))
  {
    hide Occupancy, Latency, Log, FlagsTell, Effects;
    assert Moves(ss[i], es[i], ss[i + 1]);
    FlagsTellThroughout(ss, es, i + 1);
    FlagsMean(ss[i + 1], Log(ss, es, i + 1));
  }

  // ---------------------------------------------------------------- answers

  /** Whether the last measurement before event `i` found the link idle. */
  function LastIdle(es: seq<Event>, i: nat): bool
    requires i <= |es|
  {
    i > 0 && if es[i - 1].Measurement? then es[i - 1].idle else LastIdle(es, i - 1)
  }

  /** The sender named by the last sample before event `i`, if there was any. */
  function LastSender(es: seq<Event>, i: nat, initial: Ipv4): Ipv4
    requires i <= |es|
  {
    if i == 0 then initial else if es[i - 1].Sample? then es[i - 1].src else LastSender(es, i - 1, initial)
  }

  /** The thresholds last set before event `i`: occupancy and latency. */
  function LastThresholds(es: seq<Event>, i: nat, initial: (Word, Word)): (Word, Word)
    requires i <= |es|
  {
    if i == 0 then initial
    else if es[i - 1].Thresholds? then (es[i - 1].occupancy, es[i - 1].latency)
    else LastThresholds(es, i - 1, initial)
  }

  lemma StepRemembers(s: State, e: Event)
    requires Enabled(s, e)
    ensures Next(s, e).twiceInRow == if e.Measurement? then e.idle else s.twiceInRow
    ensures Next(s, e).lastSrc == if e.Sample? then e.src else s.lastSrc
    ensures var t := Next(s, e).settings;
            (t.occupancyDelta, t.latencyDelta) ==
            if e.Thresholds? then (e.occupancy, e.latency) else (s.settings.occupancyDelta, s.settings.latencyDelta)
  {
    hide High;
  }

  /** Over a whole run, the state remembers the last measurement, the last sender and the last thresholds. */
  lemma {:induction false} StateRemembers(ss: seq<State>, es: seq<Event>, i: nat)
    requires Behavior(ss, es) && i <= |es|
    ensures ss[i].twiceInRow == LastIdle(es, i) && ss[i].lastSrc == LastSender(es, i, ss[0].lastSrc)
    ensures var s0, s := ss[0].settings, ss[i].settings;
            (s.occupancyDelta, s.latencyDelta) == LastThresholds(es, i, (s0.occupancyDelta, s0.latencyDelta))
  {
    if i > 0 {
      hide Next;
      StateRemembers(ss, es, i - 1);
      assert Moves(ss[i - 1], es[i - 1], ss[i]);
      StepRemembers(ss[i - 1], es[i - 1]);
    }
  }

  /** Over a whole run: when exactly an answer goes out, and to whom. With a QINFO unanswered, a calm sample outside a
      window sends a RESET for its own flow, and the second idle measurement in a row sends a CLEANUP to the
      sender of the last sample; nothing else sends either. A new peer is announced with its own flow. */
  lemma AnswersExactly(ss: seq<State>, es: seq<Event>, i: nat, m: Message)
    requires Behavior(ss, es) && i < |es| && !m.Qinfo?
    ensures Queue(m) in Effects(ss[i], es[i]) <==>
            match m
            case Reset(src, dst) =>
              && es[i].Sample? && !High(ss[i], es[i].hop) && src == es[i].src && dst == es[i].dst
              && Unanswered(Log(ss, es, i)) && !WindowOpen(Log(ss, es, i))
            case Cleanup(src) =>
              && es[i] == Measurement(true) && LastIdle(es, i) && src == LastSender(es, i, ss[0].lastSrc)
              && Unanswered(Log(ss, es, i))
            case Start(src, dst) => es[i] == NewPeer(src, dst)
            case _ => true
  {
    hide Next, High, FlagsTell;
    StateRemembers(ss, es, i);
    FlagsTellThroughout(ss, es, i);
    FlagsMean(ss[i], Log(ss, es, i));
    hide Unanswered, WindowOpen, LastIdle, LastSender, Log;
  }

  /** Over a whole run: a window is closed exactly by the expiry of its timer, or if it
      is still open at the second idle measurement in a row. */
  lemma ClosesExactly(ss: seq<State>, es: seq<Event>, i: nat)
    requires Behavior(ss, es) && i < |es|
    ensures WindowCloses in Effects(ss[i], es[i]) <==>
            es[i].EvalTimer? || (es[i] == Measurement(true) && LastIdle(es, i) && WindowOpen(Log(ss, es, i)))
  {
    hide Next, High, FlagsTell;
    StateRemembers(ss, es, i);
    FlagsTellThroughout(ss, es, i);
    FlagsMean(ss[i], Log(ss, es, i));
    hide Unanswered, WindowOpen, LastIdle, LastSender, Log;
  }

  lemma FlagsMean(s: State, log: seq<Action>)
    requires FlagsTell(s, log)
    ensures s.sentPacing <==> Unanswered(log)
    ensures s.canStart <==> !WindowOpen(log)
  {
  }

  lemma {:induction false} AnsweredAfter(log: seq<Action>, k: nat)
    requires k < |log| && log[k] == WindowOpens(true) && !Unanswered(log)
    ensures exists m :: k < m < |log| && IsAnswer(log[m])
  {
    if !IsAnswer(Last(log)) {
      AnsweredAfter(Front(log), k);
      var m :| k < m < |Front(log)| && IsAnswer(Front(log)[m]);
      assert IsAnswer(log[m]);
    }
  }

  // ---------------------------------------------------------------- the handlers

  /** What one hop of a report amounts to; `newPeer` is the outcome of the peer table. */
  datatype Telemetry = Telemetry(hop: Hop, src: Ipv4, dst: Ipv4, armed: bool, newPeer: bool)

  function AfterHop(s: State, t: Telemetry): State {
    Next(s, Sample(t.hop, t.src, t.dst, t.armed))
  }

  /** The sample first, and then the announcement of a new peer. */
  function HopEffects(s: State, t: Telemetry): seq<Action> {
    Effects(s, Sample(t.hop, t.src, t.dst, t.armed))
    + if t.newPeer then Effects(AfterHop(s, t), NewPeer(t.src, t.dst)) else []
  }

  /** State and actions after one INT report, which carries a sample for every hop. */
  function AfterReportOf(s: State, hops: seq<Telemetry>): (State, seq<Action>) {
    if hops == [] then (s, [])
    else
      var (t, acts) := AfterReportOf(s, hops[..|hops| - 1]);
      (AfterHop(t, hops[|hops| - 1]), acts + HopEffects(t, hops[|hops| - 1]))
  }

  /** The global flags, and the handlers that update them in place. `log` collects what they do outside. */
  class Handlers {
    var timerIsSet: bool
    var canStart: bool
    var sentPacing: bool
    var twiceInRow: bool
    var timers: Timers
    var data: TimerData
    var lastSrc: Ipv4
    var settings: Settings
    ghost var log: seq<Action>

    function View(): State
      reads this
    {
      State(timerIsSet, canStart, sentPacing, twiceInRow, timers, data, lastSrc, settings)
    }

    ghost predicate Took(s: State, before: seq<Action>, e: Event)
      requires Enabled(s, e)
      reads this
    {
      View() == Next(s, e) && log == before + Effects(s, e)
    }

    constructor (settings: Settings)
      ensures Initial(View()) && View().settings == settings && log == []
    {
      timerIsSet, canStart, sentPacing, twiceInRow := false, true, false, false;
      timers, data, lastSrc := Timers(false, false, false), TimerData(0, 0, 0, 0), 0;
      this.settings := settings;
      log := [];
    }

    /** `fStartEvaluationTimer` */
    method StartEvaluationTimer(started: bool)
      modifies this`timers, this`canStart, this`sentPacing, this`log
      ensures timers == if started then old(timers).(eval := true) else old(timers)
      ensures canStart == (old(canStart) && !started)
      ensures sentPacing == (old(sentPacing) || (started && !settings.useKafka))
      ensures log == old(log) + if started then [WindowOpens(!settings.useKafka)] else []
    {
      if started {
        timers := timers.(eval := true);
        canStart := false;
        if !settings.useKafka {
          sentPacing := true;
        }
        log := log + [WindowOpens(!settings.useKafka)];
      }
    }

    /** `qOCC_Hop_TimerID_Handler` */
    method OnHopTimer(started: bool)
      requires timers.hop
      modifies this
      ensures Took(old(View()), old(log), HopTimer(started))
    {
      timers := timers.(hop := false);
      timerIsSet := false;
      if canStart {
        log := log + [Queue(Qinfo(data.qinfo, data.hopDelay, data.src, data.dst))];
        StartEvaluationTimer(started);
      }
    }

    /** `qOCC_TimerID_Handler` */
    method OnOccTimer(started: bool)
      requires timers.occ
      modifies this
      ensures Took(old(View()), old(log), OccTimer(started))
    {
      timers := timers.(occ := false);
      timerIsSet := false;
      if canStart {
        log := log + [Queue(Qinfo(data.qinfo, 0, data.src, data.dst))];
        StartEvaluationTimer(started);
      }
    }

    /** `qEvaluation_TimerID_Handler` */
    method OnEvaluationTimer()
      requires timers.eval
      modifies this
      ensures Took(old(View()), old(log), EvalTimer)
    {
      timers := timers.(eval := false);
      canStart := true;
      log := log + [WindowCloses];
    }

    /** The Kafka consumer's own call of `fStartEvaluationTimer`, once it has adjusted the pacing. */
    method OnKafkaAdjustment(started: bool)
      requires settings.useKafka && canStart
      modifies this
      ensures Took(old(View()), old(log), KafkaAdjusts(started))
    {
      StartEvaluationTimer(started);
    }

    /** `EvaluateQOcc_and_HopDelay` */
    method EvaluateBoth(src: Ipv4, dst: Ipv4, occupancy: Word, latency: Word, armed: bool)
      modifies this`timers, this`timerIsSet, this`data
      ensures if old(timerIsSet) || !armed then
                timers == old(timers) && timerIsSet == old(timerIsSet) && data == old(data)
              else timers == old(timers).(hop := true) && timerIsSet && data == TimerData(src, dst, occupancy, latency)
    {
      if !timerIsSet && armed {
        timers := timers.(hop := true);
        timerIsSet := true;
        data := TimerData(src, dst, occupancy, latency);
      }
    }

    /** `EvaluateQOccUserInfo` */
    method EvaluateOccupancy(src: Ipv4, dst: Ipv4, occupancy: Word, armed: bool)
      modifies this`timers, this`timerIsSet, this`data
      ensures if old(timerIsSet) || !armed then
                timers == old(timers) && timerIsSet == old(timerIsSet) && data == old(data)
              else timers == old(timers).(occ := true) && timerIsSet && data == TimerData(src, dst, occupancy, 0)
    {
      if !timerIsSet && armed {
        timers := timers.(occ := true);
        timerIsSet := true;
        data := TimerData(src, dst, occupancy, 0);
      }
    }

    /** One pass of the loop in `sample_func`. */
    method OnSample(t: Telemetry)
      modifies this
      ensures View() == AfterHop(old(View()), t)
      ensures log == old(log) + HopEffects(old(View()), t)
    {
      hide Occupancy, Latency;
      var Telemetry(hop, src, dst, armed, newPeer) := t;
      var occupancy, latency := Occupancy(hop), Latency(hop);
      ghost var sent := [];
      if latency > settings.latencyDelta && occupancy > settings.occupancyDelta {
        EvaluateBoth(src, dst, occupancy, latency, armed);
      } else if settings.useRetransmission && occupancy > settings.occupancyDelta {
        EvaluateOccupancy(src, dst, occupancy, armed);
      } else {
        if timerIsSet {
          if settings.useRetransmission {
            timers := timers.(occ := false);
          }
          timers := timers.(hop := false);
          timerIsSet := false;
        }
        if sentPacing && canStart {
          sent := [Queue(Reset(src, dst))];
          sentPacing := false;
        }
      }
      lastSrc := src;
      log := log + (sent + if newPeer then [Queue(Start(src, dst))] else []);
    }

    /** `sample_func` over all hops of one report. */
    method OnReport(hops: seq<Telemetry>)
      modifies this
      ensures View() == AfterReportOf(old(View()), hops).0
      ensures log == old(log) + AfterReportOf(old(View()), hops).1
    {
      hide AfterHop, HopEffects;
      for i := 0 to |hops|
        invariant View() == AfterReportOf(old(View()), hops[..i]).0
        invariant log == old(log) + AfterReportOf(old(View()), hops[..i]).1
      {
        assert hops[..i + 1][..i] == hops[..i];
        OnSample(hops[i]);
      }
      assert hops[..|hops|] == hops;
    }

    /** The idle-link part of one pass of `fDoRunGetThresholds`. */
    method OnMeasurement(txKbits: nat, rxKbits: nat)
      modifies this
      ensures Took(old(View()), old(log), Measurement(txKbits == 0 && rxKbits == 0))
    {
      if txKbits == 0 && rxKbits == 0 {
        if timerIsSet {
          timers := timers.(hop := false, occ := false);
          timerIsSet := false;
        }
        ghost var closed, sent := [], [];
        if !canStart && twiceInRow {
          timers := timers.(eval := false);
          canStart := true;
          closed := [WindowCloses];
        }
        if sentPacing && twiceInRow && canStart {
          sent := [Queue(Cleanup(lastSrc))];
          sentPacing := false;
        }
        twiceInRow := true;
        log := log + (closed + sent);
      } else {
        twiceInRow := false;
      }
    }
  }
}
