/** One source and several destinations: all of them act on the one record
    `sResetPacingBack` and on the one root queueing discipline. */
module SharedPacing {
  import opened Messages
  import P = Pacing
  import E = EndToEnd

  /** `asked` are the destinations whose last message that was acted on asked the source to keep to a rate. */
  datatype State = State(source: P.State, asked: set<Ipv4>)

  /** A message from a destination that the source knows, with what the source measures;
      or the source's own link is idle, of which the destinations learn nothing. */
  datatype Step = From(d: Ipv4, m: Message, measured: E.Measured) | IdleLink

  predicate ActedOn(m: Message, x: E.Measured) {
    m.Qinfo? && P.Congested(P.QinfoMessage(true, true, m.hopDelay, x.bitrate, x.share, x.retransmission, x.limit))
  }

  /** A QINFO asks for a rate, unless its target is unlimited. */
  predicate AsksForRate(m: Message, x: E.Measured) {
    ActedOn(m, x) && P.Target(x.bitrate, x.share) <= P.CEILING
  }

  /** A message after which its sender no longer asks for a rate. */
  predicate Releases(m: Message, x: E.Measured) {
    m.Answer() || (ActedOn(m, x) && !AsksForRate(m, x))
  }

  function Next(s: State, step: Step): State {
    match step
    case From(d, m, x) =>
      State(E.Handle(s.source, m, x),
            if AsksForRate(m, x) then s.asked + {d} else if Releases(m, x) then s.asked - {d} else s.asked)
    case IdleLink => s.(source := P.Next(s.source, P.IdleLink(true)))
  }

  ghost predicate Behavior(ss: seq<State>, steps: seq<Step>) {
    && |ss| == |steps| + 1
    && P.Initial(ss[0].source) && ss[0].asked == {}
    && forall i :: 0 <= i < |steps| ==> ss[i + 1] == Next(ss[i], steps[i])
  }

  /** While any destination asks for a rate, a rate is in force. */
  predicate Held(s: State) {
    s.asked != {} ==> s.source.qdisc.FqRate?
  }

  /** One destination releases the source while another one still asks for a rate. */
  predicate Disturbs(s: State, step: Step) {
    step.From? && Releases(step.m, step.measured) && s.asked - {step.d} != {}
  }

  /** The source's own link is idle while some destination asks for a rate. */
  predicate Withdraws(s: State, step: Step) {
    step.IdleLink? && s.asked != {}
  }

  lemma NextKeepsConsistent(s: State, step: Step)
    requires P.Consistent(s.source)
    ensures P.Consistent(Next(s, step).source)
  {
    match step
    case From(_, m, x) =>
      match m {
        case Start(_, _) =>
        case Qinfo(_, hopDelay, _, _) =>
          P.NextKeepsConsistent(
            s.source, P.QinfoMessage(true, true, hopDelay, x.bitrate, x.share, x.retransmission, x.limit));
        case Reset(_, _) => P.NextKeepsConsistent(s.source, P.ResetMessage(true, true));
        case Cleanup(_) => P.NextKeepsConsistent(s.source, P.CleanupMessage(true));
      }
    case IdleLink => P.NextKeepsConsistent(s.source, P.IdleLink(true));
  }

  /** What is asked for stays in force, except exactly where one destination releases what
      another one asked for, or where the source's link is idle. */
  lemma StepKeepsHeld(s: State, step: Step)
    requires P.Consistent(s.source) && Held(s)
    ensures Held(Next(s, step)) <==> !Disturbs(s, step) && !Withdraws(s, step)
  {
    match step
    case From(_, m, x) =>
      match m {
        case Start(_, _) =>
        case Qinfo(_, hopDelay, _, _) =>
          P.HandlerOutcomes(
            s.source, P.QinfoMessage(true, true, hopDelay, x.bitrate, x.share, x.retransmission, x.limit));
        case Reset(_, _) => P.HandlerOutcomes(s.source, P.ResetMessage(true, true));
        case Cleanup(_) => P.HandlerOutcomes(s.source, P.CleanupMessage(true));
      }
    case IdleLink => P.HandlerOutcomes(s.source, P.IdleLink(true));
  }

  lemma {:induction false} ConsistentThroughout(ss: seq<State>, steps: seq<Step>, i: nat)
    requires Behavior(ss, steps) && i <= |steps|
    ensures P.Consistent(ss[i].source)
  {
    if i > 0 {
      hide Next;
      ConsistentThroughout(ss, steps, i - 1);
      NextKeepsConsistent(ss[i - 1], steps[i - 1]);
      assert ss[i] == Next(ss[i - 1], steps[i - 1]);
    }
  }

  /** Over a whole run, with any number of destinations: a rate is in force whenever one is asked for,
      exactly if no destination disturbs another and the link is not idle while one asks. */
  lemma {:induction false} HeldThroughout(ss: seq<State>, steps: seq<Step>, n: nat)
    requires Behavior(ss, steps) && n <= |steps|
    ensures (forall i :: 0 <= i <= n ==> Held(ss[i])) <==>
            (forall i :: 0 <= i < n ==> !Disturbs(ss[i], steps[i]) && !Withdraws(ss[i], steps[i]))
  {
    if n > 0 {
      hide Next, Disturbs, Withdraws, Held;
      HeldThroughout(ss, steps, n - 1);
      ConsistentThroughout(ss, steps, n - 1);
      assert ss[n] == Next(ss[n - 1], steps[n - 1]);
      if Held(ss[n - 1]) {
        StepKeepsHeld(ss[n - 1], steps[n - 1]);
      }
    }
  }

  lemma {:induction false} OnlyOneAsks(ss: seq<State>, steps: seq<Step>, d: Ipv4, n: nat)
    requires Behavior(ss, steps) && n <= |steps|
    requires forall i :: 0 <= i < n && steps[i].From? ==> steps[i].d == d
    ensures ss[n].asked <= {d}
    ensures n < |steps| && steps[n].From? && steps[n].d == d ==> !Disturbs(ss[n], steps[n])
  {
    if n > 0 {
      hide E.Handle, P.Next, AsksForRate, Releases;
      OnlyOneAsks(ss, steps, d, n - 1);
      assert ss[n] == Next(ss[n - 1], steps[n - 1]);
    }
  }

  /** So a single destination is held to what it asks for exactly if the source's link is not idle meanwhile. */
  lemma OneDestinationIsHeld(ss: seq<State>, steps: seq<Step>, d: Ipv4, n: nat)
    requires Behavior(ss, steps) && n <= |steps|
    requires forall i :: 0 <= i < n && steps[i].From? ==> steps[i].d == d
    ensures (forall i :: 0 <= i <= n ==> Held(ss[i])) <==> (forall i :: 0 <= i < n ==> !Withdraws(ss[i], steps[i]))
    ensures forall i :: 0 <= i <= n ==> ss[i].asked <= {d}
  {
    hide Next, Held, Disturbs, Withdraws;
    HeldThroughout(ss, steps, n);
    forall i | 0 <= i <= n
      ensures ss[i].asked <= {d} && (i < n ==> !Disturbs(ss[i], steps[i]))
    {
      OnlyOneAsks(ss, steps, d, i);
      if i < n && steps[i].IdleLink? {
        IdleDisturbsNobody(ss[i], steps[i]);
      }
    }
  }

  lemma IdleDisturbsNobody(s: State, step: Step)
    requires step.IdleLink?
    ensures !Disturbs(s, step)
  {
  }

  /** An idle link does withdraw what a single destination asks for. */
  lemma IdleWithdraws(s: State, a: Ipv4, host: Ipv4) returns (ss: seq<State>, steps: seq<Step>)
    requires P.Initial(s.source) && s.asked == {}
    ensures Behavior(ss, steps) && |steps| == 2 && steps[0].From? && steps[0].d == a
    ensures ss[1].asked == {a} && ss[1].source.qdisc == P.FqRate(9.0)
    ensures ss[2].asked == {a} && ss[2].source.qdisc == P.Default && !Held(ss[2])
  {
    var s0 := From(a, Qinfo(1, 1, host, a), E.CONGESTED);
    var t1 := Next(s, s0);
    P.HandlerOutcomes(s.source, P.QinfoMessage(true, true, 1, 10.0, 0.9, 1.0, 0.0));
    NextKeepsConsistent(s, s0);
    P.HandlerOutcomes(t1.source, P.IdleLink(true));
    ss, steps := [s, t1, Next(t1, IdleLink)], [s0, IdleLink];
  }

  /** Two are enough to disturb: both ask for a rate, and the RESET of the first lifts all pacing. */
  lemma TwoDestinations(s: State, a: Ipv4, b: Ipv4, host: Ipv4) returns (ss: seq<State>, steps: seq<Step>)
    requires P.Initial(s.source) && s.asked == {} && a != b
    ensures Behavior(ss, steps) && |steps| == 3
    ensures forall i :: 0 <= i < 3 ==> steps[i].From? && steps[i].d in {a, b}
    ensures ss[2].asked == {a, b} && ss[2].source.qdisc == P.FqRate(9.0)
    ensures ss[3].asked == {b} && ss[3].source.qdisc == P.FqNoPacing
  {
    var s0, s1 := From(a, Qinfo(1, 1, host, a), E.CONGESTED), From(b, Qinfo(1, 1, host, b), E.CONGESTED);
    var s2 := From(a, Reset(host, a), E.CONGESTED);
    var t1 := Next(s, s0);
    P.HandlerOutcomes(s.source, P.QinfoMessage(true, true, 1, 10.0, 0.9, 1.0, 0.0));
    NextKeepsConsistent(s, s0);
    var t2 := Next(t1, s1);
    P.HandlerOutcomes(t1.source, P.QinfoMessage(true, true, 1, 10.0, 0.9, 1.0, 0.0));
    NextKeepsConsistent(t1, s1);
    var t3 := Next(t2, s2);
    P.HandlerOutcomes(t2.source, P.ResetMessage(true, true));
    ss, steps := [s, t1, t2, t3], [s0, s1, s2];
    hide P.Next, P.Consistent;
  }
}
