/** The source side: the shared record `sResetPacingBack`, the root queueing discipline that
    the issued `tc` commands leave behind, and every handler that changes the two. */
module Pacing {

  const REGULAR := 1
  const NOPACING := 99

  /** Stands for "as fast as the NIC"; every pacing value above `CEILING` becomes this one. */
  const UNLIMITED := 40.0
  const CEILING := 34.0
  const FLOOR := 2.0

  /** `flag` is the field `set`: 0, REGULAR or NOPACING; `rate` is `current_pacing` in Gb/s. */
  datatype Record = Record(flag: int, rate: real)

  datatype Qdisc = Default | FqRate(rate: real) | FqNoPacing

  /** `tc qdisc del`; `del` then `add ... fq maxrate`; `change ... fq maxrate`; `change ... fq nopacing`. */
  datatype Command = Delete | Replace(rate: real) | ChangeRate(rate: real) | ChangeNoPacing

  /** A source: its record and its root discipline. */
  datatype State = State(record: Record, qdisc: Qdisc)

  /** What a handler decides: the new record, and the command it runs, if any. */
  datatype Decision = Decision(record: Record, commands: seq<Command>)

  /** `tc qdisc change` needs a root discipline to change. */
  predicate Fails(q: Qdisc, c: Command) {
    q.Default? && (c.ChangeRate? || c.ChangeNoPacing?)
  }

  function Execute(q: Qdisc, c: Command): Qdisc {
    if Fails(q, c) then q
    else match c
      case Delete => Default
      case Replace(rate) => FqRate(rate)
      case ChangeRate(rate) => FqRate(rate)
      case ChangeNoPacing => FqNoPacing
  }

  function ExecuteAll(q: Qdisc, cs: seq<Command>): Qdisc {
    if cs == [] then q else Execute(ExecuteAll(q, cs[..|cs| - 1]), cs[|cs| - 1])
  }

  /** The events a source reacts to, each with the mode (tuning or learning) in force.
      `found` says whether the peer is in the table of destinations; `mayStart` is `vCanStartEvaluationTimer`. */
  datatype Event =
    | QinfoMessage(
        tuning: bool, found: bool, hopDelay: nat, bitrate: real, share: real, retransmission: real, limit: real)
    | ResetMessage(tuning: bool, found: bool)
    | CleanupMessage(tuning: bool)
    | IdleLink(tuning: bool)
    | Kafka(tuning: bool, mayStart: bool, bitrate: real, residual: real, speed: real)

  /** The pacing value a bitrate and the configured share of it ask for. */
  function Target(bitrate: real, share: real): (pace: real) {
    if bitrate * share > CEILING then UNLIMITED
    else if bitrate * share < FLOOR then FLOOR
    else bitrate * share
  }

  /** `fDoQinfoAssessment2` acts on a known destination: always when a hop delay is
      reported, otherwise only while too much is retransmitted. */
  predicate Congested(e: Event) {
    e.QinfoMessage? && e.bitrate != 0.0 && e.found && (e.hopDelay != 0 || e.retransmission > e.limit)
  }

  /** The retransmission branch records REGULAR even when it has just lifted the pacing. */
  function OnQinfo(r: Record, e: Event): Decision
    requires e.QinfoMessage?
  {
    var pace := Target(e.bitrate, e.share);
    if !Congested(e) || !e.tuning then Decision(r, [])
    else if r.flag == 0 then
      var capped := if pace > CEILING then CEILING else pace;
      Decision(Record(REGULAR, capped), [Replace(capped)])
    else if pace != UNLIMITED then Decision(Record(REGULAR, pace), [ChangeRate(pace)])
    else if r.flag == REGULAR then
      Decision(Record(if e.hopDelay != 0 then NOPACING else REGULAR, pace), [ChangeNoPacing])
    else Decision(r, [])
  }

  /** `fDoResetPacing2` */
  function OnReset(r: Record, e: Event): Decision
    requires e.ResetMessage?
  {
    if e.found && e.tuning && r.flag == REGULAR then Decision(Record(NOPACING, 0.0), [ChangeNoPacing])
    else Decision(r, [])
  }

  /** `fDoCleanupResetPacing2`, and the pacing part of an idle measurement. */
  function Undo(r: Record, tuning: bool): Decision {
    if r.flag != 0 && tuning then Decision(Record(0, 0.0), [Delete]) else Decision(r, [])
  }

  /** The pacing that residual bandwidth on the path leaves room for. */
  function Headroom(e: Event): (pace: real)
    requires e.Kafka?
  {
    if (e.bitrate + e.residual) * 0.95 > CEILING then UNLIMITED else (e.bitrate + e.residual) * 0.95
  }

  /** Whether the path could take nearly the full speed of the NIC. */
  predicate Saturates(e: Event)
    requires e.Kafka?
  {
    e.bitrate + e.residual >= e.speed * 0.95 || Headroom(e) >= e.speed * 0.95
  }

  /** `fDoQinfoAssessmentKafka` */
  function OnKafka(r: Record, e: Event): Decision
    requires e.Kafka?
  {
    var pace := Headroom(e);
    if e.bitrate == 0.0 || !e.tuning || !e.mayStart then Decision(r, [])
    else if Saturates(e) then
      if r.flag == REGULAR then Decision(Record(NOPACING, 0.0), [ChangeNoPacing]) else Decision(r, [])
    else if pace < e.speed * 0.10 then Decision(r, [])
    else if r.flag == 0 then Decision(Record(REGULAR, pace), [Replace(pace)])
    else if r.rate * 0.95 != pace then Decision(Record(REGULAR, pace), [ChangeRate(pace)])
    else Decision(r, [])
  }

  function Decide(r: Record, e: Event): Decision {
    match e
    case QinfoMessage(_, _, _, _, _, _, _) => OnQinfo(r, e)
    case ResetMessage(_, _) => OnReset(r, e)
    case CleanupMessage(tuning) => Undo(r, tuning)
    case IdleLink(tuning) => Undo(r, tuning)
    case Kafka(_, _, _, _, _) => OnKafka(r, e)
  }

  function Next(s: State, e: Event): State {
    var d := Decide(s.record, e);
    State(d.record, ExecuteAll(s.qdisc, d.commands))
  }

  predicate Initial(s: State) {
    s == State(Record(0, 0.0), Default)
  }

  /** The record tells the truth about the discipline, as far as the handlers rely on it. */
  predicate Consistent(s: State) {
    && s.record.flag in {0, REGULAR, NOPACING}
    && (s.record.flag == 0 <==> s.qdisc.Default?)
    && (s.record.flag == 0 ==> s.record.rate == 0.0)
    && (s.record.flag == NOPACING ==> s.qdisc.FqNoPacing?)
    && (s.record.flag == REGULAR ==> s.record.rate <= UNLIMITED)
    && (s.record.flag == REGULAR && s.record.rate < UNLIMITED ==> s.qdisc == FqRate(s.record.rate))
    && (s.qdisc.FqRate? ==> s.qdisc.rate == s.record.rate)
    && (s.qdisc.FqNoPacing? ==> s.record.rate == 0.0 || s.record.rate == UNLIMITED)
  }

  lemma ExecuteOne(q: Qdisc, c: Command)
    ensures ExecuteAll(q, [c]) == Execute(q, c)
  {
    assert [c][..0] == [];
  }

  /** Every handler, in either mode, keeps record and discipline consistent, and runs no command
      that fails; it sets up a discipline exactly where there is none, and changes or removes it where there is one. */
  lemma NextKeepsConsistent(s: State, e: Event)
    requires Consistent(s)
    ensures Consistent(Next(s, e))
    ensures |Decide(s.record, e).commands| <= 1
    ensures forall c :: c in Decide(s.record, e).commands ==> !Fails(s.qdisc, c) && (c.Replace? <==> s.qdisc.Default?)
  {
    var d := Decide(s.record, e);
    if d.commands != [] {
      ExecuteOne(s.qdisc, d.commands[0]);
    }
  }

  /** A history of a source from its initial state. */
  ghost predicate Behavior(ss: seq<State>, es: seq<Event>) {
    && |ss| == |es| + 1
    && Initial(ss[0])
    && forall i :: 0 <= i < |es| ==> ss[i + 1] == Next(ss[i], es[i])
  }

  /** Over any history the record stays consistent: the flag is 0, 1 or 99, so the branches
      for other values are dead, and `tc qdisc change` never meets a missing root. */
  lemma {:induction false} AlwaysConsistent(ss: seq<State>, es: seq<Event>, i: nat)
    requires Behavior(ss, es) && i <= |es|
    ensures Consistent(ss[i])
    ensures i < |es| ==> forall c :: c in Decide(ss[i].record, es[i]).commands ==> !Fails(ss[i].qdisc, c)
  {
    hide Decide;
    if i > 0 {
      AlwaysConsistent(ss, es, i - 1);
      assert ss[i] == Next(ss[i - 1], es[i - 1]);
      NextKeepsConsistent(ss[i - 1], es[i - 1]);
    }
    if i < |es| {
      NextKeepsConsistent(ss[i], es[i]);
    }
  }

  /** What the link is held to after each event in tuning mode, by what was measured and by the discipline before.
      A QINFO is acted on if it names a hop delay or too much is retransmitted: it sets the share of the bitrate, raised
      to 2 Gb/s; if that exceeds 34, the ceiling on an unpaced source and no pacing on a paced one. A RESET
      lifts all pacing but keeps the discipline; a CLEANUP or an idle link removes it. */
  lemma HandlerOutcomes(s: State, e: Event)
    requires Consistent(s) && !e.Kafka? && e.tuning
    ensures var q := Next(s, e).qdisc;
            match e
            case QinfoMessage(_, found, hopDelay, bitrate, share, retransmission, limit) =>
              q == (if bitrate == 0.0 || !found || (hopDelay == 0 && retransmission <= limit) then s.qdisc
                    else if bitrate * share < 2.0 then FqRate(2.0)
                    else if bitrate * share <= 34.0 then FqRate(bitrate * share)
                    else if s.qdisc.Default? then FqRate(34.0)
                    else FqNoPacing)
            case ResetMessage(_, found) => q == (if !found || s.qdisc.Default? then s.qdisc else FqNoPacing)
            case _ => q == Default
    ensures e.ResetMessage? && e.found && s.record.flag == REGULAR ==> Next(s, e).record == Record(NOPACING, 0.0)
  {
    hide Target;
    var d := Decide(s.record, e);
    if d.commands != [] {
      ExecuteOne(s.qdisc, d.commands[0]);
    }
    if e.QinfoMessage? {
      TargetBounds(e.bitrate, e.share, e.bitrate * e.share);
    }
  }

  lemma TargetBounds(bitrate: real, share: real, shared: real)
    requires shared == bitrate * share
    ensures Target(bitrate, share) == if shared < 2.0 then 2.0 else if shared <= 34.0 then shared else 40.0
  {
  }

  /** What a Kafka message leads to in tuning mode on a NIC of the given speed, by the bandwidth that the
      path offers, used and residual. Nothing while there is no bitrate or a window is open. If the offer
      comes within 5% of the speed, or 95% of it exceed 34 Gb/s on a NIC of at most 42, pacing is lifted. Otherwise the
      source is held to 95% of the offer, or to 40 Gb/s if that exceeds 34, unless that is less than
      a tenth of the speed, or 95% of the rate in force already. */
  lemma KafkaOutcomes(s: State, e: Event)
    requires Consistent(s) && e.Kafka? && e.tuning && e.speed > 0.0
    ensures var q, offer := Next(s, e).qdisc, e.bitrate + e.residual;
            var rate := if offer * 0.95 > 34.0 then 40.0 else offer * 0.95;
            q == (if e.bitrate == 0.0 || !e.mayStart then s.qdisc
                  else if offer >= e.speed * 0.95 || (offer * 0.95 > 34.0 && e.speed * 0.95 <= 40.0) then
                    if s.qdisc.Default? then Default else FqNoPacing
                  else if rate < e.speed * 0.1 then s.qdisc
                  else if s.qdisc.FqRate? && s.qdisc.rate * 0.95 == rate then s.qdisc
                  else FqRate(rate))
    ensures Next(s, e).record == s.record || Next(s, e).qdisc == FqRate(Next(s, e).record.rate)
            || Next(s, e).record == Record(NOPACING, 0.0)
  {
    var d := Decide(s.record, e);
    if d.commands != [] {
      ExecuteOne(s.qdisc, d.commands[0]);
    }
  }

  lemma LearningModeIsInert(s: State, e: Event)
    requires !e.tuning
    ensures Next(s, e) == s && Decide(s.record, e).commands == []
  {
  }

  /** The events of a history that happened in tuning mode. */
  function InTuningMode(es: seq<Event>): seq<Event> {
    if es == [] then []
    else InTuningMode(es[..|es| - 1]) + if es[|es| - 1].tuning then [es[|es| - 1]] else []
  }

  /** However often the mode is switched, a history ends where its events in tuning mode alone would have led. */
  lemma {:induction false} OnlyTuningCounts(ss: seq<State>, es: seq<Event>) returns (ts: seq<State>)
    requires Behavior(ss, es)
    ensures Behavior(ts, InTuningMode(es)) && ts[|InTuningMode(es)|] == ss[|es|]
  {
    hide Next;
    if es == [] {
      ts := ss;
    } else {
      var n := |es| - 1;
      assert ss[n + 1] == Next(ss[n], es[n]);
      ts := OnlyTuningCounts(ss[..n + 1], es[..n]);
      if es[n].tuning {
        ts := ts + [ss[n + 1]];
      } else {
        LearningModeIsInert(ss[n], es[n]);
      }
    }
  }

  /** Whatever the bitrate, the configured share and the record, a QINFO sets a rate between 2 and 34 Gb/s;
      below the ceiling it is exactly the share of the bitrate, raised to 2 if need be. */
  lemma QinfoRates(r: Record, e: Event, c: Command)
    requires e.QinfoMessage? && c in OnQinfo(r, e).commands
    ensures c.Replace? || c.ChangeRate? ==>
              && FLOOR <= c.rate <= CEILING
              && (|| c.rate == e.bitrate * e.share
                  || c.rate == FLOOR > e.bitrate * e.share
                  || (c.rate == CEILING < e.bitrate * e.share && r.flag == 0))
    ensures c.ChangeNoPacing? ==> e.bitrate * e.share > CEILING && r.flag == REGULAR
  {
  }

  /** A Kafka message sets a rate of at least a tenth and under 95% of the speed of the NIC. */
  lemma KafkaRates(r: Record, e: Event, c: Command)
    requires e.Kafka? && c in OnKafka(r, e).commands
    ensures c.Replace? || c.ChangeRate? ==> e.speed * 0.10 <= c.rate < e.speed * 0.95 && c.rate <= UNLIMITED
    ensures c.ChangeNoPacing? ==> r.flag == REGULAR
  {
  }

  /** A record that says REGULAR means that a rate is in force. */
  predicate Truthful(s: State) {
    s.record.flag == REGULAR ==> s.qdisc.FqRate?
  }

  /** The retransmission branch, meeting a REGULAR record, finds the rate above the ceiling. */
  predicate LiftsUnrecorded(r: Record, e: Event) {
    Congested(e) && e.tuning && r.flag == REGULAR && e.hopDelay == 0 && e.bitrate * e.share > CEILING
  }

  /** Every event keeps the record truthful, with exactly that exception. */
  lemma StepKeepsTruthful(s: State, e: Event)
    requires Consistent(s) && Truthful(s)
    ensures Truthful(Next(s, e)) <==> !LiftsUnrecorded(s.record, e)
  {
    var d := Decide(s.record, e);
    if d.commands != [] {
      ExecuteOne(s.qdisc, d.commands[0]);
    }
  }

  /** Over a whole run: the record is truthful in every state exactly if that branch never lifts a pacing. */
  lemma {:induction false} RegularThoughUnpaced(ss: seq<State>, es: seq<Event>, n: nat)
    requires Behavior(ss, es) && n <= |es|
    ensures (forall i :: 0 <= i <= n ==> Truthful(ss[i])) <==>
            (forall i :: 0 <= i < n ==> !LiftsUnrecorded(ss[i].record, es[i]))
  {
    hide Decide, LiftsUnrecorded, Consistent, Truthful;
    if n == 0 {
      InitiallyTruthful(ss[0]);
    } else {
      RegularThoughUnpaced(ss, es, n - 1);
      AlwaysConsistent(ss, es, n - 1);
      assert ss[n] == Next(ss[n - 1], es[n - 1]);
      if Truthful(ss[n - 1]) {
        StepKeepsTruthful(ss[n - 1], es[n - 1]);
      }
    }
  }

  /** The branch is reached: a QINFO with a hop delay sets 9 Gb/s, and one without, at
      39 Gb/s with too much retransmitted, lifts that and still records REGULAR. */
  lemma LiftedUnrecorded(s: State) returns (ss: seq<State>, es: seq<Event>)
    requires Initial(s)
    ensures Behavior(ss, es) && |es| == 2 && ss[0] == s
    ensures ss[1] == State(Record(REGULAR, 9.0), FqRate(9.0))
    ensures ss[2].record.flag == REGULAR && ss[2].qdisc.FqNoPacing? && !Truthful(ss[2])
  {
    var e0, e1 := QinfoMessage(true, true, 1, 10.0, 0.9, 0.0, 1.0), QinfoMessage(true, true, 0, 39.0, 0.9, 2.0, 1.0);
    var t1 := Next(s, e0);
    ExecuteOne(Default, Replace(9.0));
    ExecuteOne(t1.qdisc, ChangeNoPacing);
    ss, es := [s, t1, Next(t1, e1)], [e0, e1];
  }

  lemma InitiallyTruthful(s: State)
    requires Initial(s)
    ensures Truthful(s)
  {
  }

  /** The shared record and the handlers that update it in place. `qdisc` is
      what the kernel holds, and `issued` every `tc` command run so far. */
  class Source {
    var record: Record
    ghost var qdisc: Qdisc
    ghost var issued: seq<Command>

    ghost function View(): State
      reads this
    {
      State(record, qdisc)
    }

    ghost predicate Took(s: State, before: seq<Command>, e: Event)
      reads this
    {
      View() == Next(s, e) && issued == before + Decide(s.record, e).commands
    }

    constructor ()
      ensures Initial(View()) && Consistent(View()) && issued == []
    {
      record, qdisc, issued := Record(0, 0.0), Default, [];
    }

    /** `system` on one `tc` command. */
    method System(c: Command)
      modifies this`qdisc, this`issued
      ensures qdisc == ExecuteAll(old(qdisc), [c]) && issued == old(issued) + [c]
    {
      ExecuteOne(qdisc, c);
      qdisc := Execute(qdisc, c);
      issued := issued + [c];
    }

    /** `fDoQinfoAssessment2` */
    method QinfoAssessment(
      tuning: bool, found: bool, hopDelay: nat, bitrate: real, share: real, retransmission: real, limit: real)
      requires Consistent(View())
      modifies this
      ensures Took(
                old(View()), old(issued),
                QinfoMessage(tuning, found, hopDelay, bitrate, share, retransmission, limit))
      ensures Consistent(View())
    {
      NextKeepsConsistent(View(), QinfoMessage(tuning, found, hopDelay, bitrate, share, retransmission, limit));
      if bitrate == 0.0 {
        return;
      }
      var newPacing := bitrate * share;
      if newPacing > 34.0 {
        newPacing := 40.0;
      }
      if newPacing < 2.0 {
        newPacing := 2.0;
      }
      var setting, flag := Delete, 0;
      if found && hopDelay != 0 {
        if record.flag != 0 {
          if newPacing == 40.0 {
            if record.flag == NOPACING {
              return;
            }
            assert record.flag == REGULAR;
            setting, flag := ChangeNoPacing, NOPACING;
          } else {
            setting, flag := ChangeRate(newPacing), REGULAR;
          }
        } else {
          if newPacing > 34.0 {
            newPacing := 34.0;
          }
          setting, flag := Replace(newPacing), REGULAR;
        }
        if tuning {
          System(setting);
          record := Record(flag, newPacing);
        }
      } else if found && hopDelay == 0 && retransmission > limit {
        if record.flag != 0 {
          if newPacing == 40.0 {
            if record.flag == NOPACING {
              return;
            }
            assert record.flag == REGULAR;
            setting := ChangeNoPacing;
          } else {
            setting := ChangeRate(newPacing);
          }
        } else {
          if newPacing > 34.0 {
            newPacing := 34.0;
          }
          setting := Replace(newPacing);
        }
        if tuning {
          System(setting);
          record := Record(REGULAR, newPacing);
        }
      }
    }

    /** `fDoResetPacing2` */
    method ResetPacing(tuning: bool, found: bool)
      requires Consistent(View())
      modifies this
      ensures Took(old(View()), old(issued), ResetMessage(tuning, found))
      ensures Consistent(View())
    {
      NextKeepsConsistent(View(), ResetMessage(tuning, found));
      if found && record.flag != 0 && tuning && record.flag != NOPACING {
        assert record.flag == REGULAR;
        record := Record(NOPACING, 0.0);
        System(ChangeNoPacing);
      }
    }

    /** `fDoCleanupResetPacing2` */
    method CleanupResetPacing(tuning: bool)
      requires Consistent(View())
      modifies this
      ensures Took(old(View()), old(issued), CleanupMessage(tuning))
      ensures Consistent(View())
    {
      NextKeepsConsistent(View(), CleanupMessage(tuning));
      if record.flag != 0 && tuning {
        record := Record(0, 0.0);
        System(Delete);
      }
    }

    /** `fDoQinfoAssessmentKafka`; `starts` tells the caller to start the evaluation timer. */
    method QinfoAssessmentKafka(tuning: bool, mayStart: bool, bitrate: real, residual: real, speed: real)
      returns (starts: bool)
      requires Consistent(View())
      modifies this
      ensures Took(old(View()), old(issued), Kafka(tuning, mayStart, bitrate, residual, speed))
      ensures Consistent(View())
      ensures starts <==> issued != old(issued)
    {
      NextKeepsConsistent(View(), Kafka(tuning, mayStart, bitrate, residual, speed));
      starts := false;
      if bitrate == 0.0 {
        return;
      }
      var wasSet := record.flag != 0;
      var newPacing := (bitrate + residual) * 0.95;
      if newPacing > 34.0 {
        newPacing := 40.0;
      }
      if bitrate + residual < speed * 0.95 {
        if newPacing >= speed * 0.95 {
          if tuning && wasSet && record.flag == REGULAR && mayStart {
            record := Record(NOPACING, 0.0);
            System(ChangeNoPacing);
            starts := true;
          }
          return;
        }
        if newPacing < speed * 0.10 {
          return;
        }
        if !wasSet || record.rate * 0.95 < newPacing || record.rate * 0.95 > newPacing {
          if tuning && mayStart {
            System(if wasSet then ChangeRate(newPacing) else Replace(newPacing));
            record := Record(REGULAR, newPacing);
            starts := true;
          }
        }
      } else if tuning && wasSet && record.flag == REGULAR && mayStart {
        record := Record(NOPACING, 0.0);
        System(ChangeNoPacing);
        starts := true;
      }
    }
  }
}
