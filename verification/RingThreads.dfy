/** The producers and the one consumer of `sMsg` as interleaved steps: one mutex,
    the condition variables `full` and `empty`, and POSIX wake-up rules, under
    which a wait may also end without any signal. */
module RingThreads {
  import opened Messages
  import opened MessageRing

  /** Who holds `dtn_mutex`, and at which point of its critical section. */
  datatype Holder =
    | Nobody
    | ProducerTests(p: nat, m: Message)
    | ProducerSignals
    | ConsumerTests
    | ConsumerSignals
    | Leaving(consumer: bool)
  {
    predicate Consuming() {
      ConsumerTests? || ConsumerSignals? || (Leaving? && consumer)
    }
  }

  datatype Consumer = Outside | Inside | Asleep | Woken

  /** `asleep` and `woken` hold the producers in `pthread_cond_wait(&empty)`, each with
      its message: not yet woken, or woken and on its way back to the mutex. `put` and `got` log everything ever written
      to and read from the ring, `writers` who wrote it, `visits` how often the consumer has come for a message. */
  datatype System = System(
    ring: Ring<Message>, holder: Holder,
    asleep: map<nat, Message>, woken: map<nat, Message>, consumer: Consumer,
    put: seq<Message>, writers: seq<nat>, got: seq<Message>, visits: nat)

  datatype Step =
    | ProducerLocks(p: nat, m: Message)
    | ProducerRelocks(p: nat)
    | ProducerTest
    | ProducerSignal
    | ConsumerLocks
    | ConsumerTest
    | ConsumerSignal(wake: nat)
    | Unlock
    | ProducerSpurious(p: nat)
    | ConsumerSpurious
  {
    predicate Spurious() {
      ProducerSpurious? || ConsumerSpurious?
    }
  }

  predicate Enabled(s: System, step: Step) {
    match step
    case ProducerLocks(p, _) => s.holder.Nobody? && p !in s.asleep && p !in s.woken
    case ProducerRelocks(p) => s.holder.Nobody? && p in s.woken
    case ProducerTest => s.holder.ProducerTests?
    case ProducerSignal => s.holder.ProducerSignals?
    case ConsumerLocks => s.holder.Nobody? && (s.consumer.Outside? || s.consumer.Woken?)
    case ConsumerTest => s.holder.ConsumerTests?
    case ConsumerSignal(wake) => s.holder.ConsumerSignals? && (s.asleep == map[] || wake in s.asleep)
    case Unlock => s.holder.Leaving?
    case ProducerSpurious(p) => p in s.asleep
    case ConsumerSpurious => s.consumer.Asleep?
  }

  /** A sleeping producer becomes runnable. */
  function Awaken(s: System, p: nat): (s': System)
    requires p in s.asleep
  {
    s.(asleep := s.asleep - {p}, woken := s.woken[p := s.asleep[p]])
  }

  function Next(s: System, step: Step): (s': System)
    requires Valid(s.ring) && Enabled(s, step)
  {
    match step
    case ProducerLocks(p, m) => s.(holder := ProducerTests(p, m))
    case ProducerRelocks(p) => s.(holder := ProducerTests(p, s.woken[p]), woken := s.woken - {p})
    case ProducerTest =>
      var ProducerTests(p, m) := s.holder;
      if Full(s.ring) then
        s.(holder := Nobody, asleep := s.asleep[p := m])
      else
        s.(holder := ProducerSignals, ring := Put(s.ring, m), put := s.put + [m], writers := s.writers + [p])
    case ProducerSignal =>
      s.(holder := Leaving(false), consumer := if s.consumer.Asleep? then Woken else s.consumer)
    case ConsumerLocks =>
      s.(holder := ConsumerTests, consumer := Inside, visits := if s.consumer.Outside? then s.visits + 1 else s.visits)
    case ConsumerTest =>
      if Empty(s.ring) then
        s.(holder := Nobody, consumer := Asleep)
      else
        s.(holder := ConsumerSignals, ring := Take(s.ring), got := s.got + [s.ring.slots[s.ring.first]])
    case ConsumerSignal(wake) =>
      (if s.asleep == map[] then s else Awaken(s, wake)).(holder := Leaving(true))
    case Unlock =>
      s.(holder := Nobody, consumer := if s.holder.consumer then Outside else s.consumer)
    case ProducerSpurious(p) => Awaken(s, p)
    case ConsumerSpurious => s.(consumer := Woken)
  }

  predicate Initial(s: System) {
    && Valid(s.ring) && Empty(s.ring)
    && s.holder.Nobody? && s.consumer.Outside?
    && s.asleep == map[] && s.woken == map[] && s.put == [] && s.writers == []
    && s.got == [] && s.visits == 0
  }

  /** `s` leads to `t` by the given steps, each enabled when it is taken. */
  ghost predicate Leads(s: System, steps: seq<Step>, t: System)
    decreases |steps|
  {
    if steps == [] then s == t
    else exists u: System ::
      && Leads(s, steps[..|steps| - 1], u)
      && Valid(u.ring) && Enabled(u, steps[|steps| - 1]) && t == Next(u, steps[|steps| - 1])
  }

  ghost predicate Reachable(t: System) {
    exists s: System, steps: seq<Step> :: Initial(s) && Leads(s, steps, t)
  }

  function FreeSlots(r: Ring<Message>): int
    requires Valid(r)
  {
    CAPACITY - Count(r)
  }

  /** Wake-ups under way but not counted in `woken`: a producer about to re-test,
      or the consumer about to signal the slot it has just freed. */
  function InFlight(h: Holder): nat {
    if h.ProducerTests? || h.ConsumerSignals? then 1 else 0
  }

  /** The logs agree with the ring. */
  predicate Fifo(s: System) {
    Valid(s.ring) && s.put == s.got + Contents(s.ring)
  }

  /** A sleeping consumer, or sleeping producers, are explained by the state of the ring. */
  predicate Wakeups(s: System) {
    && Valid(s.ring)
    && (s.consumer.Inside? <==> s.holder.Consuming())
    && (s.consumer.Asleep? ==> Empty(s.ring) || s.holder.ProducerSignals?)
    && (s.asleep != map[] ==> FreeSlots(s.ring) <= |s.woken| + InFlight(s.holder))
  }

  /** No producer is in two places. */
  predicate Apart(s: System) {
    && s.asleep.Keys !! s.woken.Keys
    && (s.holder.ProducerTests? ==> s.holder.p !in s.asleep && s.holder.p !in s.woken)
  }

  predicate Inv(s: System) {
    Fifo(s) && Wakeups(s) && Apart(s)
  }

  lemma NextKeepsFifo(s: System, step: Step)
    requires Fifo(s) && Enabled(s, step)
    ensures Fifo(Next(s, step))
  {
    hide Contents, Put, Take;
    if step.ProducerTest? && !Full(s.ring) {
      PutAppends(s.ring, s.holder.m);
      assert s.put + [s.holder.m] == s.got + (Contents(s.ring) + [s.holder.m]);
    } else if step.ConsumerTest? && !Empty(s.ring) {
      TakeRemovesOldest(s.ring);
      var m := s.ring.slots[s.ring.first];
      assert s.got + ([m] + Contents(Take(s.ring))) == (s.got + [m]) + Contents(Take(s.ring));
    }
  }

  lemma NextKeepsApart(s: System, step: Step)
    requires Valid(s.ring) && Enabled(s, step) && Apart(s)
    ensures Apart(Next(s, step))
  {
  }

  lemma AwakenCounts(s: System, p: nat)
    requires p in s.asleep && p !in s.woken
    ensures |Awaken(s, p).woken| == |s.woken| + 1
  {
  }

  lemma RelockCounts(woken: map<nat, Message>, p: nat)
    requires p in woken
    ensures |woken - {p}| == |woken| - 1
  {
    var rest := woken - {p};
    assert rest.Keys == woken.Keys - {p};
    assert |rest| == |rest.Keys| && |woken| == |woken.Keys|;
  }

  lemma PutCounts(r: Ring<Message>, m: Message)
    requires Valid(r)
    ensures !Full(r) ==> Valid(Put(r, m)) && Count(Put(r, m)) == Count(r) + 1
    ensures Full(r) ==> FreeSlots(r) == 0
  {
  }

  lemma ProducerKeepsWakeups(s: System, step: Step)
    requires Wakeups(s) && Apart(s) && Enabled(s, step)
    requires step.ProducerLocks? || step.ProducerRelocks? || step.ProducerTest? || step.ProducerSignal?
    ensures Wakeups(Next(s, step))
  {
    hide Contents, Count, After;
    if step.ProducerRelocks? {
      RelockCounts(s.woken, step.p);
    } else if step.ProducerTest? {
      PutCounts(s.ring, s.holder.m);
    }
  }

  lemma ConsumerKeepsWakeups(s: System, step: Step)
    requires Wakeups(s) && Apart(s) && Enabled(s, step)
    requires step.ConsumerLocks? || step.ConsumerTest? || step.ConsumerSignal? || step.Unlock?
    ensures Wakeups(Next(s, step))
  {
    hide Contents;
    if step.ConsumerSignal? && s.asleep != map[] {
      AwakenCounts(s, step.wake);
    }
  }

  lemma SpuriousKeepsWakeups(s: System, step: Step)
    requires Wakeups(s) && Apart(s) && Enabled(s, step) && step.Spurious()
    ensures Wakeups(Next(s, step))
  {
    if step.ProducerSpurious? {
      AwakenCounts(s, step.p);
    }
  }

  /** Every step of every thread keeps the invariant. */
  lemma NextKeepsInv(s: System, step: Step)
    requires Inv(s) && Enabled(s, step)
    ensures Inv(Next(s, step))
  {
    hide Next, Contents, Wakeups, Apart;
    NextKeepsFifo(s, step);
    NextKeepsApart(s, step);
    match step {
      case ProducerLocks(_, _) => ProducerKeepsWakeups(s, step);
      case ProducerRelocks(_) => ProducerKeepsWakeups(s, step);
      case ProducerTest => ProducerKeepsWakeups(s, step);
      case ProducerSignal => ProducerKeepsWakeups(s, step);
      case ProducerSpurious(_) => SpuriousKeepsWakeups(s, step);
      case ConsumerSpurious => SpuriousKeepsWakeups(s, step);
      case _ => ConsumerKeepsWakeups(s, step);
    }
  }

  lemma {:induction false} LeadsKeepsInv(s: System, steps: seq<Step>, t: System)
    requires Initial(s) && Leads(s, steps, t)
    ensures Inv(t)
    decreases |steps|
  {
    if steps == [] {
      IndexTests(s.ring);
    } else {
      var u: System :|
        && Leads(s, steps[..|steps| - 1], u)
        && Valid(u.ring) && Enabled(u, steps[|steps| - 1]) && t == Next(u, steps[|steps| - 1]);
      LeadsKeepsInv(s, steps[..|steps| - 1], u);
      NextKeepsInv(u, steps[|steps| - 1]);
    }
  }

  lemma ReachableInv(s: System)
    requires Reachable(s)
    ensures Inv(s)
  {
    var s0: System, steps: seq<Step> :| Initial(s0) && Leads(s0, steps, s);
    LeadsKeepsInv(s0, steps, s);
  }

  /** No wake-up is lost: whenever the mutex is free, an unsignalled sleeping consumer has nothing to
      read, and unsignalled sleeping producers are outnumbered by no more free slots than woken ones. */
  lemma NoLostWakeup(s: System)
    requires Reachable(s) && s.holder.Nobody?
    ensures s.consumer.Asleep? ==> Contents(s.ring) == []
    ensures s.asleep != map[] ==> CAPACITY - |Contents(s.ring)| <= |s.woken|
  {
    ReachableInv(s);
    IndexTests(s.ring);
  }

  /** Consumer and producers are never all asleep: if both kinds sleep,
      some producer has been woken, or some thread is inside its critical section. */
  lemma NeverAllAsleep(s: System)
    requires Reachable(s) && s.consumer.Asleep? && s.asleep != map[]
    ensures s.woken != map[] || !s.holder.Nobody?
  {
    ReachableInv(s);
    IndexTests(s.ring);
  }

  /** No deadlock: while a message is unread or a producer is waiting, some thread
      that already takes part can move, and not by a spurious wake-up. */
  lemma NoDeadlock(s: System) returns (step: Step)
    requires Reachable(s)
    requires s.asleep != map[] || s.woken != map[] || Contents(s.ring) != []
    ensures Enabled(s, step) && !step.Spurious() && !step.ProducerLocks?
  {
    ReachableInv(s);
    IndexTests(s.ring);
    match s.holder
    case ProducerTests(_, _) => step := ProducerTest;
    case ProducerSignals => step := ProducerSignal;
    case ConsumerTests => step := ConsumerTest;
    case ConsumerSignals =>
      if s.asleep == map[] {
        step := ConsumerSignal(0);
      } else {
        var p :| p in s.asleep;
        step := ConsumerSignal(p);
      }
    case Leaving(_) => step := Unlock;
    case Nobody =>
      if s.woken == map[] {
        step := ConsumerLocks;
      } else {
        var p :| p in s.woken;
        step := ProducerRelocks(p);
      }
  }

  /** Under every interleaving the consumer reads exactly what was written, in order,
      at most 19 messages behind, and what it has not read is what the ring holds. */
  lemma FifoOverRuns(s: System)
    requires Reachable(s)
    ensures Valid(s.ring) && s.got <= s.put && s.put[|s.got|..] == Contents(s.ring)
    ensures |s.put| - |s.got| <= CAPACITY
  {
    ReachableInv(s);
    IndexTests(s.ring);
  }

  // ---------------------------------------------------------------- conservation

  /** The messages that producer `p` has written so far, in order. */
  function WrittenBy(put: seq<Message>, writers: seq<nat>, p: nat): seq<Message>
    requires |put| == |writers|
  {
    if put == [] then []
    else
      var n := |put| - 1;
      WrittenBy(put[..n], writers[..n], p) + if writers[n] == p then [put[n]] else []
  }

  /** The message that producer `p` still holds, if any. */
  function HeldBy(s: System, p: nat): seq<Message> {
    if s.holder.ProducerTests? && s.holder.p == p then [s.holder.m]
    else if p in s.asleep then [s.asleep[p]]
    else if p in s.woken then [s.woken[p]]
    else []
  }

  /** The messages with which producer `p` has come to the ring, in order. */
  function Brought(steps: seq<Step>, p: nat): seq<Message> {
    if steps == [] then []
    else
      var last := steps[|steps| - 1];
      Brought(steps[..|steps| - 1], p) + if last.ProducerLocks? && last.p == p then [last.m] else []
  }

  /** A step takes no message away from a producer except by writing it, and brings one only where it says so. */
  lemma NextKeepsMessages(s: System, step: Step, p: nat)
    requires Valid(s.ring) && Apart(s) && Enabled(s, step) && |s.put| == |s.writers|
    ensures var t := Next(s, step);
            && |t.put| == |t.writers| && s.put <= t.put
            && WrittenBy(t.put, t.writers, p) + HeldBy(t, p) ==
               WrittenBy(s.put, s.writers, p) + HeldBy(s, p)
               + if step.ProducerLocks? && step.p == p then [step.m] else []
  {
    hide Contents, Take, Put, WrittenBy;
    match step {
      case ProducerTest =>
        if !Full(s.ring) {
          WrittenPlus(s.put, s.writers, s.holder.m, s.holder.p, p);
        }
      case _ =>
        OnlyWritersWrite(s, step);
        HeldOtherwise(s, step, p);
    }
  }

  lemma OnlyWritersWrite(s: System, step: Step)
    requires Valid(s.ring) && Enabled(s, step) && !step.ProducerTest?
    ensures Next(s, step).put == s.put && Next(s, step).writers == s.writers
  {
  }

  lemma HeldOtherwise(s: System, step: Step, p: nat)
    requires Valid(s.ring) && Apart(s) && Enabled(s, step) && !step.ProducerTest?
    ensures HeldBy(Next(s, step), p) == HeldBy(s, p) + if step.ProducerLocks? && step.p == p then [step.m] else []
  {
    hide Contents, Take, Put, Full, Empty;
  }

  lemma WrittenPlus(put: seq<Message>, writers: seq<nat>, m: Message, w: nat, p: nat)
    requires |put| == |writers|
    ensures WrittenBy(put + [m], writers + [w], p) == WrittenBy(put, writers, p) + if w == p then [m] else []
  {
    assert (put + [m])[..|put|] == put && (writers + [w])[..|put|] == writers;
  }

  /** Conservation, under every interleaving: the messages that a producer has brought are, in order, those
      that it has written and then the one that it still holds. None is lost, doubled or overtaken. */
  lemma {:induction false} MessagesConserved(s: System, steps: seq<Step>, t: System, p: nat)
    requires Initial(s) && Leads(s, steps, t)
    ensures |t.put| == |t.writers| && Brought(steps, p) == WrittenBy(t.put, t.writers, p) + HeldBy(t, p)
    decreases |steps|
  {
    if steps != [] {
      hide Next, HeldBy, WrittenBy, Enabled;
      var front, last := steps[..|steps| - 1], steps[|steps| - 1];
      var u: System :| Leads(s, front, u) && Valid(u.ring) && Enabled(u, last) && t == Next(u, last);
      MessagesConserved(s, front, u, p);
      LeadsKeepsInv(s, front, u);
      NextKeepsMessages(u, last, p);
    }
  }

  /** Whether the consumer has come for a message that it has not yet taken. */
  predicate Wants(s: System) {
    !s.consumer.Outside? && !s.holder.ConsumerSignals? && !(s.holder.Leaving? && s.holder.consumer)
  }

  predicate VisitsCounted(s: System) {
    && (s.consumer.Inside? <==> s.holder.Consuming())
    && s.visits == |s.got| + if Wants(s) then 1 else 0
  }

  lemma NextKeepsVisits(s: System, step: Step)
    requires Valid(s.ring) && Enabled(s, step) && VisitsCounted(s)
    ensures VisitsCounted(Next(s, step))
  {
  }

  /** Under every interleaving the consumer, each time it comes, takes exactly one message before it leaves. */
  lemma {:induction false} VisitsTakeOne(s: System, steps: seq<Step>, t: System)
    requires Initial(s) && Leads(s, steps, t)
    ensures VisitsCounted(t)
    decreases |steps|
  {
    if steps != [] {
      hide Next, VisitsCounted;
      var front, last := steps[..|steps| - 1], steps[|steps| - 1];
      var u: System :| Leads(s, front, u) && Valid(u.ring) && Enabled(u, last) && t == Next(u, last);
      VisitsTakeOne(s, front, u);
      NextKeepsVisits(u, last);
    }
  }
}
