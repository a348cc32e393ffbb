/** One node on an idle link: `fDoRunGetThresholds` looks after the flags of the
    destination side and the pacing of the source side in the same pass. */
module Stabilisation {
  import opened Messages
  import D = Destination
  import P = Pacing
  import E = EndToEnd

  datatype Node = Node(dest: D.State, source: P.State)

  /** An idle measurement in tuning mode. */
  function Idle(n: Node): Node {
    Node(D.Next(n.dest, D.Measurement(true)), P.Next(n.source, P.IdleLink(true)))
  }

  function Actions(n: Node): seq<D.Action> {
    D.Effects(n.dest, D.Measurement(true))
  }

  function Commands(n: Node): seq<P.Command> {
    P.Decide(n.source.record, P.IdleLink(true)).commands
  }

  /** `k` idle measurements in a row. */
  function IdleFor(n: Node, k: nat): Node {
    if k == 0 then n else Idle(IdleFor(n, k - 1))
  }

  /** All flags and the pacing have their initial values, on a link already known to be idle. */
  predicate AtRest(n: Node) {
    && !n.dest.timerIsSet && n.dest.canStart && !n.dest.sentPacing && n.dest.twiceInRow
    && P.Initial(n.source)
  }

  /** Two idle measurements bring flags and pacing back to their initial values, whatever the flags were, and send
      a single CLEANUP if a QINFO was still open, nothing otherwise. They stop every timer that a flag knows of. */
  lemma TwoIdlesReset(n: Node)
    requires P.Consistent(n.source)
    ensures AtRest(IdleFor(n, 2))
    ensures D.TimersAgree(n.dest) ==> IdleFor(n, 2).dest.timers == D.Timers(false, false, false)
    ensures E.Sent(Actions(n) + Actions(Idle(n))) == if n.dest.sentPacing then [Cleanup(n.dest.lastSrc)] else []
  {
    P.ExecuteOne(n.source.qdisc, P.Delete);
    assert IdleFor(n, 1) == Idle(IdleFor(n, 0)) && IdleFor(n, 2) == Idle(Idle(n));
    TwoIdlesSend(n);
    hide E.Sent;
  }

  lemma IdleSends(d: D.State)
    ensures E.Sent(D.Effects(d, D.Measurement(true))) == if D.SendsCleanup(d) then [Cleanup(d.lastSrc)] else []
  {
    E.SentOf(D.Effects(d, D.Measurement(true)));
    hide E.Sent;
  }

  lemma TwoIdlesSend(n: Node)
    ensures E.Sent(Actions(n) + Actions(Idle(n))) == if n.dest.sentPacing then [Cleanup(n.dest.lastSrc)] else []
  {
    E.SentAppends(Actions(n), Actions(Idle(n)));
    IdleSends(n.dest);
    IdleSends(Idle(n).dest);
    hide E.Sent, D.Effects, P.Next;
  }

  lemma RestIsQuiet(n: Node)
    requires AtRest(n)
    ensures Idle(n) == n && Actions(n) == [] && Commands(n) == []
  {
  }

  /** However long the link stays idle after that, nothing changes, no message is queued and no command is run. */
  lemma {:induction false} StaysAtRest(n: Node, k: nat)
    requires P.Consistent(n.source) && k >= 2
    ensures IdleFor(n, k) == IdleFor(n, 2) && AtRest(IdleFor(n, k))
    ensures Actions(IdleFor(n, k)) == [] && Commands(IdleFor(n, k)) == []
  {
    hide Idle, Actions, Commands, AtRest;
    if k == 2 {
      TwoIdlesReset(n);
    } else {
      StaysAtRest(n, k - 1);
      RestIsQuiet(IdleFor(n, k - 1));
    }
    RestIsQuiet(IdleFor(n, k));
  }

  /** Self-stabilisation from every reachable state: any history of
      the source's handlers, any flags at the destination. */
  lemma ReachableNodesSettle(d: D.State, ps: seq<P.State>, es: seq<P.Event>, i: nat, k: nat)
    requires P.Behavior(ps, es) && i <= |es| && k >= 2
    ensures var n := IdleFor(Node(d, ps[i]), k);
            AtRest(n) && Idle(n) == n && Actions(n) == [] && Commands(n) == []
  {
    P.AlwaysConsistent(ps, es, i);
    StaysAtRest(Node(d, ps[i]), k);
    RestIsQuiet(IdleFor(Node(d, ps[i]), k));
  }
}
