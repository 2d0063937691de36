/** Progress of the Tempo cluster: commits that stay reachable whatever is under way, the ones that a small
    quorum lets through, and calls that are given up before they commit. */
module TempoProgress {
  import opened Resources
  import opened TempoBookkeeping
  import opened LogicalClock
  import opened TempoNode
  import opened TempoNodeInvariant
  import opened TempoCluster
  import opened TempoPaths
  import opened TempoConsensus
  import opened TempoQuorum

  // ----- a message loop always gets back to idle -----

  /** Lock sections until the message loop is idle again. */
  function Rank(h: HandlerPc): nat {
    match h
    case Idle => 0
    case CollectTick(_) => 3
    case CollectStore(_, _) => 2
    case CollectReply(_, _) => 1
    case AckRecord(_) => 5
    case AckCommit(Marking(_)) => 4
    case AckCommit(Applying(_, _, _)) => 3
    case AckCommit(Replying(_, _, _, _)) => 2
    case AckCommit(Announcing(_, _, _)) => 1
    case CommitCheck(_) => 3
    case ForeignApply(_) => 2
    case ForeignMark(_) => 1
  }

  function LoopEvent(h: HandlerPc): Event {
    if h.CollectTick? then HandlerTick(0) else HandlerStep
  }

  /** Decisions stay, and no proposal is started. */
  ghost predicate Kept(n: Node, n': Node) {
    && n'.nextSequence == n.nextSequence
    && forall d :: d in n.decided ==> d in n'.decided && n'.decided[d] == n.decided[d]
  }

  lemma LoopMoves(cfg: Config, me: NodeId, n: Node, net: set<Envelope>)
    requires HandlerKind(n.handler) && !n.handler.Idle?
    ensures Enabled(me, n, net, LoopEvent(n.handler))
    ensures var n' := NodeStep(cfg, me, n, net, LoopEvent(n.handler)).0;
            Rank(n'.handler) < Rank(n.handler) && n'.nextSequence == n.nextSequence
  {
    match n.handler
    case CollectTick(_) =>
    case CollectStore(_, _) =>
    case CollectReply(_, _) =>
    case AckRecord(_) =>
    case AckCommit(_) =>
    case CommitCheck(_) =>
    case ForeignApply(_) =>
    case ForeignMark(_) =>
  }

  lemma LoopKeeps(cfg: Config, me: NodeId, n: Node, net: set<Envelope>)
    requires NodeInv(cfg, me, n) && !n.handler.Idle?
    requires Enabled(me, n, net, LoopEvent(n.handler))
    ensures var n' := NodeStep(cfg, me, n, net, LoopEvent(n.handler)).0;
            NodeInv(cfg, me, n') && forall d :: d in n.decided ==> d in n'.decided && n'.decided[d] == n.decided[d]
  {
    var ev := LoopEvent(n.handler);
    NodeInvStep(cfg, me, n, net, ev);
    var n' := NodeStep(cfg, me, n, net, ev).0;
    forall d | d in n.decided ensures d in n'.decided && n'.decided[d] == n.decided[d] {
      StepGrows(cfg, me, n, net, ev, d);
    }
  }

  lemma {:induction false} Drain(cfg: Config, me: NodeId, n0: Node, net: set<Envelope>, n: Node, sent: set<Envelope>)
    returns (n': Node, sent': set<Envelope>)
    requires NodeInv(cfg, me, n) && Becomes(cfg, me, n0, net, n, sent)
    ensures Becomes(cfg, me, n0, net, n', sent') && n'.handler.Idle? && Kept(n, n')
    decreases Rank(n.handler)
  {
    if n.handler.Idle? {
      n', sent' := n, sent;
    } else {
      LoopMoves(cfg, me, n, net);
      LoopKeeps(cfg, me, n, net);
      var ev := LoopEvent(n.handler);
      BecomesOn(cfg, me, n0, net, n, sent, ev);
      var out := NodeStep(cfg, me, n, net, ev);
      n', sent' := Drain(cfg, me, n0, net, out.0, sent + out.1);
    }
  }

  lemma DrainOne(cfg: Config, awake: set<NodeId>, c0: Cluster, c: Cluster, i: NodeId) returns (c': Cluster)
    requires Reachable(cfg, c0) && Leads(cfg, awake, c0, c) && i in awake && awake <= cfg.members
    ensures Leads(cfg, awake, c0, c') && i in c.nodes && i in c'.nodes && c'.nodes == c.nodes[i := c'.nodes[i]]
    ensures c'.nodes[i].handler.Idle? && Kept(c.nodes[i], c'.nodes[i])
  {
    ReachableOn(cfg, awake, c0, c);
    ReachableInv(cfg, c);
    BecomesItself(cfg, i, c.nodes[i], c.net);
    var n', sent := Drain(cfg, i, c.nodes[i], c.net, c.nodes[i], {});
    c' := Becoming(cfg, awake, c0, c, i, n', sent);
  }

  /** The nodes outside `todo` are untouched; those inside are idle and have only gained decisions. */
  ghost predicate Drained(todo: set<NodeId>, c: Cluster, c': Cluster) {
    && c'.nodes.Keys == c.nodes.Keys
    && (forall i :: i in c.nodes && i !in todo ==> c'.nodes[i] == c.nodes[i])
    && (forall i :: i in c.nodes && i in todo ==> c'.nodes[i].handler.Idle? && Kept(c.nodes[i], c'.nodes[i]))
  }

  lemma {:induction false} DrainAll(cfg: Config, awake: set<NodeId>, c0: Cluster, c: Cluster, todo: set<NodeId>)
    returns (c': Cluster)
    requires Reachable(cfg, c0) && Leads(cfg, awake, c0, c) && todo <= awake <= cfg.members
    ensures Leads(cfg, awake, c0, c') && Drained(todo, c, c')
    decreases |todo|
  {
    if todo == {} {
      c' := c;
    } else {
      var i :| i in todo;
      var c1 := DrainOne(cfg, awake, c0, c, i);
      c' := DrainAll(cfg, awake, c0, c1, todo - {i});
      DrainedOneMore(c, c1, c', todo, i);
    }
  }

  lemma DrainedOneMore(c: Cluster, c1: Cluster, c': Cluster, todo: set<NodeId>, i: NodeId)
    requires i in todo && i in c.nodes && i in c1.nodes && c1.nodes == c.nodes[i := c1.nodes[i]]
    requires c1.nodes[i].handler.Idle? && Kept(c.nodes[i], c1.nodes[i]) && Drained(todo - {i}, c1, c')
    ensures Drained(todo, c, c')
  {
  }

  // ----- quorums suffice -----

  /** From every reachable state, whatever is under way in it, a new proposal of `o` can be committed with the
      acknowledgments of exactly the nodes `ackers`, all the others staying silent. */
  lemma QuorumSuffices(cfg: Config, c: Cluster, o: NodeId, ackers: set<NodeId>, cl: ChangeLog) returns (c': Cluster)
    requires Reachable(cfg, c) && o in ackers && ackers <= cfg.members && |ackers| == Max(cfg.quorum, 1)
    ensures c.nodes.Keys == c'.nodes.Keys == cfg.members
    ensures Leads(cfg, ackers, c, c') && SilentBut(ackers, c, c')
    ensures var d := Dot(o, c.nodes[o].nextSequence); Decided(c', d) && c'.nodes[o].decided[d] == ackers
  {
    var c1 := Quiesce(cfg, c, ackers);
    var pc;
    c', pc := IdleQuorumSuffices(cfg, c1, o, ackers, cl);
    LeadsThen(cfg, ackers, c, c1, c');
    FreshDecision(cfg, c1, o);
    FinishedAfter(cfg, ackers, c, c1, c', Dot(o, c.nodes[o].nextSequence), cl, ackers, pc);
  }

  lemma FreshDecision(cfg: Config, c: Cluster, o: NodeId)
    requires Reachable(cfg, c) && o in cfg.members
    ensures o in c.nodes && Dot(o, c.nodes[o].nextSequence) !in c.nodes[o].decided
  {
    OwnerStarts(cfg, c, o);
  }

  lemma Quiesce(cfg: Config, c: Cluster, awake: set<NodeId>) returns (c': Cluster)
    requires Reachable(cfg, c) && awake <= cfg.members
    ensures Leads(cfg, awake, c, c') && Reachable(cfg, c') && Rested(cfg, awake, c', c') && SilentBut(awake, c, c')
    ensures c.nodes.Keys == cfg.members && forall i :: i in c.nodes ==> c'.nodes[i].nextSequence == c.nodes[i].nextSequence
  {
    LeadsNowhere(cfg, awake, c);
    c' := DrainAll(cfg, awake, c, c, awake);
    ReachableOn(cfg, awake, c, c');
    RunMembers(cfg, c);
    DrainedFacts(cfg, awake, c, c');
  }

  lemma DrainedFacts(cfg: Config, awake: set<NodeId>, c: Cluster, c': Cluster)
    requires Drained(awake, c, c') && c.nodes.Keys == cfg.members && awake <= cfg.members
    ensures Rested(cfg, awake, c', c') && SilentBut(awake, c, c')
    ensures forall i :: i in c.nodes ==> c'.nodes[i].nextSequence == c.nodes[i].nextSequence
  {
    forall i | i in c.nodes ensures Kept(c.nodes[i], c'.nodes[i]) {
    }
  }

  lemma FinishedAfter(cfg: Config, awake: set<NodeId>, a: Cluster, b: Cluster, c: Cluster,
                      d: Dot, cl: ChangeLog, acks: set<NodeId>, pc: TaskPc)
    requires SilentBut(awake, a, b) && Rested(cfg, awake, b, c) && Finished(cfg, b, c, d, cl, acks, pc)
    requires d !in b.nodes[d.node].decided
    ensures SilentBut(awake, a, c) && Decided(c, d) && c.nodes[d.node].decided[d] == acks
  {
  }

  /** Nobody outside `awake` has moved, and no decision was changed. */
  ghost predicate SilentBut(awake: set<NodeId>, c: Cluster, c': Cluster) {
    && c.nodes.Keys == c'.nodes.Keys
    && (forall i :: i in c.nodes && i !in awake ==> c'.nodes[i] == c.nodes[i])
    && (forall i, d :: i in c.nodes && d in c.nodes[i].decided ==>
          d in c'.nodes[i].decided && c'.nodes[i].decided[d] == c.nodes[i].decided[d])
  }

  // ----- what follows for the default quorum -----

  /** Any f = (n - 1) / 2 silent nodes leave every other node able to commit, for every n >= 1. */
  lemma SilentMinority(cfg: Config, c: Cluster, o: NodeId, silent: set<NodeId>, cl: ChangeLog) returns (c': Cluster)
    requires Reachable(cfg, c) && o in cfg.members && cfg.quorum == DefaultQuorum(|cfg.members|)
    requires silent <= cfg.members && o !in silent && |silent| <= (|cfg.members| - 1) / 2
    ensures o in c.nodes && Leads(cfg, cfg.members - silent, c, c')
    ensures var d := Dot(o, c.nodes[o].nextSequence);
            Decided(c', d) && c'.nodes[o].decided[d] <= cfg.members - silent
  {
    Subset(silent, cfg.members);
    var ackers := SubsetOfSize(cfg.members - silent, {o}, cfg.quorum);
    c' := QuorumSuffices(cfg, c, o, ackers, cl);
    LeadsMore(cfg, ackers, cfg.members - silent, c, c');
  }

  /** A commit acknowledged by exactly `half`, from the start, leaving all other nodes as they were. */
  lemma FirstHalf(cfg: Config, c0: Cluster, half: set<NodeId>, o: NodeId, cl: ChangeLog) returns (c: Cluster)
    requires Init(cfg, c0) && half <= cfg.members && o in half && |half| == Max(cfg.quorum, 1)
    ensures Reachable(cfg, c) && c.nodes.Keys == cfg.members && Decided(c, Dot(o, 1))
    ensures c.nodes[o].decided[Dot(o, 1)] == half
    ensures forall i :: i in cfg.members - half ==> c.nodes[i].nextSequence == 1
  {
    assert Runs(cfg, c0, []) && Exec(cfg, c0, []) == c0;
    assert Reachable(cfg, c0);
    forall i | i in c0.nodes ensures c0.nodes[i].nextSequence == 1 {
      assert c0.nodes[i] == InitNode(cfg, i, c0.nodes[i].clock);
    }
    c := QuorumSuffices(cfg, c0, o, half, cl);
    ReachableOn(cfg, half, c0, c);
  }

  lemma OtherHalf(cfg: Config, c0: Cluster, other: set<NodeId>, d: Dot, p: NodeId, cl: ChangeLog) returns (c: Cluster)
    requires Reachable(cfg, c0) && c0.nodes.Keys == cfg.members && Decided(c0, d)
    requires other <= cfg.members && p in other && |other| == Max(cfg.quorum, 1)
    requires forall i :: i in other ==> c0.nodes[i].nextSequence == 1
    ensures Reachable(cfg, c) && Decided(c, d) && c.nodes[d.node].decided[d] == c0.nodes[d.node].decided[d]
    ensures Decided(c, Dot(p, 1)) && c.nodes[p].decided[Dot(p, 1)] == other
  {
    c := QuorumSuffices(cfg, c0, p, other, cl);
    ReachableOn(cfg, other, c0, c);
  }

  /** A quorum of at most half the cluster lets two proposals commit without a common acknowledging member. */
  lemma SmallQuorumsSplit(cfg: Config, c0: Cluster, cl: ChangeLog) returns (c: Cluster, d: Dot, e: Dot)
    requires Init(cfg, c0) && 2 * Max(cfg.quorum, 1) <= |cfg.members|
    ensures Reachable(cfg, c) && Decided(c, d) && Decided(c, e) && !ShareAnAcker(c, d, e)
  {
    var half, other, o, p := Parts(cfg);
    d, e := Dot(o, 1), Dot(p, 1);
    var c1 := FirstHalf(cfg, c0, half, o, cl);
    c := OtherHalf(cfg, c1, other, d, p, cl);
  }

  lemma Parts(cfg: Config) returns (half: set<NodeId>, other: set<NodeId>, o: NodeId, p: NodeId)
    requires 2 * Max(cfg.quorum, 1) <= |cfg.members|
    ensures half <= cfg.members && other <= cfg.members - half && half * other == {}
    ensures o in half && p in other && |half| == |other| == Max(cfg.quorum, 1)
  {
    half := SubsetOfSize(cfg.members, {}, Max(cfg.quorum, 1));
    Subset(half, cfg.members);
    other := SubsetOfSize(cfg.members - half, {}, Max(cfg.quorum, 1));
    o :| o in half;
    p :| p in other;
  }

  /** For every even number of members the default quorum is exactly half: two proposals can be committed
      without a common acknowledging member. */
  lemma EvenClustersSplit(cfg: Config, c0: Cluster, cl: ChangeLog) returns (c: Cluster, d: Dot, e: Dot)
    requires Init(cfg, c0) && |cfg.members| >= 2 && |cfg.members| % 2 == 0
    requires cfg.quorum == DefaultQuorum(|cfg.members|)
    ensures Reachable(cfg, c) && Decided(c, d) && Decided(c, e)
    ensures c.nodes[d.node].decided[d] * c.nodes[e.node].decided[e] == {}
  {
    c, d, e := SmallQuorumsSplit(cfg, c0, cl);
  }

  lemma SomeStart(cfg: Config) returns (c: Cluster)
    ensures Init(cfg, c)
  {
    c := Cluster(map i | i in cfg.members :: InitNode(cfg, i, 0), {});
  }

  /** Whatever quorum is configured: any two commits of the cluster share an acknowledging member if and only if the
      quorum is more than half the members. */
  lemma CommonAckerIff(cfg: Config)
    ensures (forall c, i, d, j, e :: Commits(cfg, c, i, d) && Commits(cfg, c, j, e) ==> ShareAnAcker(c, d, e))
            <==> 2 * Max(cfg.quorum, 1) > |cfg.members|
  {
    if 2 * Max(cfg.quorum, 1) > |cfg.members| {
      forall c, i, d, j, e | Commits(cfg, c, i, d) && Commits(cfg, c, j, e) ensures ShareAnAcker(c, d, e) {
        LargeQuorumsMeet(cfg, c, i, d, j, e);
      }
    } else {
      var c0 := SomeStart(cfg);
      var cl: ChangeLog :| true;
      var c, d, e := SmallQuorumsSplit(cfg, c0, cl);
      DecidedCommits(cfg, c, d);
      DecidedCommits(cfg, c, e);
    }
  }

  // ----- giving up is not undoing -----

  /** A call waiting for more than its own acknowledgment gives up when its time is over. */
  lemma GivesUp(cfg: Config, n0: Node, n: Node, net: set<Envelope>, d: Dot, cl: ChangeLog, clock: nat) returns (m: Node)
    requires Collecting(cfg, n, d, cl, clock, {d.node}, Checking) && Asking(n0, n, d) && cfg.quorum >= 2 && d !in n.replies
    ensures Becomes(cfg, d.node, n, net, m, {}) && Asking(n0, m, d)
    ensures Collecting(cfg, m, d, cl, clock, {d.node}, Done(TimedOut))
  {
    var acks := n.book.commands[d].acks;
    assert |acks| == |acks.Keys| == 1;
    WaitsTooLong(cfg, n, net, d);
    m := Abandons(cfg, n, net, SetPc(n, d, Abandoning), d);
    SetPcTwice(n, d, Abandoning, Done(TimedOut));
  }

  lemma WaitsTooLong(cfg: Config, n: Node, net: set<Envelope>, d: Dot)
    requires d in n.tasks && n.tasks[d].pc.Checking? && !n.book.HasQuorum(d) && d !in n.replies && HandlerKind(n.handler)
    ensures Becomes(cfg, d.node, n, net, SetPc(n, d, Abandoning), {})
  {
    BecomesItself(cfg, d.node, n, net);
    Quietly(cfg, d.node, n, net, n, {}, TaskStep(d));
    Quietly(cfg, d.node, n, net, SetPc(n, d, Waiting), {}, Timeout(d));
    SetPcTwice(n, d, Waiting, Abandoning);
  }

  lemma Abandons(cfg: Config, n: Node, net: set<Envelope>, late: Node, d: Dot) returns (m: Node)
    requires Becomes(cfg, d.node, n, net, late, {}) && HandlerKind(late.handler) && d in late.tasks && late.tasks[d].pc.Abandoning?
    ensures Becomes(cfg, d.node, n, net, m, {}) && m == SetPc(late, d, Done(TimedOut)).(pending := late.pending - {d})
  {
    Quietly(cfg, d.node, n, net, late, {}, TaskStep(d));
    m := SetPc(late, d, Done(TimedOut)).(pending := late.pending - {d});
  }

  lemma NotAnswered(cfg: Config, c: Cluster, d: Dot)
    requires Reachable(cfg, c) && d.node in c.nodes && d !in c.nodes[d.node].book.committedDots
    ensures d !in c.nodes[d.node].replies
  {
    ReachableInv(cfg, c);
    NoReply(cfg, d.node, c.nodes[d.node], d);
  }

  lemma NoReply(cfg: Config, me: NodeId, n: Node, d: Dot)
    requires NodeInv(cfg, me, n) && d.node == me && d !in n.book.committedDots
    ensures d !in n.replies
  {
    assert DotOk(cfg, me, n, d);
    assert OnceOk(me, n, d) && ReplyOk(n, d);
  }

  lemma OwnerGivesUp(cfg: Config, awake: set<NodeId>, c0: Cluster, c: Cluster, d: Dot, cl: ChangeLog, clock: nat)
    returns (c': Cluster)
    requires Reachable(cfg, c) && Leads(cfg, awake, c0, c) && Rested(cfg, awake, c0, c) && d.node in awake && cfg.quorum >= 2
    requires Underway(cfg, c0, c, d, cl, clock, {d.node}, Checking)
    ensures Leads(cfg, awake, c0, c') && Rested(cfg, awake, c0, c')
    ensures Underway(cfg, c0, c', d, cl, clock, {d.node}, Done(TimedOut))
  {
    NotAnswered(cfg, c, d);
    var m := GivesUp(cfg, c0.nodes[d.node], c.nodes[d.node], c.net, d, cl, clock);
    c' := MovesAlone(cfg, awake, c0, c, d.node, m, {});
    StillUnderway(cfg, c0, c, c', m, d, cl, clock);
  }

  lemma StillUnderway(cfg: Config, c0: Cluster, c: Cluster, c': Cluster, m: Node, d: Dot, cl: ChangeLog, clock: nat)
    requires Underway(cfg, c0, c, d, cl, clock, {d.node}, Checking) && c' == With(c, d.node, m, {})
    requires Asking(c0.nodes[d.node], m, d) && Collecting(cfg, m, d, cl, clock, {d.node}, Done(TimedOut))
    ensures Underway(cfg, c0, c', d, cl, clock, {d.node}, Done(TimedOut))
  {
  }

  /** From every reachable state a client's call can time out and its changelog be committed and applied all the
      same, whenever a quorum takes more than one node. */
  lemma TimedOutYetCommitted(cfg: Config, c: Cluster, o: NodeId, cl: ChangeLog) returns (c': Cluster)
    requires Reachable(cfg, c) && o in cfg.members && 2 <= cfg.quorum <= |cfg.members|
    ensures Reachable(cfg, c') && o in c.nodes && o in c'.nodes
    ensures var d, n := Dot(o, c.nodes[o].nextSequence), c'.nodes[o];
            && d in n.tasks && n.tasks[d].pc == Done(TimedOut) && n.tasks[d].changelog == cl
            && d in n.book.committedDots && Applied(d, cl) in n.log
  {
    var awake := SubsetOfSize(cfg.members, {o}, cfg.quorum);
    var c1 := Quiesce(cfg, c, awake);
    c' := GivenUpAndCollected(cfg, awake, c1, o, cl);
    ReachableOn(cfg, awake, c1, c');
  }

  lemma GivenUpAndCollected(cfg: Config, awake: set<NodeId>, c: Cluster, o: NodeId, cl: ChangeLog) returns (c': Cluster)
    requires Reachable(cfg, c) && Rested(cfg, awake, c, c) && o in awake && |awake| == cfg.quorum >= 2
    ensures Leads(cfg, awake, c, c') && Finished(cfg, c, c', Dot(o, c.nodes[o].nextSequence), cl, awake, Done(TimedOut))
  {
    var d := Dot(o, c.nodes[o].nextSequence);
    var c1, clock := OwnerLaunches(cfg, awake, c, o, cl);
    ReachableOn(cfg, awake, c, c1);
    var c2 := OwnerGivesUp(cfg, awake, c, c1, d, cl, clock);
    TakeOwner(awake, o);
    c' := CollectAll(cfg, awake, c, c2, d, cl, clock, {o}, awake - {o}, Done(TimedOut));
  }

  lemma TakeOwner(awake: set<NodeId>, o: NodeId)
    requires o in awake && |awake| >= 2
    ensures awake - {o} != {} && |{o}| + |awake - {o}| == |awake| && {o} + (awake - {o}) == awake
  {
    Subset({o}, awake);
  }
}
