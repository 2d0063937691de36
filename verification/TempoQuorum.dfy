/** Quorums of the Tempo cluster: which ones meet, and which commits are reachable while some nodes stay silent. */
module TempoQuorum {
  import opened Resources
  import opened TempoBookkeeping
  import opened LogicalClock
  import opened TempoNode
  import opened TempoNodeInvariant
  import opened TempoCluster
  import opened TempoSafety
  import opened TempoPaths
  import opened TempoConsensus

  /** The default of `new`: f + 1 with f = (n - 1) / 2. */
  function DefaultQuorum(n: nat): nat
    requires n >= 1
  {
    (n - 1) / 2 + 1
  }

  lemma Pigeonhole(a: set<NodeId>, b: set<NodeId>, all: set<NodeId>)
    requires a <= all && b <= all && |a| + |b| > |all|
    ensures a * b != {}
  {
    if a * b == {} {
      assert |a + b| == |a| + |b|;
      Subset(a + b, all);
    }
  }

  lemma Subset(a: set<NodeId>, b: set<NodeId>)
    requires a <= b
    ensures |a| <= |b| && |b - a| == |b| - |a|
  {
    assert b == a + (b - a);
  }

  lemma {:induction false} SubsetOfSize(all: set<NodeId>, inside: set<NodeId>, k: nat) returns (s: set<NodeId>)
    requires inside <= all && |inside| <= k <= |all|
    ensures inside <= s <= all && |s| == k
    decreases k - |inside|
  {
    if |inside| == k {
      s := inside;
    } else {
      Subset(inside, all);
      var x :| x in all - inside;
      assert |inside + {x}| == |inside| + 1;
      Subset(inside + {x}, all);
      s := SubsetOfSize(all, inside + {x}, k);
    }
  }

  // ----- which quorums meet -----

  /** Node `i` has committed `d` in a reachable state. */
  ghost predicate Commits(cfg: Config, c: Cluster, i: NodeId, d: Dot) {
    Reachable(cfg, c) && i in cfg.members && i in c.nodes && d in c.nodes[i].book.committedDots
  }

  predicate ShareAnAcker(c: Cluster, d: Dot, e: Dot) {
    Decided(c, d) && Decided(c, e) && c.nodes[d.node].decided[d] * c.nodes[e.node].decided[e] != {}
  }

  lemma RunMembers(cfg: Config, c: Cluster)
    requires Reachable(cfg, c)
    ensures c.nodes.Keys == cfg.members
  {
    ReachableInv(cfg, c);
  }

  /** Any two commits of a cluster whose quorum is more than half were acknowledged by a common member. */
  lemma LargeQuorumsMeet(cfg: Config, c: Cluster, i: NodeId, d: Dot, j: NodeId, e: Dot)
    requires 2 * Max(cfg.quorum, 1) > |cfg.members| && Commits(cfg, c, i, d) && Commits(cfg, c, j, e)
    ensures ShareAnAcker(c, d, e)
  {
    CommitHasQuorum(cfg, c, i, d);
    CommitHasQuorum(cfg, c, j, e);
    DecisionsHaveOwners(cfg, c, d);
    DecisionsHaveOwners(cfg, c, e);
    Pigeonhole(c.nodes[d.node].decided[d], c.nodes[e.node].decided[e], cfg.members);
  }

  lemma DecisionsHaveOwners(cfg: Config, c: Cluster, d: Dot)
    requires Reachable(cfg, c) && Decided(c, d)
    ensures d.node in c.nodes[d.node].decided[d] && |c.nodes[d.node].decided[d]| >= 1
  {
    ReachableInv(cfg, c);
    OwnerAcks(cfg, d.node, c.nodes[d.node], d);
    HasOne(c.nodes[d.node].decided[d], d.node);
  }

  lemma HasOne(s: set<NodeId>, x: NodeId)
    requires x in s
    ensures |s| >= 1
  {
    Subset({x}, s);
  }

  lemma OwnerAcks(cfg: Config, me: NodeId, n: Node, d: Dot)
    requires NodeInv(cfg, me, n) && d in n.decided
    ensures me in n.decided[d] && d in n.book.committedDots && d.node == me
  {
    assert DotOk(cfg, me, n, d);
  }

  /** What is decided is committed at its owner. */
  lemma DecidedCommits(cfg: Config, c: Cluster, d: Dot)
    requires Reachable(cfg, c) && Decided(c, d)
    ensures Commits(cfg, c, d.node, d)
  {
    ReachableInv(cfg, c);
    OwnerAcks(cfg, d.node, c.nodes[d.node], d);
  }

  /** With the default quorum and an odd number of members, any two commits anywhere in the cluster
      were acknowledged by a common member. */
  lemma OddClustersShareAnAcker(cfg: Config, c: Cluster, i: NodeId, d: Dot, j: NodeId, e: Dot)
    requires |cfg.members| % 2 == 1 && cfg.quorum == DefaultQuorum(|cfg.members|)
    requires Commits(cfg, c, i, d) && Commits(cfg, c, j, e)
    ensures ShareAnAcker(c, d, e)
  {
    LargeQuorumsMeet(cfg, c, i, d, j, e);
  }

  // ----- nodes at rest -----

  /** Nobody outside `awake` was touched, and the message loops inside are idle. */
  ghost predicate Rested(cfg: Config, awake: set<NodeId>, c: Cluster, c': Cluster) {
    && c.nodes.Keys == c'.nodes.Keys == cfg.members && awake <= cfg.members && c.net <= c'.net
    && (forall i :: i in c.nodes && i !in awake ==> c'.nodes[i] == c.nodes[i])
    && (forall i :: i in awake ==> c'.nodes[i].handler.Idle?)
  }

  /** A node moving alone inside `awake` and resting again is a way on for the cluster. */
  lemma MovesAlone(cfg: Config, awake: set<NodeId>, c0: Cluster, c: Cluster, me: NodeId, n': Node, sent: set<Envelope>)
    returns (c': Cluster)
    requires Leads(cfg, awake, c0, c) && Rested(cfg, awake, c0, c) && me in awake
    requires Becomes(cfg, me, c.nodes[me], c.net, n', sent) && n'.handler.Idle?
    ensures Leads(cfg, awake, c0, c') && Rested(cfg, awake, c0, c')
    ensures c' == With(c, me, n', sent)
  {
    c' := Becoming(cfg, awake, c0, c, me, n', sent);
  }

  // ----- one node on its way to a commit -----

  /** Nothing but the command table and the clock differs. */
  predicate Kin(n: Node, m: Node) {
    && m.decided == n.decided && m.log == n.log && m.store == n.store
    && m.book.committedDots == n.book.committedDots && m.tasks == n.tasks && m.nextSequence == n.nextSequence
  }

  /** Only the call of `d` has moved, and it has committed nothing. */
  predicate Asking(n: Node, m: Node, d: Dot) {
    && m.decided == n.decided && m.log == n.log && m.store == n.store
    && m.book.committedDots == n.book.committedDots && d in m.tasks && m.tasks == n.tasks[d := m.tasks[d]]
  }

  /** Only the call of `d` has moved, and it is committed and applied. */
  predicate Committed(n: Node, m: Node, d: Dot, cl: ChangeLog, acks: set<NodeId>, pc: TaskPc) {
    && m.decided == n.decided[d := acks] && m.log == n.log + [Applied(d, cl)] && m.store == Apply(n.store, cl)
    && m.book.committedDots == n.book.committedDots + {d}
    && d in m.tasks && m.tasks == n.tasks[d := m.tasks[d]] && m.tasks[d].pc == pc && m.tasks[d].changelog == cl
    && m.handler.Idle?
  }

  /** The owner has stored the proposal and has the acknowledgments of `acked`. */
  predicate Collecting(cfg: Config, n: Node, d: Dot, cl: ChangeLog, clock: nat, acked: set<NodeId>, pc: TaskPc) {
    && n.book.quorum == cfg.quorum && n.handler.Idle?
    && d in n.tasks && n.tasks[d] == Task(cl, clock, pc)
    && d in n.book.commands && !n.book.commands[d].committed && n.book.commands[d].acks.Keys == acked
    && n.book.commands[d].changelog == cl && n.book.commands[d].clock == clock
    && d !in n.book.committedDots
  }

  lemma AskedCollects(cfg: Config, o: NodeId, n: Node, cl: ChangeLog)
    requires n.handler.Idle? && n.book.quorum == cfg.quorum
    requires var d := Dot(o, n.nextSequence); d !in n.book.commands && d !in n.book.committedDots
    ensures var d, m := Dot(o, n.nextSequence), Asked(o, n, cl, 0);
            Asking(n, SetPc(m, d, Checking), d) && Collecting(cfg, SetPc(m, d, Checking), d, cl, m.clock, {o}, Checking)
  {
    var d, m := Dot(o, n.nextSequence), Asked(o, n, cl, 0);
    assert m.book.commands[d] == CommandInfo(cl, m.clock, map[o := m.clock], false);
  }

  /** The owner records one more acknowledgment, short of the quorum. */
  lemma AckedCollects(cfg: Config, n0: Node, n: Node, env: Envelope, cl: ChangeLog, clock: nat, acked: set<NodeId>, pc: TaskPc)
    requires env.msg.MCollectAck? && Collecting(cfg, n, env.msg.dot, cl, clock, acked, pc) && Asking(n0, n, env.msg.dot)
    requires |acked + {env.from}| < cfg.quorum
    ensures var d, out := env.msg.dot, AckRun(cfg, env.msg.dot.node, n, env, 0);
            && out.1 == {} && Asking(n0, out.0, d) && Collecting(cfg, out.0, d, cl, clock, acked + {env.from}, pc)
  {
    AckedKeys(n, env, acked);
  }

  lemma AckedKeys(n: Node, env: Envelope, acked: set<NodeId>)
    requires env.msg.MCollectAck? && env.msg.dot in n.book.commands && n.book.commands[env.msg.dot].acks.Keys == acked
    ensures var acks := n.book.AddAck(env.msg.dot, env.from, env.msg.clock).commands[env.msg.dot].acks;
            acks.Keys == acked + {env.from} && |acks| == |acked + {env.from}|
  {
    var acks := n.book.AddAck(env.msg.dot, env.from, env.msg.clock).commands[env.msg.dot].acks;
    assert acks.Keys == acked + {env.from} && |acks| == |acks.Keys|;
  }

  /** The acknowledgment that makes the quorum commits the dot. */
  lemma AckedCommits(cfg: Config, n0: Node, n: Node, env: Envelope, cl: ChangeLog, clock: nat, acked: set<NodeId>, pc: TaskPc)
    requires env.msg.MCollectAck? && Collecting(cfg, n, env.msg.dot, cl, clock, acked, pc) && Asking(n0, n, env.msg.dot)
    requires |acked + {env.from}| >= cfg.quorum
    ensures var d, out := env.msg.dot, AckRun(cfg, env.msg.dot.node, n, env, 0);
            && out.1 == Broadcast(cfg, d.node, MCommit(d, clock, cl))
            && Committed(n0, out.0, d, cl, acked + {env.from}, pc)
  {
    var d := env.msg.dot;
    AckedKeys(n, env, acked);
    var recorded := n.(clock := UpdateOf(n.clock, env.msg.clock, 0), book := n.book.AddAck(d, env.from, env.msg.clock));
    RunCommits(cfg, d.node, n0, recorded, d);
  }

  /** What an uninterrupted commit leaves of a call under way. */
  lemma RunCommits(cfg: Config, me: NodeId, n0: Node, n: Node, d: Dot)
    requires Asking(n0, n, d) && n.handler.Idle? && d in n.book.commands && !n.book.commands[d].committed
    requires n.book.commands[d].changelog == n.tasks[d].changelog
    ensures var cmd, out := n.book.commands[d], CommitRun(cfg, me, n, d);
            && out.1 == Broadcast(cfg, me, MCommit(d, cmd.clock, cmd.changelog))
            && Committed(n0, out.0, d, cmd.changelog, cmd.acks.Keys, n.tasks[d].pc)
  {
  }

  /** With a quorum of one the call commits by itself after its broadcast. */
  lemma CheckedCommits(cfg: Config, n0: Node, n: Node, net: set<Envelope>, d: Dot, cl: ChangeLog, clock: nat)
    returns (m: Node, sent: set<Envelope>)
    requires Collecting(cfg, n, d, cl, clock, {d.node}, Checking) && Asking(n0, n, d) && cfg.quorum <= 1
    ensures Becomes(cfg, d.node, n, net, m, sent) && sent == Broadcast(cfg, d.node, MCommit(d, clock, cl))
    ensures Committed(n0, m, d, cl, {d.node}, Waiting)
  {
    var acks := n.book.commands[d].acks;
    assert |acks| == |acks.Keys| == 1;
    var w := SetPc(n, d, Waiting);
    CheckPath(cfg, n, net, d);
    RunCommits(cfg, d.node, n0, w, d);
    m, sent := CommitRun(cfg, d.node, w, d).0, CommitRun(cfg, d.node, w, d).1;
  }

  lemma CheckPath(cfg: Config, n: Node, net: set<Envelope>, d: Dot)
    requires d in n.tasks && n.tasks[d].pc.Checking? && n.handler.Idle? && n.book.HasQuorum(d)
    ensures var out := CommitRun(cfg, d.node, SetPc(n, d, Waiting), d); Becomes(cfg, d.node, n, net, out.0, out.1)
  {
    var w := SetPc(n, d, Waiting);
    SetPcTwice(n, d, Waiting, Checking);
    assert SetPc(w, d, Checking) == n;
    BecomesItself(cfg, d.node, n, net);
    CallEndsPath(cfg, d.node, n, net, w, {}, d);
    assert {} + CommitRun(cfg, d.node, w, d).1 == CommitRun(cfg, d.node, w, d).1;
  }

  // ----- the cluster on its way to a commit -----

  /** Since `c0` only the call of `d` has moved; its requests are out and it has the acknowledgments of `acked`. */
  ghost predicate Underway(cfg: Config, c0: Cluster, c: Cluster, d: Dot, cl: ChangeLog, clock: nat, acked: set<NodeId>, pc: TaskPc) {
    && c0.nodes.Keys == c.nodes.Keys && d.node in c.nodes
    && Asking(c0.nodes[d.node], c.nodes[d.node], d) && Collecting(cfg, c.nodes[d.node], d, cl, clock, acked, pc)
    && (forall i :: i in c.nodes && i != d.node ==> Kin(c0.nodes[i], c.nodes[i]))
    && forall m :: m in cfg.members && m != d.node ==> Envelope(d.node, m, MCollect(d, clock, cl)) in c.net
  }

  /** Since `c0` only the call of `d` has moved; it is committed, and the decision is out. */
  ghost predicate Finished(cfg: Config, c0: Cluster, c: Cluster, d: Dot, cl: ChangeLog, acks: set<NodeId>, pc: TaskPc) {
    && c0.nodes.Keys == c.nodes.Keys && d.node in c.nodes
    && Committed(c0.nodes[d.node], c.nodes[d.node], d, cl, acks, pc)
    && (forall i :: i in c.nodes && i != d.node ==> Kin(c0.nodes[i], c.nodes[i]))
    && exists clock :: Sent(cfg, c, d, MCommit(d, clock, cl))
  }

  predicate Sent(cfg: Config, c: Cluster, d: Dot, msg: Message) {
    forall m :: m in cfg.members && m != d.node ==> Envelope(d.node, m, msg) in c.net
  }

  lemma AckerMoves(cfg: Config, awake: set<NodeId>, c0: Cluster, c: Cluster,
                   d: Dot, cl: ChangeLog, clock: nat, acked: set<NodeId>, pc: TaskPc, a: NodeId)
    returns (c': Cluster, mine: nat)
    requires Leads(cfg, awake, c0, c) && Rested(cfg, awake, c0, c) && Underway(cfg, c0, c, d, cl, clock, acked, pc)
    requires a in awake && d.node in awake && a != d.node
    ensures Leads(cfg, awake, c0, c') && Rested(cfg, awake, c0, c') && Underway(cfg, c0, c', d, cl, clock, acked, pc)
    ensures Envelope(a, d.node, MCollectAck(d, mine)) in c'.net
  {
    var n, env := c.nodes[a], Envelope(d.node, a, MCollect(d, clock, cl));
    var out := CollectRun(cfg, a, n, env, 0, 0);
    CollectPath(cfg, a, n, c.net, env, 0, 0);
    mine := out.0.clock;
    c' := MovesAlone(cfg, awake, c0, c, a, out.0, out.1);
    assert Kin(n, out.0);
  }

  lemma OwnerMoves(cfg: Config, awake: set<NodeId>, c0: Cluster, c: Cluster,
                   d: Dot, cl: ChangeLog, clock: nat, acked: set<NodeId>, pc: TaskPc, a: NodeId, mine: nat)
    returns (c': Cluster)
    requires Leads(cfg, awake, c0, c) && Rested(cfg, awake, c0, c) && Underway(cfg, c0, c, d, cl, clock, acked, pc)
    requires d.node in awake && Envelope(a, d.node, MCollectAck(d, mine)) in c.net && |acked + {a}| < cfg.quorum
    ensures Leads(cfg, awake, c0, c') && Rested(cfg, awake, c0, c') && Underway(cfg, c0, c', d, cl, clock, acked + {a}, pc)
  {
    var n, env := c.nodes[d.node], Envelope(a, d.node, MCollectAck(d, mine));
    AckPath(cfg, d.node, n, c.net, env, 0);
    AckedCollects(cfg, c0.nodes[d.node], n, env, cl, clock, acked, pc);
    c' := MovesAlone(cfg, awake, c0, c, d.node, AckRun(cfg, d.node, n, env, 0).0, {});
  }

  lemma OwnerFinishes(cfg: Config, awake: set<NodeId>, c0: Cluster, c: Cluster,
                      d: Dot, cl: ChangeLog, clock: nat, acked: set<NodeId>, pc: TaskPc, a: NodeId, mine: nat)
    returns (c': Cluster)
    requires Leads(cfg, awake, c0, c) && Rested(cfg, awake, c0, c) && Underway(cfg, c0, c, d, cl, clock, acked, pc)
    requires d.node in awake && Envelope(a, d.node, MCollectAck(d, mine)) in c.net && |acked + {a}| >= cfg.quorum
    ensures Leads(cfg, awake, c0, c') && Rested(cfg, awake, c0, c') && Finished(cfg, c0, c', d, cl, acked + {a}, pc)
  {
    var n, env := c.nodes[d.node], Envelope(a, d.node, MCollectAck(d, mine));
    AckPath(cfg, d.node, n, c.net, env, 0);
    AckedCommits(cfg, c0.nodes[d.node], n, env, cl, clock, acked, pc);
    var out := AckRun(cfg, d.node, n, env, 0);
    c' := MovesAlone(cfg, awake, c0, c, d.node, out.0, out.1);
    assert Sent(cfg, c', d, MCommit(d, clock, cl));
  }

  lemma TakeOne(acked: set<NodeId>, todo: set<NodeId>, a: NodeId)
    requires a in todo && acked !! todo
    ensures |acked + {a}| == |acked| + 1 && |todo - {a}| == |todo| - 1
    ensures (acked + {a}) + (todo - {a}) == acked + todo && (todo - {a} == {} ==> acked + {a} == acked + todo)
  {
  }

  /** Collects the acknowledgments of `todo` one by one until they make the quorum. */
  lemma {:induction false} CollectAll(cfg: Config, awake: set<NodeId>, c0: Cluster, c: Cluster,
                                      d: Dot, cl: ChangeLog, clock: nat, acked: set<NodeId>, todo: set<NodeId>, pc: TaskPc)
    returns (c': Cluster)
    requires Leads(cfg, awake, c0, c) && Rested(cfg, awake, c0, c) && Underway(cfg, c0, c, d, cl, clock, acked, pc)
    requires d.node in acked && acked + todo <= awake
    requires todo != {} && acked !! todo && |acked| + |todo| == cfg.quorum
    ensures Leads(cfg, awake, c0, c') && Rested(cfg, awake, c0, c') && Finished(cfg, c0, c', d, cl, acked + todo, pc)
    decreases |todo|
  {
    var a :| a in todo;
    var rest := todo - {a};
    TakeOne(acked, todo, a);
    var c1, mine := AckerMoves(cfg, awake, c0, c, d, cl, clock, acked, pc, a);
    if rest == {} {
      c' := OwnerFinishes(cfg, awake, c0, c1, d, cl, clock, acked, pc, a, mine);
    } else {
      var c2 := OwnerMoves(cfg, awake, c0, c1, d, cl, clock, acked, pc, a, mine);
      c' := CollectAll(cfg, awake, c0, c2, d, cl, clock, acked + {a}, rest, pc);
    }
  }

  lemma OwnerLaunches(cfg: Config, awake: set<NodeId>, c: Cluster, o: NodeId, cl: ChangeLog)
    returns (c': Cluster, clock: nat)
    requires Reachable(cfg, c) && Rested(cfg, awake, c, c) && o in awake
    ensures Leads(cfg, awake, c, c') && Rested(cfg, awake, c, c')
    ensures Underway(cfg, c, c', Dot(o, c.nodes[o].nextSequence), cl, clock, {o}, Checking)
  {
    OwnerStarts(cfg, c, o);
    LeadsNowhere(cfg, awake, c);
    var n, d := c.nodes[o], Dot(o, c.nodes[o].nextSequence);
    CallAsksPath(cfg, o, n, c.net, cl, 0);
    AskedCollects(cfg, o, n, cl);
    clock := Asked(o, n, cl, 0).clock;
    var m, sent := SetPc(Asked(o, n, cl, 0), d, Checking), Broadcast(cfg, o, MCollect(d, clock, cl));
    c' := MovesAlone(cfg, awake, c, c, o, m, sent);
    Launched(cfg, c, c', m, d, cl, clock);
  }

  lemma Launched(cfg: Config, c: Cluster, c': Cluster, m: Node, d: Dot, cl: ChangeLog, clock: nat)
    requires d.node in c.nodes && c' == With(c, d.node, m, Broadcast(cfg, d.node, MCollect(d, clock, cl)))
    requires Asking(c.nodes[d.node], m, d) && Collecting(cfg, m, d, cl, clock, {d.node}, Checking)
    ensures Underway(cfg, c, c', d, cl, clock, {d.node}, Checking)
  {
  }

  lemma OwnerAlone(cfg: Config, awake: set<NodeId>, c0: Cluster, c: Cluster, d: Dot, cl: ChangeLog, clock: nat)
    returns (c': Cluster)
    requires Leads(cfg, awake, c0, c) && Rested(cfg, awake, c0, c) && Underway(cfg, c0, c, d, cl, clock, {d.node}, Checking)
    requires d.node in awake && cfg.quorum <= 1
    ensures Leads(cfg, awake, c0, c') && Rested(cfg, awake, c0, c') && Finished(cfg, c0, c', d, cl, {d.node}, Waiting)
  {
    var m, sent := CheckedCommits(cfg, c0.nodes[d.node], c.nodes[d.node], c.net, d, cl, clock);
    c' := MovesAlone(cfg, awake, c0, c, d.node, m, sent);
    assert Sent(cfg, c', d, MCommit(d, clock, cl));
  }

  /** From every reachable state in which the message loops of `ackers` are idle, a new proposal of `o` can be
      committed with the acknowledgments of exactly these nodes, all the others staying silent and nothing
      else being committed or applied. */
  lemma IdleQuorumSuffices(cfg: Config, c: Cluster, o: NodeId, ackers: set<NodeId>, cl: ChangeLog) returns (c': Cluster, pc: TaskPc)
    requires Reachable(cfg, c) && Rested(cfg, ackers, c, c) && o in ackers && |ackers| == Max(cfg.quorum, 1)
    ensures Leads(cfg, ackers, c, c') && Rested(cfg, ackers, c, c') && !pc.Committing?
    ensures Finished(cfg, c, c', Dot(o, c.nodes[o].nextSequence), cl, ackers, pc)
  {
    var d := Dot(o, c.nodes[o].nextSequence);
    var c1, clock := OwnerLaunches(cfg, ackers, c, o, cl);
    Subset({o}, ackers);
    var todo := ackers - {o};
    assert {o} + todo == ackers;
    if |todo| == 0 {
      pc := Waiting;
      c' := OwnerAlone(cfg, ackers, c, c1, d, cl, clock);
    } else {
      pc := Checking;
      c' := CollectAll(cfg, ackers, c, c1, d, cl, clock, {o}, todo, Checking);
    }
  }

  lemma OwnerStarts(cfg: Config, c: Cluster, o: NodeId)
    requires Reachable(cfg, c) && o in cfg.members
    ensures c.nodes.Keys == cfg.members && c.nodes[o].book.quorum == cfg.quorum
    ensures var d := Dot(o, c.nodes[o].nextSequence);
            d !in c.nodes[o].book.commands && d !in c.nodes[o].book.committedDots && d !in c.nodes[o].decided
  {
    ReachableInv(cfg, c);
    NextDotIsFresh(cfg, c, o, o);
    assert DotOk(cfg, o, c.nodes[o], Dot(o, c.nodes[o].nextSequence));
  }
}
