/** How far stores of a Tempo cluster converge: commits are applied on arrival, so two nodes that commit
    conflicting changelogs can end with the same commits and different stores, in every cluster of at
    least two members and over every initial store; without conflicts they never do. */
module TempoDivergence {
  import opened Resources
  import opened Replay
  import opened TempoBookkeeping
  import opened LogicalClock
  import opened TempoNode
  import opened TempoNodeInvariant
  import opened TempoCluster
  import opened TempoSafety
  import opened TempoOrder
  import opened TempoPaths
  import opened TempoConsensus
  import opened TempoQuorum
  import opened TempoProgress

  /** A node that is not inside a commit, whatever waits. */
  predicate Calm(n: Node) {
    n.handler.Idle? && forall d :: d in n.tasks ==> !n.tasks[d].pc.Committing?
  }

  lemma CalmSettled(n: Node)
    requires Calm(n)
    ensures Settled(n)
  {
    forall d ensures !InApplying(n, d) {
    }
  }

  /** The node has applied exactly these changelogs of these dots, in this order, over the initial store. */
  predicate HasApplied(cfg: Config, n: Node, log: seq<Applied>, dots: set<Dot>, store: Store) {
    Calm(n) && n.log == log && n.book.committedDots == dots && n.store == store
  }

  lemma FreshNode(cfg: Config, c: Cluster, i: NodeId)
    requires Init(cfg, c) && i in c.nodes
    ensures HasApplied(cfg, c.nodes[i], [], {}, cfg.initial) && c.nodes[i].nextSequence == 1 && c.nodes[i].tasks == map[]
  {
    assert c.nodes[i] == InitNode(cfg, i, c.nodes[i].clock);
  }

  /** An own commit of a node that had nothing. */
  lemma CommittedFresh(cfg: Config, n: Node, m: Node, d: Dot, cl: ChangeLog, acks: set<NodeId>, pc: TaskPc)
    requires HasApplied(cfg, n, [], {}, cfg.initial) && n.tasks == map[] && Committed(n, m, d, cl, acks, pc) && !pc.Committing?
    ensures HasApplied(cfg, m, [Applied(d, cl)], {d}, Apply(cfg.initial, cl))
  {
    assert [] + [Applied(d, cl)] == [Applied(d, cl)] && {} + {d} == {d};
  }

  lemma KinApplied(cfg: Config, n: Node, m: Node, log: seq<Applied>, dots: set<Dot>, store: Store)
    requires HasApplied(cfg, n, log, dots, store) && Kin(n, m) && m.handler.Idle?
    ensures HasApplied(cfg, m, log, dots, store)
  {
  }

  /** One node has committed a call of its own, all message loops are idle, and its decision is out. */
  ghost predicate OneCommitted(cfg: Config, c: Cluster, o: NodeId, d: Dot, cl: ChangeLog) {
    && Reachable(cfg, c) && c.nodes.Keys == cfg.members && o in cfg.members && d.node == o
    && (forall i :: i in c.nodes ==> c.nodes[i].handler.Idle?)
    && HasApplied(cfg, c.nodes[o], [Applied(d, cl)], {d}, Apply(cfg.initial, cl))
    && d in c.nodes[o].tasks && Proposed(c, d) == cl
    && exists clock :: Sent(cfg, c, d, MCommit(d, clock, cl))
  }

  /** The node is as at the start, but for the table and the clock. */
  predicate Untouched(cfg: Config, n: Node) {
    HasApplied(cfg, n, [], {}, cfg.initial) && n.tasks == map[] && n.nextSequence == 1
  }

  lemma FirstCommit(cfg: Config, o: NodeId, a: ChangeLog) returns (c: Cluster)
    requires o in cfg.members && cfg.quorum <= |cfg.members|
    ensures OneCommitted(cfg, c, o, Dot(o, 1), a)
    ensures forall i :: i in cfg.members && i != o ==> Untouched(cfg, c.nodes[i])
  {
    var c0 := SomeStart(cfg);
    StartRests(cfg, c0);
    HasOne(cfg.members, o);
    var ackers := SubsetOfSize(cfg.members, {o}, Max(cfg.quorum, 1));
    var pc;
    c, pc := IdleQuorumSuffices(cfg, c0, o, ackers, a);
    ReachableOn(cfg, ackers, c0, c);
    AllIdle(cfg, ackers, c0, c);
    FirstFacts(cfg, c0, c, o, a, ackers, pc);
  }

  lemma FirstFacts(cfg: Config, c0: Cluster, c: Cluster, o: NodeId, a: ChangeLog, acks: set<NodeId>, pc: TaskPc)
    requires c.nodes.Keys == cfg.members && o in cfg.members && Reachable(cfg, c) && !pc.Committing?
    requires Finished(cfg, c0, c, Dot(o, 1), a, acks, pc) && forall i :: i in c.nodes ==> c.nodes[i].handler.Idle?
    requires forall i :: i in c0.nodes ==> Untouched(cfg, c0.nodes[i])
    ensures OneCommitted(cfg, c, o, Dot(o, 1), a)
    ensures forall i :: i in cfg.members && i != o ==> Untouched(cfg, c.nodes[i])
  {
    OwnFacts(cfg, c0, c, o, a, acks, pc);
    forall i | i in cfg.members && i != o ensures Untouched(cfg, c.nodes[i]) {
      StillUntouched(cfg, c0.nodes[i], c.nodes[i]);
    }
  }

  lemma StillUntouched(cfg: Config, n: Node, m: Node)
    requires Untouched(cfg, n) && Kin(n, m) && m.handler.Idle?
    ensures Untouched(cfg, m)
  {
    KinApplied(cfg, n, m, [], {}, cfg.initial);
  }

  lemma StartRests(cfg: Config, c: Cluster)
    requires Init(cfg, c)
    ensures Reachable(cfg, c) && forall awake :: awake <= cfg.members ==> Rested(cfg, awake, c, c)
    ensures forall i :: i in cfg.members ==> Untouched(cfg, c.nodes[i])
  {
    assert Runs(cfg, c, []) && Exec(cfg, c, []) == c;
    forall i | i in c.nodes ensures Untouched(cfg, c.nodes[i]) {
      FreshNode(cfg, c, i);
    }
  }

  lemma AllIdle(cfg: Config, awake: set<NodeId>, c: Cluster, c': Cluster)
    requires Rested(cfg, awake, c, c') && forall i :: i in c.nodes ==> c.nodes[i].handler.Idle?
    ensures forall i :: i in c'.nodes ==> c'.nodes[i].handler.Idle?
  {
    forall i | i in c'.nodes ensures c'.nodes[i].handler.Idle? {
      if i !in awake {
        assert c'.nodes[i] == c.nodes[i];
      }
    }
  }

  /** Another node commits a call of its own before it hears of the first. */
  lemma SecondCommit(cfg: Config, c: Cluster, o: NodeId, a: ChangeLog, p: NodeId, b: ChangeLog) returns (c': Cluster)
    requires OneCommitted(cfg, c, o, Dot(o, 1), a) && p in cfg.members && p != o && Untouched(cfg, c.nodes[p])
    requires cfg.quorum <= |cfg.members|
    ensures OneCommitted(cfg, c', o, Dot(o, 1), a) && OneCommitted(cfg, c', p, Dot(p, 1), b)
  {
    HasOne(cfg.members, p);
    var ackers := SubsetOfSize(cfg.members, {p}, Max(cfg.quorum, 1));
    assert Rested(cfg, ackers, c, c);
    var pc;
    c', pc := IdleQuorumSuffices(cfg, c, p, ackers, b);
    ReachableOn(cfg, ackers, c, c');
    AllIdle(cfg, ackers, c, c');
    OwnFacts(cfg, c, c', p, b, ackers, pc);
    FirstStays(cfg, c, c', o, a);
  }

  lemma OwnFacts(cfg: Config, c: Cluster, c': Cluster, p: NodeId, b: ChangeLog, acks: set<NodeId>, pc: TaskPc)
    requires c'.nodes.Keys == cfg.members && p in cfg.members && Reachable(cfg, c') && !pc.Committing?
    requires Finished(cfg, c, c', Dot(p, 1), b, acks, pc) && forall i :: i in c'.nodes ==> c'.nodes[i].handler.Idle?
    requires Untouched(cfg, c.nodes[p])
    ensures OneCommitted(cfg, c', p, Dot(p, 1), b)
  {
    CommittedFresh(cfg, c.nodes[p], c'.nodes[p], Dot(p, 1), b, acks, pc);
  }

  lemma FirstStays(cfg: Config, c: Cluster, c': Cluster, o: NodeId, a: ChangeLog)
    requires OneCommitted(cfg, c, o, Dot(o, 1), a) && Reachable(cfg, c') && c'.nodes.Keys == cfg.members && c.net <= c'.net
    requires (forall i :: i in c'.nodes ==> c'.nodes[i].handler.Idle?) && o in c'.nodes && Kin(c.nodes[o], c'.nodes[o])
    ensures OneCommitted(cfg, c', o, Dot(o, 1), a)
  {
    KinApplied(cfg, c.nodes[o], c'.nodes[o], [Applied(Dot(o, 1), a)], {Dot(o, 1)}, Apply(cfg.initial, a));
    var clock :| Sent(cfg, c, Dot(o, 1), MCommit(Dot(o, 1), clock, a));
    assert Sent(cfg, c', Dot(o, 1), MCommit(Dot(o, 1), clock, a));
  }

  // ----- each takes the other's commit -----

  lemma UncommittedEntry(cfg: Config, c: Cluster, i: NodeId, d: Dot)
    requires Reachable(cfg, c) && i in cfg.members && d !in c.nodes[i].book.committedDots
    ensures i in c.nodes && (d in c.nodes[i].book.commands ==> !c.nodes[i].book.commands[d].committed)
  {
    ReachableInv(cfg, c);
    NotFlagged(cfg, i, c.nodes[i], d);
  }

  lemma NotFlagged(cfg: Config, me: NodeId, n: Node, d: Dot)
    requires NodeInv(cfg, me, n) && d !in n.book.committedDots
    ensures d in n.book.commands ==> !n.book.commands[d].committed
  {
    assert DotOk(cfg, me, n, d);
    CommandFacts(cfg, me, n, d);
  }

  /** A node that takes a commit it has not seen applies it on arrival. */
  lemma TakenFacts(cfg: Config, n: Node, env: Envelope, log: seq<Applied>, dots: set<Dot>, store: Store)
    requires HasApplied(cfg, n, log, dots, store) && env.msg.MCommit? && env.msg.dot !in dots
    requires env.msg.dot in n.book.commands ==> !n.book.commands[env.msg.dot].committed
    ensures var m := CommitMessageRun(n, env, 0);
            && HasApplied(cfg, m, log + [Applied(env.msg.dot, env.msg.changelog)], dots + {env.msg.dot}, Apply(store, env.msg.changelog))
            && m.tasks == n.tasks
  {
  }

  /** Node `o` takes the decision of `d`; nobody else moves. */
  lemma Takes(cfg: Config, c: Cluster, o: NodeId, d: Dot, cl: ChangeLog, log: seq<Applied>, dots: set<Dot>, store: Store)
    returns (c': Cluster)
    requires Reachable(cfg, c) && o in cfg.members && o in c.nodes && d.node != o && d !in dots
    requires HasApplied(cfg, c.nodes[o], log, dots, store) && exists clock :: Sent(cfg, c, d, MCommit(d, clock, cl))
    ensures Reachable(cfg, c') && c'.nodes.Keys == c.nodes.Keys && c.net <= c'.net
    ensures c'.nodes == c.nodes[o := c'.nodes[o]] && c'.nodes[o].tasks == c.nodes[o].tasks
    ensures HasApplied(cfg, c'.nodes[o], log + [Applied(d, cl)], dots + {d}, Apply(store, cl))
  {
    var clock :| Sent(cfg, c, d, MCommit(d, clock, cl));
    var env := Envelope(d.node, o, MCommit(d, clock, cl));
    UncommittedEntry(cfg, c, o, d);
    TakenFacts(cfg, c.nodes[o], env, log, dots, store);
    LeadsNowhere(cfg, {o}, c);
    CommitMessagePath(cfg, o, c.nodes[o], c.net, env, 0);
    c' := Becoming(cfg, {o}, c, c, o, CommitMessageRun(c.nodes[o], env, 0), {});
    ReachableOn(cfg, {o}, c, c');
  }

  /** Both nodes have both commits, in opposite orders. */
  ghost predicate Crossed(cfg: Config, c: Cluster, o: NodeId, a: ChangeLog, p: NodeId, b: ChangeLog) {
    && Reachable(cfg, c) && o in cfg.members && p in cfg.members && o in c.nodes && p in c.nodes && o != p
    && HasApplied(cfg, c.nodes[o], [Applied(Dot(o, 1), a)] + [Applied(Dot(p, 1), b)], {Dot(o, 1)} + {Dot(p, 1)},
                  Apply(Apply(cfg.initial, a), b))
    && HasApplied(cfg, c.nodes[p], [Applied(Dot(p, 1), b)] + [Applied(Dot(o, 1), a)], {Dot(p, 1)} + {Dot(o, 1)},
                  Apply(Apply(cfg.initial, b), a))
    && Dot(o, 1) in c.nodes[o].tasks && Proposed(c, Dot(o, 1)) == a
    && Dot(p, 1) in c.nodes[p].tasks && Proposed(c, Dot(p, 1)) == b
  }

  lemma Cross(cfg: Config, o: NodeId, a: ChangeLog, p: NodeId, b: ChangeLog) returns (c: Cluster)
    requires o in cfg.members && p in cfg.members && o != p && cfg.quorum <= |cfg.members|
    ensures Crossed(cfg, c, o, a, p, b)
  {
    var c1 := FirstCommit(cfg, o, a);
    var c2 := SecondCommit(cfg, c1, o, a, p, b);
    var c3 := OneTakes(cfg, c2, o, a, p, b);
    c := OtherTakes(cfg, c3, o, a, p, b);
  }

  /** The first node has both commits, the second only its own. */
  ghost predicate HalfCrossed(cfg: Config, c: Cluster, o: NodeId, a: ChangeLog, p: NodeId, b: ChangeLog) {
    && Reachable(cfg, c) && o in cfg.members && p in cfg.members && o in c.nodes && p in c.nodes && o != p
    && HasApplied(cfg, c.nodes[o], [Applied(Dot(o, 1), a)] + [Applied(Dot(p, 1), b)], {Dot(o, 1)} + {Dot(p, 1)},
                  Apply(Apply(cfg.initial, a), b))
    && HasApplied(cfg, c.nodes[p], [Applied(Dot(p, 1), b)], {Dot(p, 1)}, Apply(cfg.initial, b))
    && Dot(o, 1) in c.nodes[o].tasks && Proposed(c, Dot(o, 1)) == a
    && Dot(p, 1) in c.nodes[p].tasks && Proposed(c, Dot(p, 1)) == b
    && exists clock :: Sent(cfg, c, Dot(o, 1), MCommit(Dot(o, 1), clock, a))
  }

  lemma OneTakes(cfg: Config, c: Cluster, o: NodeId, a: ChangeLog, p: NodeId, b: ChangeLog) returns (c': Cluster)
    requires OneCommitted(cfg, c, o, Dot(o, 1), a) && OneCommitted(cfg, c, p, Dot(p, 1), b) && o != p
    ensures HalfCrossed(cfg, c', o, a, p, b)
  {
    c' := Takes(cfg, c, o, Dot(p, 1), b, [Applied(Dot(o, 1), a)], {Dot(o, 1)}, Apply(cfg.initial, a));
    var clock :| Sent(cfg, c, Dot(o, 1), MCommit(Dot(o, 1), clock, a));
    assert Sent(cfg, c', Dot(o, 1), MCommit(Dot(o, 1), clock, a));
  }

  lemma OtherTakes(cfg: Config, c: Cluster, o: NodeId, a: ChangeLog, p: NodeId, b: ChangeLog) returns (c': Cluster)
    requires HalfCrossed(cfg, c, o, a, p, b)
    ensures Crossed(cfg, c', o, a, p, b)
  {
    c' := Takes(cfg, c, p, Dot(o, 1), a, [Applied(Dot(p, 1), b)], {Dot(p, 1)}, Apply(cfg.initial, b));
  }

  // ----- the condition -----

  /** Two nodes have the same commits, nothing half done, and only changelogs of `allowed` among them. */
  ghost predicate SameCommits(cfg: Config, c: Cluster, i: NodeId, j: NodeId, allowed: set<ChangeLog>) {
    && Reachable(cfg, c) && i in cfg.members && j in cfg.members && i in c.nodes && j in c.nodes
    && Settled(c.nodes[i]) && Settled(c.nodes[j])
    && c.nodes[i].book.committedDots == c.nodes[j].book.committedDots
    && forall d :: d in c.nodes[i].book.committedDots ==>
         d.node in c.nodes && d in c.nodes[d.node].tasks && Proposed(c, d) in allowed
  }

  /** For every two conflicting changelogs, in every cluster of at least two members, over every initial store, a run
      ends with both of them committed at two nodes, nothing half done there, and different stores. */
  lemma Diverges(cfg: Config, a: ChangeLog, b: ChangeLog) returns (c: Cluster, i: NodeId, j: NodeId)
    requires Conflicts(a, b) && |cfg.members| >= 2 && cfg.quorum <= |cfg.members|
    ensures SameCommits(cfg, c, i, j, {a, b}) && c.nodes[i].store != c.nodes[j].store
  {
    i, j := TwoMembers(cfg.members);
    c := Cross(cfg, i, a, j, b);
    OrderMatters(cfg.initial, a, b);
    CalmSettled(c.nodes[i]);
    CalmSettled(c.nodes[j]);
    CrossedCommits(c, i, j, a, b);
  }

  lemma TwoMembers(all: set<NodeId>) returns (i: NodeId, j: NodeId)
    requires |all| >= 2
    ensures i in all && j in all && i != j
  {
    i :| i in all;
    Subset({i}, all);
    j :| j in all - {i};
  }

  lemma CrossedCommits(c: Cluster, i: NodeId, j: NodeId, a: ChangeLog, b: ChangeLog)
    requires i in c.nodes && j in c.nodes && Dot(i, 1) in c.nodes[i].tasks && Dot(j, 1) in c.nodes[j].tasks
    requires Proposed(c, Dot(i, 1)) == a && Proposed(c, Dot(j, 1)) == b
    requires c.nodes[i].book.committedDots == {Dot(i, 1)} + {Dot(j, 1)}
    requires c.nodes[j].book.committedDots == {Dot(j, 1)} + {Dot(i, 1)}
    ensures c.nodes[i].book.committedDots == c.nodes[j].book.committedDots
    ensures forall d :: d in c.nodes[i].book.committedDots ==>
              d.node in c.nodes && d in c.nodes[d.node].tasks && Proposed(c, d) in {a, b}
  {
  }

  /** All settled nodes with the same commits, of changelogs in `allowed`, hold equal stores. */
  ghost predicate Converges(cfg: Config, allowed: set<ChangeLog>) {
    forall c, i, j :: SameCommits(cfg, c, i, j, allowed) ==> c.nodes[i].store == c.nodes[j].store
  }

  /** Convergence, exactly: nodes with the same commits always hold equal stores if and only if no two of the
      changelogs conflict, or the cluster has a single member or a quorum it can never reach. */
  lemma ConvergesIff(cfg: Config, allowed: set<ChangeLog>)
    ensures Converges(cfg, allowed) <==>
            || |cfg.members| < 2 || cfg.quorum > |cfg.members|
            || forall a, b :: a in allowed && b in allowed ==> !Conflicts(a, b)
  {
    if |cfg.members| < 2 || cfg.quorum > |cfg.members| {
      forall c, i, j | SameCommits(cfg, c, i, j, allowed) ensures c.nodes[i].store == c.nodes[j].store {
        TrivialConverges(cfg, c, i, j, allowed);
      }
    } else if a, b :| a in allowed && b in allowed && Conflicts(a, b) {
      var c, i, j := Diverges(cfg, a, b);
      assert SameCommits(cfg, c, i, j, allowed);
    } else {
      forall c, i, j | SameCommits(cfg, c, i, j, allowed) ensures c.nodes[i].store == c.nodes[j].store {
        AllowedConverge(cfg, c, i, j, allowed);
      }
    }
  }

  lemma TrivialConverges(cfg: Config, c: Cluster, i: NodeId, j: NodeId, allowed: set<ChangeLog>)
    requires SameCommits(cfg, c, i, j, allowed) && (|cfg.members| < 2 || cfg.quorum > |cfg.members|)
    ensures c.nodes[i].store == c.nodes[j].store
  {
    if i != j {
      Subset({i, j}, cfg.members);
      SettledApplied(cfg, c, i);
      forall a | a in c.nodes[i].log ensures false {
        assert a.dot in AppliedDots(c.nodes[i].log);
        CommitHasQuorum(cfg, c, i, a.dot);
        Subset(c.nodes[a.dot.node].decided[a.dot], cfg.members);
      }
      NoConflictConverges(cfg, c, i, j);
    }
  }

  lemma AllowedConverge(cfg: Config, c: Cluster, i: NodeId, j: NodeId, allowed: set<ChangeLog>)
    requires SameCommits(cfg, c, i, j, allowed) && forall a, b :: a in allowed && b in allowed ==> !Conflicts(a, b)
    ensures c.nodes[i].store == c.nodes[j].store
  {
    AppliedOnceAndAuthentic(cfg, c, i);
    SettledApplied(cfg, c, i);
    forall a | a in c.nodes[i].log ensures a.changelog in allowed {
      assert a.dot in AppliedDots(c.nodes[i].log);
    }
    NoConflictConverges(cfg, c, i, j);
  }
}
