/** Order in the Tempo cluster: clocks respect causality, and stores converge as far as the nodes applied
    conflicting changelogs in the same order. Commits are applied on arrival, not in clock order, so
    nothing more can be promised. */
module TempoOrder {
  import opened Resources
  import opened Replay
  import opened TempoBookkeeping
  import opened TempoNode
  import opened TempoNodeInvariant
  import opened TempoCluster
  import opened TempoSafety

  // ----- causality -----

  lemma {:induction false} PrefixRuns(cfg: Config, c0: Cluster, run: seq<Label>, k: nat)
    requires Runs(cfg, c0, run) && k <= |run|
    ensures Runs(cfg, c0, run[..k])
    decreases |run|
  {
    if k == |run| {
      assert run[..k] == run;
    } else {
      assert run[..k] == run[..|run| - 1][..k];
      PrefixRuns(cfg, c0, run[..|run| - 1], k);
    }
  }

  lemma PrefixReachable(cfg: Config, c0: Cluster, run: seq<Label>, k: nat)
    requires Init(cfg, c0) && Runs(cfg, c0, run) && k < |run|
    ensures Runs(cfg, c0, run[..k]) && Runs(cfg, c0, run[..k + 1])
    ensures CanStep(Exec(cfg, c0, run[..k]), run[k])
    ensures Exec(cfg, c0, run[..k + 1]) == Step(cfg, Exec(cfg, c0, run[..k]), run[k])
    ensures Reachable(cfg, Exec(cfg, c0, run[..k])) && Reachable(cfg, Exec(cfg, c0, run[..k + 1]))
  {
    PrefixStep(cfg, c0, run, k);
    RunReaches(cfg, c0, run[..k]);
    RunReaches(cfg, c0, run[..k + 1]);
  }

  lemma RunReaches(cfg: Config, c0: Cluster, run: seq<Label>)
    requires Init(cfg, c0) && Runs(cfg, c0, run)
    ensures Reachable(cfg, Exec(cfg, c0, run))
  {
  }

  lemma PrefixStep(cfg: Config, c0: Cluster, run: seq<Label>, k: nat)
    requires Runs(cfg, c0, run) && k < |run|
    ensures Runs(cfg, c0, run[..k]) && Runs(cfg, c0, run[..k + 1])
    ensures CanStep(Exec(cfg, c0, run[..k]), run[k])
    ensures Exec(cfg, c0, run[..k + 1]) == Step(cfg, Exec(cfg, c0, run[..k]), run[k])
  {
    PrefixRuns(cfg, c0, run, k);
    PrefixRuns(cfg, c0, run, k + 1);
    LastStep(cfg, c0, run[..k + 1]);
    assert run[..k + 1][..k] == run[..k];
  }

  lemma LastStep(cfg: Config, c0: Cluster, run: seq<Label>)
    requires Runs(cfg, c0, run) && run != []
    ensures var k := |run| - 1;
            && Runs(cfg, c0, run[..k]) && CanStep(Exec(cfg, c0, run[..k]), run[k])
            && Exec(cfg, c0, run) == Step(cfg, Exec(cfg, c0, run[..k]), run[k])
  {
  }

  /** What one node knows at one moment it knows at every later one. */
  lemma {:induction false} RunGrows(cfg: Config, c0: Cluster, run: seq<Label>, k: nat)
    requires Init(cfg, c0) && Runs(cfg, c0, run) && k <= |run|
    ensures Runs(cfg, c0, run[..k]) && AllGrow(Exec(cfg, c0, run[..k]), Exec(cfg, c0, run))
    decreases |run|
  {
    if k == |run| {
      assert run[..k] == run;
    } else {
      var before, l := run[..|run| - 1], run[|run| - 1];
      assert run[..k] == before[..k];
      RunGrows(cfg, c0, before, k);
      assert Reachable(cfg, Exec(cfg, c0, before));
      GrowsOn(cfg, Exec(cfg, c0, run[..k]), Exec(cfg, c0, before), l);
    }
  }

  lemma GrowsBetween(cfg: Config, c0: Cluster, run: seq<Label>, k: nat, m: nat)
    requires Init(cfg, c0) && Runs(cfg, c0, run) && k <= m <= |run|
    ensures Runs(cfg, c0, run[..k]) && Runs(cfg, c0, run[..m])
    ensures AllGrow(Exec(cfg, c0, run[..k]), Exec(cfg, c0, run[..m]))
  {
    PrefixRuns(cfg, c0, run, m);
    assert run[..m][..k] == run[..k];
    RunGrows(cfg, c0, run[..m], k);
  }

  predicate GrowsAt(a: Cluster, b: Cluster, i: NodeId, d: Dot) {
    i in a.nodes ==> i in b.nodes && Grows(a.nodes[i], b.nodes[i], d)
  }

  lemma NodeGrows(cfg: Config, c0: Cluster, run: seq<Label>, k: nat, m: nat, i: NodeId, d: Dot)
    requires Init(cfg, c0) && Runs(cfg, c0, run) && k <= m <= |run|
    ensures Runs(cfg, c0, run[..k]) && Runs(cfg, c0, run[..m])
    ensures GrowsAt(Exec(cfg, c0, run[..k]), Exec(cfg, c0, run[..m]), i, d)
  {
    GrowsBetween(cfg, c0, run, k, m);
  }

  lemma GrowsOn(cfg: Config, a: Cluster, b: Cluster, l: Label)
    requires AllGrow(a, b) && Reachable(cfg, b) && CanStep(b, l)
    ensures AllGrow(a, Step(cfg, b, l))
  {
    ReachableInv(cfg, b);
    StepAllGrow(cfg, b, l);
    AllGrowTransitive(a, b, Step(cfg, b, l));
  }

  lemma AllGrowTransitive(a: Cluster, b: Cluster, c: Cluster)
    requires AllGrow(a, b) && AllGrow(b, c)
    ensures AllGrow(a, c)
  {
    forall i, d | i in a.nodes ensures Grows(a.nodes[i], c.nodes[i], d) {
      assert Grows(a.nodes[i], b.nodes[i], d) && Grows(b.nodes[i], c.nodes[i], d);
    }
  }

  /** A message about a command never carries a clock before that command's own. */
  lemma MessageClock(cfg: Config, c: Cluster, e: Envelope)
    requires Reachable(cfg, c) && e in c.net && !e.msg.ClockBump?
    ensures e.msg.dot.node in c.nodes && e.msg.dot in c.nodes[e.msg.dot.node].tasks
    ensures Stored(c.nodes[e.msg.dot.node].tasks[e.msg.dot])
    ensures c.nodes[e.msg.dot.node].tasks[e.msg.dot].clock <= e.msg.clock
  {
    ReachableInv(cfg, c);
    assert EnvOk(cfg, c, e);
  }

  /** Two different proposals, the first with the smaller clock. */
  predicate ClockedBefore(c: Cluster, earlier: Dot, d: Dot) {
    && earlier.node in c.nodes && earlier in c.nodes[earlier.node].tasks && earlier != d
    && d.node in c.nodes && d in c.nodes[d.node].tasks
    && c.nodes[earlier.node].tasks[earlier].clock < c.nodes[d.node].tasks[d].clock
  }

  /** Causality: a proposal whose clock is taken after its node handled any message about another
      command is timestamped strictly later than that command. */
  lemma {:induction false} CausalClocks(cfg: Config, c0: Cluster, run: seq<Label>, k: nat, m: nat, env: Envelope, d: Dot, p: nat, q: nat)
    requires Init(cfg, c0) && Runs(cfg, c0, run) && k < m < |run|
    requires run[k].event == Deliver(env, p) && !env.msg.ClockBump?
    requires run[m] == Label(run[k].node, TaskTick(d, q))
    ensures Runs(cfg, c0, run[..m + 1]) && ClockedBefore(Exec(cfg, c0, run[..m + 1]), env.msg.dot, d)
  {
    ReceivedBefore(cfg, c0, run, k, m, env, p);
    PrefixReachable(cfg, c0, run, m);
    Ticked(cfg, Exec(cfg, c0, run[..m]), run[m], env.msg.dot, env.msg.clock);
  }

  lemma ReceivedBefore(cfg: Config, c0: Cluster, run: seq<Label>, k: nat, m: nat, env: Envelope, p: nat)
    requires Init(cfg, c0) && Runs(cfg, c0, run) && k < m <= |run|
    requires run[k].event == Deliver(env, p) && !env.msg.ClockBump?
    ensures Runs(cfg, c0, run[..m]) && run[k].node in Exec(cfg, c0, run[..m]).nodes
    ensures env.msg.clock <= Exec(cfg, c0, run[..m]).nodes[run[k].node].clock
    ensures Known(Exec(cfg, c0, run[..m]), env.msg.dot, env.msg.clock)
  {
    DeliveredNext(cfg, c0, run, k, env, p);
    NodeGrows(cfg, c0, run, k, m, env.msg.dot.node, env.msg.dot);
    StillKnown(cfg, Exec(cfg, c0, run[..k]), env, Exec(cfg, c0, run[..m]));
    NodeGrows(cfg, c0, run, k + 1, m, run[k].node, env.msg.dot);
  }

  lemma DeliveredNext(cfg: Config, c0: Cluster, run: seq<Label>, k: nat, env: Envelope, p: nat)
    requires Init(cfg, c0) && Runs(cfg, c0, run) && k < |run| && run[k].event == Deliver(env, p)
    ensures Runs(cfg, c0, run[..k]) && Runs(cfg, c0, run[..k + 1])
    ensures Reachable(cfg, Exec(cfg, c0, run[..k])) && env in Exec(cfg, c0, run[..k]).net
    ensures var after := Exec(cfg, c0, run[..k + 1]);
            run[k].node in after.nodes && env.msg.clock <= after.nodes[run[k].node].clock
  {
    PrefixReachable(cfg, c0, run, k);
    Delivered(cfg, Exec(cfg, c0, run[..k]), run[k], env, p, Exec(cfg, c0, run[..k + 1]));
  }

  lemma Delivered(cfg: Config, c: Cluster, l: Label, env: Envelope, p: nat, after: Cluster)
    requires CanStep(c, l) && l.event == Deliver(env, p) && after == Step(cfg, c, l)
    ensures env in c.net && l.node in after.nodes && env.msg.clock <= after.nodes[l.node].clock
  {
  }

  lemma StillKnown(cfg: Config, c: Cluster, env: Envelope, late: Cluster)
    requires Reachable(cfg, c) && env in c.net && !env.msg.ClockBump?
    requires GrowsAt(c, late, env.msg.dot.node, env.msg.dot)
    ensures Known(late, env.msg.dot, env.msg.clock)
  {
    MessageClock(cfg, c, env);
  }

  /** The command is registered with a clock of at most `bound`. */
  predicate Known(c: Cluster, d: Dot, bound: nat) {
    && d.node in c.nodes && d in c.nodes[d.node].tasks
    && Stored(c.nodes[d.node].tasks[d]) && c.nodes[d.node].tasks[d].clock <= bound
  }

  lemma Ticked(cfg: Config, c: Cluster, l: Label, earlier: Dot, bound: nat)
    requires Reachable(cfg, c) && CanStep(c, l) && l.event.TaskTick?
    requires Known(c, earlier, bound) && bound <= c.nodes[l.node].clock
    ensures var c' := Step(cfg, c, l);
            && Known(c', earlier, bound) && earlier != l.event.dot && l.event.dot.node == l.node
            && l.event.dot in c'.nodes[l.node].tasks && bound < c'.nodes[l.node].tasks[l.event.dot].clock
  {
    OwnTask(cfg, c, l.node, l.event.dot);
  }

  lemma OwnTask(cfg: Config, c: Cluster, i: NodeId, d: Dot)
    requires Reachable(cfg, c) && i in c.nodes && d in c.nodes[i].tasks
    ensures d.node == i
  {
    ReachableInv(cfg, c);
    assert DotOk(cfg, i, c.nodes[i], d);
  }

  /** Every acknowledgment an owner has recorded from another node is strictly later than the command. */
  lemma AckClocks(cfg: Config, c: Cluster, i: NodeId, d: Dot, j: NodeId)
    requires Reachable(cfg, c) && i in cfg.members && d in c.nodes[i].book.commands
    requires j in c.nodes[i].book.commands[d].acks
    ensures d.node == i && j in cfg.members && Holds(c, j, d)
    ensures if j == i then c.nodes[i].book.commands[d].acks[j] == c.nodes[i].book.commands[d].clock
            else c.nodes[i].book.commands[d].acks[j] > c.nodes[i].book.commands[d].clock
  {
    ReachableInv(cfg, c);
    assert KnowsDot(cfg, c, i, c.nodes[i], d);
  }

  // ----- convergence -----

  /** The dots of the log that write key `k`, in the order this node applied them. */
  function DotsOnKey(log: seq<Applied>, k: Key): seq<Dot> {
    if log == [] then []
    else DotsOnKey(log[..|log| - 1], k) + (if Touches(log[|log| - 1].changelog, k) then [log[|log| - 1].dot] else [])
  }

  function ProposedAll(c: Cluster, ds: seq<Dot>): seq<ChangeLog>
    requires forall d :: d in ds ==> d.node in c.nodes && d in c.nodes[d.node].tasks
  {
    seq(|ds|, i requires 0 <= i < |ds| => Proposed(c, ds[i]))
  }

  /** The projection of a log onto a key is the proposals of its dots on that key. */
  lemma {:induction false} ProjectionByDots(c: Cluster, log: seq<Applied>, k: Key)
    requires forall a :: a in log ==> KnowsEntry(c, a)
    ensures forall d :: d in DotsOnKey(log, k) ==> d.node in c.nodes && d in c.nodes[d.node].tasks
    ensures OnKey(Changes(log), k) == ProposedAll(c, DotsOnKey(log, k))
    decreases |log|
  {
    if log != [] {
      var front, last := log[..|log| - 1], log[|log| - 1];
      assert Changes(log)[..|log| - 1] == Changes(front);
      assert KnowsEntry(c, last);
      ProjectionByDots(c, front, k);
    }
  }

  /** Two nodes that applied the same dots in the same order for every key hold equal stores. */
  lemma SameKeyOrderConverges(cfg: Config, c: Cluster, i: NodeId, j: NodeId)
    requires Reachable(cfg, c) && i in cfg.members && j in cfg.members
    requires forall k :: DotsOnKey(c.nodes[i].log, k) == DotsOnKey(c.nodes[j].log, k)
    ensures c.nodes[i].store == c.nodes[j].store
  {
    AppliedOnceAndAuthentic(cfg, c, i);
    AppliedOnceAndAuthentic(cfg, c, j);
    var a, b := c.nodes[i].log, c.nodes[j].log;
    forall k ensures OnKey(Changes(a), k) == OnKey(Changes(b), k) {
      ProjectionByDots(c, a, k);
      ProjectionByDots(c, b, k);
    }
    SameOrderPerKey(cfg.initial, Changes(a), Changes(b));
  }

  /** Read key by key: stores of two nodes are equal when the last changelogs they applied to each key leave the
      same, and only then. */
  lemma EqualKeyByKey(cfg: Config, c: Cluster, i: NodeId, j: NodeId)
    requires Reachable(cfg, c) && i in cfg.members && j in cfg.members
    ensures c.nodes[i].store == c.nodes[j].store <==>
            forall k :: Outcome(LastWrite(Changes(c.nodes[i].log), k), At(cfg.initial, k))
                     == Outcome(LastWrite(Changes(c.nodes[j].log), k), At(cfg.initial, k))
  {
    AppliedOnceAndAuthentic(cfg, c, i);
    AppliedOnceAndAuthentic(cfg, c, j);
    FoldsEqualIff(cfg.initial, Changes(c.nodes[i].log), cfg.initial, Changes(c.nodes[j].log));
  }

  /** Nothing at this node is between its commit mark and its apply, in either order. */
  ghost predicate Settled(n: Node) {
    !n.handler.ForeignMark? && forall d :: !InApplying(n, d)
  }

  lemma SettledAt(me: NodeId, n: Node, d: Dot)
    requires OnceOk(me, n, d) && !InApplying(n, d) && !InForeignMark(n, d)
    ensures d in AppliedDots(n.log) <==> d in n.book.committedDots
  {
  }

  lemma DotSettled(cfg: Config, me: NodeId, n: Node, d: Dot)
    requires NodeInv(cfg, me, n) && Settled(n)
    ensures d in AppliedDots(n.log) <==> d in n.book.committedDots
  {
    assert DotOk(cfg, me, n, d);
    SettledAt(me, n, d);
  }

  lemma NodeSettled(cfg: Config, me: NodeId, n: Node)
    requires NodeInv(cfg, me, n) && Settled(n)
    ensures AppliedDots(n.log) == n.book.committedDots
  {
    forall d ensures d in AppliedDots(n.log) <==> d in n.book.committedDots {
      DotSettled(cfg, me, n, d);
    }
  }

  lemma SettledApplied(cfg: Config, c: Cluster, i: NodeId)
    requires Reachable(cfg, c) && i in cfg.members && Settled(c.nodes[i])
    ensures AppliedDots(c.nodes[i].log) == c.nodes[i].book.committedDots
  {
    ReachableInv(cfg, c);
    NodeSettled(cfg, i, c.nodes[i]);
  }

  lemma {:induction false} LastWriteWitness(log: seq<ChangeLog>, k: Key)
    ensures LastWrite(log, k).Some? ==> exists x :: x in log && Touches(x, k) && LastWrite(log, k) == Effect(x)
    ensures (exists x :: x in log && Touches(x, k)) ==> LastWrite(log, k).Some?
    decreases |log|
  {
    if log != [] {
      LastWriteWitness(log[..|log| - 1], k);
    }
  }

  lemma LastWriteOfDots(cfg: Config, c: Cluster, i: NodeId, k: Key)
    requires Reachable(cfg, c) && i in cfg.members
    ensures LastWrite(Changes(c.nodes[i].log), k).Some? ==>
              exists a :: a in c.nodes[i].log && Touches(a.changelog, k)
                       && LastWrite(Changes(c.nodes[i].log), k) == Effect(a.changelog)
    ensures (exists a :: a in c.nodes[i].log && Touches(a.changelog, k)) ==>
              LastWrite(Changes(c.nodes[i].log), k).Some?
  {
    var log := c.nodes[i].log;
    LastWriteWitness(Changes(log), k);
    if LastWrite(Changes(log), k).Some? {
      var x :| x in Changes(log) && Touches(x, k) && LastWrite(Changes(log), k) == Effect(x);
      var p :| 0 <= p < |log| && Changes(log)[p] == x;
      assert log[p] in log;
    }
    if a :| a in log && Touches(a.changelog, k) {
      var p :| 0 <= p < |log| && log[p] == a;
      assert Changes(log)[p] == a.changelog;
    }
  }

  /** Two nodes with the same commits, none of them half applied, hold equal stores when no two of the committed
      changelogs conflict, in whatever orders they were applied. */
  lemma NoConflictConverges(cfg: Config, c: Cluster, i: NodeId, j: NodeId)
    requires Reachable(cfg, c) && i in cfg.members && j in cfg.members
    requires Settled(c.nodes[i]) && Settled(c.nodes[j])
    requires c.nodes[i].book.committedDots == c.nodes[j].book.committedDots
    requires forall a, b :: a in c.nodes[i].log && b in c.nodes[i].log ==> !Conflicts(a.changelog, b.changelog)
    ensures c.nodes[i].store == c.nodes[j].store
  {
    SettledApplied(cfg, c, i);
    SettledApplied(cfg, c, j);
    EqualKeyByKey(cfg, c, i, j);
    forall k
      ensures LastWrite(Changes(c.nodes[i].log), k) == LastWrite(Changes(c.nodes[j].log), k)
    {
      NoConflictAt(cfg, c, i, j, k);
    }
  }

  lemma SameEntry(cfg: Config, c: Cluster, i: NodeId, j: NodeId, a: Applied)
    requires Reachable(cfg, c) && i in cfg.members && j in cfg.members
    requires a in c.nodes[i].log && a.dot in AppliedDots(c.nodes[j].log)
    ensures a in c.nodes[j].log
  {
    AppliedOnceAndAuthentic(cfg, c, i);
    AppliedOnceAndAuthentic(cfg, c, j);
    var b :| b in c.nodes[j].log && b.dot == a.dot;
    assert b == a;
  }

  lemma NoConflictAt(cfg: Config, c: Cluster, i: NodeId, j: NodeId, k: Key)
    requires Reachable(cfg, c) && i in cfg.members && j in cfg.members
    requires AppliedDots(c.nodes[i].log) == AppliedDots(c.nodes[j].log)
    requires forall a, b :: a in c.nodes[i].log && b in c.nodes[i].log ==> !Conflicts(a.changelog, b.changelog)
    ensures LastWrite(Changes(c.nodes[i].log), k) == LastWrite(Changes(c.nodes[j].log), k)
  {
    LastWriteOfDots(cfg, c, i, k);
    LastWriteOfDots(cfg, c, j, k);
    if LastWrite(Changes(c.nodes[i].log), k).Some? {
      var a :| a in c.nodes[i].log && Touches(a.changelog, k) && LastWrite(Changes(c.nodes[i].log), k) == Effect(a.changelog);
      SameEntry(cfg, c, i, j, a);
      var b :| b in c.nodes[j].log && Touches(b.changelog, k) && LastWrite(Changes(c.nodes[j].log), k) == Effect(b.changelog);
      SameEntry(cfg, c, j, i, b);
      if a.dot == b.dot {
        SameEntry(cfg, c, i, i, a);
        UniqueEntry(cfg, c, i, a, b);
      }
    } else if LastWrite(Changes(c.nodes[j].log), k).Some? {
      var b :| b in c.nodes[j].log && Touches(b.changelog, k) && LastWrite(Changes(c.nodes[j].log), k) == Effect(b.changelog);
      SameEntry(cfg, c, j, i, b);
    }
  }

  lemma UniqueEntry(cfg: Config, c: Cluster, i: NodeId, a: Applied, b: Applied)
    requires Reachable(cfg, c) && i in cfg.members && a in c.nodes[i].log && b in c.nodes[i].log && a.dot == b.dot
    ensures a == b
  {
    AppliedOnceAndAuthentic(cfg, c, i);
  }

  // ----- clock bumps -----

  /** A bump reaches every other member: whenever it is delivered to one that is free to take it, that member's clock is at
      least what the sender's was. */
  lemma BumpReaches(cfg: Config, c: Cluster, i: NodeId, j: NodeId, p: nat) returns (env: Envelope)
    requires c.nodes.Keys == cfg.members && CanStep(c, Label(i, BumpSend)) && j in cfg.members && j != i
    ensures var c' := Step(cfg, c, Label(i, BumpSend));
            && env in c'.net && env.from == i && env.to == j
            && (c'.nodes[j].handler.Idle? ==>
                  && CanStep(c', Label(j, Deliver(env, p)))
                  && Step(cfg, c', Label(j, Deliver(env, p))).nodes[j].clock >= c.nodes[i].clock)
  {
    env := Envelope(i, j, ClockBump(c.nodes[i].clock));
    var c' := Step(cfg, c, Label(i, BumpSend));
    assert env in Broadcast(cfg, i, ClockBump(c.nodes[i].clock));
    if c'.nodes[j].handler.Idle? {
      Delivered(cfg, c', Label(j, Deliver(env, p)), env, p, Step(cfg, c', Label(j, Deliver(env, p))));
    }
  }
}
