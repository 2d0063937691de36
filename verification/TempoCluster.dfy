/** The Tempo cluster: n nodes over a network that only remembers what was ever sent, so a message may
    be lost (never delivered), reordered, or delivered again; a node may stop for good at any point.
    Main result: an invariant of every run, and with it the safety of commits. */
module TempoCluster {
  import opened Resources
  import opened TempoBookkeeping
  import opened TempoNode
  import opened TempoNodeInvariant

  datatype Cluster = Cluster(nodes: map<NodeId, Node>, net: set<Envelope>)

  datatype Label = Label(node: NodeId, event: Event)

  predicate Init(cfg: Config, c: Cluster) {
    && c.nodes.Keys == cfg.members && c.net == {}
    && forall i :: i in c.nodes ==> c.nodes[i] == InitNode(cfg, i, c.nodes[i].clock)
  }

  predicate CanStep(c: Cluster, l: Label) {
    l.node in c.nodes && Enabled(l.node, c.nodes[l.node], c.net, l.event)
  }

  function Step(cfg: Config, c: Cluster, l: Label): (c': Cluster)
    requires CanStep(c, l)
    ensures c'.nodes.Keys == c.nodes.Keys
  {
    var out := NodeStep(cfg, l.node, c.nodes[l.node], c.net, l.event);
    Cluster(c.nodes[l.node := out.0], c.net + out.1)
  }

  /** `run` is a schedule that can be followed from `c`. */
  predicate Runs(cfg: Config, c: Cluster, run: seq<Label>)
    decreases |run|, 0
  {
    run == [] || (Runs(cfg, c, run[..|run| - 1]) && CanStep(Exec(cfg, c, run[..|run| - 1]), run[|run| - 1]))
  }

  function Exec(cfg: Config, c: Cluster, run: seq<Label>): (c': Cluster)
    requires Runs(cfg, c, run)
    ensures c'.nodes.Keys == c.nodes.Keys
    decreases |run|, 1
  {
    if run == [] then c else Step(cfg, Exec(cfg, c, run[..|run| - 1]), run[|run| - 1])
  }

  /** The owner has stored this proposal of its own. */
  predicate Registered(c: Cluster, d: Dot, cl: ChangeLog, clock: nat) {
    && d.node in c.nodes && d in c.nodes[d.node].tasks
    && var t := c.nodes[d.node].tasks[d];
       Stored(t) && t.changelog == cl && t.clock == clock
  }

  /** Node `j` has the command in its table, or has it committed already. */
  predicate Holds(c: Cluster, j: NodeId, d: Dot) {
    j in c.nodes && (d in c.nodes[j].book.commands || d in c.nodes[j].book.committedDots)
  }

  /** The owner has decided the commit. */
  predicate Decided(c: Cluster, d: Dot) {
    d.node in c.nodes && d in c.nodes[d.node].decided
  }

  predicate EnvOk(cfg: Config, c: Cluster, e: Envelope) {
    match e.msg
    case MCollect(d, clock, cl) => e.from == d.node && e.to != d.node && Registered(c, d, cl, clock)
    case MCollectAck(d, clock) =>
      && e.to == d.node && e.from != d.node && e.from in cfg.members && Holds(c, e.from, d)
      && d.node in c.nodes && d in c.nodes[d.node].tasks && Stored(c.nodes[d.node].tasks[d])
      && clock > c.nodes[d.node].tasks[d].clock
    case MCommit(d, clock, cl) =>
      e.from == d.node && e.to != d.node && Registered(c, d, cl, clock) && Decided(c, d)
    case ClockBump(_) => true
  }

  /** The acknowledgments an owner has recorded: its own with the proposal's clock, the others with a
      strictly later one and from nodes that really have the command. */
  ghost predicate AcksOk(cfg: Config, c: Cluster, me: NodeId, d: Dot, cmd: CommandInfo) {
    if d.node != me then cmd.acks == map[]
    else forall j :: j in cmd.acks ==>
      && j in cfg.members && Holds(c, j, d)
      && (if j == me then cmd.acks[j] == cmd.clock else cmd.acks[j] > cmd.clock)
  }

  ghost predicate KnowsDot(cfg: Config, c: Cluster, me: NodeId, n: Node, d: Dot) {
    && (d in n.book.commands ==>
          && Registered(c, d, n.book.commands[d].changelog, n.book.commands[d].clock)
          && AcksOk(cfg, c, me, d, n.book.commands[d]))
    && (d in n.book.committedDots ==> Decided(c, d))
    && (d in n.decided ==> forall j :: j in n.decided[d] ==> j in cfg.members && Holds(c, j, d))
  }

  predicate KnowsEntry(c: Cluster, a: Applied) {
    && Decided(c, a.dot) && a.dot in c.nodes[a.dot.node].tasks
    && c.nodes[a.dot.node].tasks[a.dot].changelog == a.changelog
  }

  predicate KnowsEnv(c: Cluster, me: NodeId, n: Node) {
    !n.handler.Idle? && !n.handler.AckCommit? ==> n.handler.env in c.net && n.handler.env.to == me
  }

  ghost predicate Knows(cfg: Config, c: Cluster, me: NodeId, n: Node) {
    && (forall d :: KnowsDot(cfg, c, me, n, d))
    && (forall a :: a in n.log ==> KnowsEntry(c, a))
    && KnowsEnv(c, me, n)
  }

  ghost predicate ClusterInv(cfg: Config, c: Cluster) {
    && c.nodes.Keys == cfg.members
    && (forall i :: i in c.nodes ==> NodeInv(cfg, i, c.nodes[i]) && Knows(cfg, c, i, c.nodes[i]))
    && (forall e :: e in c.net ==> EnvOk(cfg, c, e))
  }

  /** Every node and the network only gain knowledge. */
  ghost predicate AllGrow(c: Cluster, c': Cluster) {
    && c.nodes.Keys == c'.nodes.Keys && c.net <= c'.net
    && forall i, d :: i in c.nodes ==> Grows(c.nodes[i], c'.nodes[i], d)
  }

  lemma RegisteredGrows(c: Cluster, c': Cluster, d: Dot, cl: ChangeLog, clock: nat)
    requires AllGrow(c, c') && Registered(c, d, cl, clock)
    ensures Registered(c', d, cl, clock)
  {
    assert Grows(c.nodes[d.node], c'.nodes[d.node], d);
  }

  lemma HoldsGrows(c: Cluster, c': Cluster, j: NodeId, d: Dot)
    requires AllGrow(c, c') && Holds(c, j, d)
    ensures Holds(c', j, d)
  {
    assert Grows(c.nodes[j], c'.nodes[j], d);
  }

  lemma DecidedGrows(c: Cluster, c': Cluster, d: Dot)
    requires AllGrow(c, c') && Decided(c, d)
    ensures Decided(c', d)
  {
    assert Grows(c.nodes[d.node], c'.nodes[d.node], d);
  }

  lemma EnvGrows(cfg: Config, c: Cluster, c': Cluster, e: Envelope)
    requires AllGrow(c, c') && EnvOk(cfg, c, e)
    ensures EnvOk(cfg, c', e)
  {
    match e.msg
    case MCollect(d, clock, cl) => RegisteredGrows(c, c', d, cl, clock);
    case MCollectAck(d, _) =>
      HoldsGrows(c, c', e.from, d);
      assert Grows(c.nodes[d.node], c'.nodes[d.node], d);
    case MCommit(d, clock, cl) =>
      RegisteredGrows(c, c', d, cl, clock);
      DecidedGrows(c, c', d);
    case ClockBump(_) =>
  }

  lemma KnowsDotGrows(cfg: Config, c: Cluster, c': Cluster, me: NodeId, n: Node, d: Dot)
    requires AllGrow(c, c') && KnowsDot(cfg, c, me, n, d)
    ensures KnowsDot(cfg, c', me, n, d)
  {
    if d in n.book.commands {
      RegisteredGrows(c, c', d, n.book.commands[d].changelog, n.book.commands[d].clock);
    }
    if d in n.book.committedDots {
      DecidedGrows(c, c', d);
    }
    forall j | Holds(c, j, d) ensures Holds(c', j, d) {
      HoldsGrows(c, c', j, d);
    }
  }

  lemma KnowsEntryGrows(c: Cluster, c': Cluster, a: Applied)
    requires AllGrow(c, c') && KnowsEntry(c, a)
    ensures KnowsEntry(c', a)
  {
    DecidedGrows(c, c', a.dot);
    assert Grows(c.nodes[a.dot.node], c'.nodes[a.dot.node], a.dot);
  }

  lemma StepAllGrow(cfg: Config, c: Cluster, l: Label)
    requires ClusterInv(cfg, c) && CanStep(c, l)
    ensures AllGrow(c, Step(cfg, c, l))
  {
    var c' := Step(cfg, c, l);
    assert c'.nodes.Keys == c.nodes.Keys;
    forall i, d | i in c.nodes ensures Grows(c.nodes[i], c'.nodes[i], d) {
      if i == l.node {
        StepGrows(cfg, i, c.nodes[i], c.net, l.event, d);
      }
    }
  }

  lemma CommitKnows(cfg: Config, c': Cluster, me: NodeId, n: Node, pc: CommitPc, d: Dot)
    requires KnowsDot(cfg, c', me, n, d) && pc.dot.node == me && me in c'.nodes
    requires c'.nodes[me].decided == CommitStep(cfg, me, n, pc).node.decided
    ensures KnowsDot(cfg, c', me, CommitStep(cfg, me, n, pc).node, d)
  {
    match pc
    case Marking(_) =>
    case Applying(_, _, _) =>
    case Replying(_, _, _, _) =>
    case Announcing(_, _, _) =>
  }

  lemma TaskKnows(cfg: Config, c': Cluster, me: NodeId, n: Node, x: Dot, d: Dot)
    requires KnowsDot(cfg, c', me, n, d) && x in n.tasks && DotOk(cfg, me, n, x)
    requires me in cfg.members && me in c'.nodes && c'.nodes[me] == TaskOut(cfg, me, n, x).0
    ensures KnowsDot(cfg, c', me, TaskOut(cfg, me, n, x).0, d)
  {
    if n.tasks[x].pc.Committing? {
      CommitKnows(cfg, c', me, n, n.tasks[x].pc.commit, d);
    } else if n.tasks[x].pc.Storing? {
      StoringKnows(cfg, c', me, n, x, d);
    } else {
      CallLeavesBook(cfg, me, n, x);
    }
  }

  lemma CallLeavesBook(cfg: Config, me: NodeId, n: Node, x: Dot)
    requires x in n.tasks && !n.tasks[x].pc.Committing? && !n.tasks[x].pc.Storing?
    ensures TaskOut(cfg, me, n, x).0.book == n.book && TaskOut(cfg, me, n, x).0.decided == n.decided
  {
  }

  lemma StoringKnows(cfg: Config, c': Cluster, me: NodeId, n: Node, x: Dot, d: Dot)
    requires KnowsDot(cfg, c', me, n, d) && x in n.tasks && n.tasks[x].pc.Storing? && DotOk(cfg, me, n, x)
    requires me in cfg.members && me in c'.nodes && c'.nodes[me] == TaskOut(cfg, me, n, x).0
    ensures KnowsDot(cfg, c', me, TaskOut(cfg, me, n, x).0, d)
  {
    assert x !in n.book.commands;
    assert d == x ==> Holds(c', me, d);
  }

  lemma AckKnows(cfg: Config, c': Cluster, me: NodeId, n: Node, d: Dot)
    requires KnowsDot(cfg, c', me, n, d) && n.handler.AckRecord? && HandlerOk(me, n)
    requires EnvOk(cfg, c', n.handler.env)
    requires d in n.book.commands && d == n.handler.env.msg.dot ==> n.book.commands[d].clock < n.handler.env.msg.clock
    requires n.handler.env.to == me
    ensures KnowsDot(cfg, c', me, HandlerOut(cfg, me, n).0, d)
  {
  }

  /** Storing a collected command, or marking a committed one. */
  lemma ForeignKnows(cfg: Config, c': Cluster, me: NodeId, n: Node, d: Dot)
    requires KnowsDot(cfg, c', me, n, d) && HandlerKind(n.handler) && (n.handler.CollectStore? || n.handler.ForeignMark?)
    requires n.handler.env.msg.dot.node != me
    requires n.handler.CollectStore? ==>
               Registered(c', n.handler.env.msg.dot, n.handler.env.msg.changelog, n.handler.env.msg.clock)
    requires n.handler.ForeignMark? ==> Decided(c', n.handler.env.msg.dot)
    ensures KnowsDot(cfg, c', me, HandlerOut(cfg, me, n).0, d)
  {
    if n.handler.CollectStore? {
    } else {
    }
  }

  lemma OwnCommitKnows(cfg: Config, c': Cluster, me: NodeId, n: Node, d: Dot)
    requires KnowsDot(cfg, c', me, n, d) && n.handler.AckCommit? && n.handler.commit.dot.node == me
    requires me in c'.nodes && c'.nodes[me].decided == HandlerOut(cfg, me, n).0.decided
    ensures KnowsDot(cfg, c', me, HandlerOut(cfg, me, n).0, d)
  {
    CommitKnows(cfg, c', me, n, n.handler.commit, d);
  }

  /** Every other event changes the table by dropping commands at most. */
  lemma OtherKnows(cfg: Config, me: NodeId, n: Node, net: set<Envelope>, ev: Event, c': Cluster, d: Dot)
    requires Enabled(me, n, net, ev) && !ev.TaskStep? && !ev.HandlerStep?
    requires KnowsDot(cfg, c', me, n, d)
    ensures KnowsDot(cfg, c', me, NodeStep(cfg, me, n, net, ev).0, d)
  {
    var n' := NodeStep(cfg, me, n, net, ev).0;
    assert n'.book.committedDots == n.book.committedDots && n'.decided == n.decided;
    assert d in n'.book.commands ==> d in n.book.commands && n'.book.commands[d] == n.book.commands[d];
  }

  /** The message in hand is true, and an acknowledgment in hand is later than the command it is for. */
  lemma HandlerEnvOk(cfg: Config, c: Cluster, me: NodeId)
    requires ClusterInv(cfg, c) && me in c.nodes
    requires !c.nodes[me].handler.Idle? && !c.nodes[me].handler.AckCommit?
    ensures EnvOk(cfg, c, c.nodes[me].handler.env) && c.nodes[me].handler.env.to == me
    ensures var n := c.nodes[me];
            n.handler.AckRecord? && n.handler.env.msg.dot in n.book.commands ==>
              n.book.commands[n.handler.env.msg.dot].clock < n.handler.env.msg.clock
  {
    var n := c.nodes[me];
    assert n.handler.env in c.net;
    if n.handler.AckRecord? {
      assert DotOk(cfg, me, n, n.handler.env.msg.dot);
    }
  }

  lemma HandlerLeavesBook(cfg: Config, me: NodeId, n: Node)
    requires HandlerKind(n.handler) && !n.handler.AckRecord? && !n.handler.AckCommit?
    requires !n.handler.CollectStore? && !n.handler.ForeignMark?
    ensures HandlerOut(cfg, me, n).0.book == n.book && HandlerOut(cfg, me, n).0.decided == n.decided
  {
  }

  lemma HandlerKnowsDot(cfg: Config, c: Cluster, c': Cluster, me: NodeId, d: Dot)
    requires ClusterInv(cfg, c) && me in c.nodes && AllGrow(c, c') && HandlerKind(c.nodes[me].handler)
    requires c'.nodes[me] == HandlerOut(cfg, me, c.nodes[me]).0
    requires KnowsDot(cfg, c', me, c.nodes[me], d)
    ensures KnowsDot(cfg, c', me, c'.nodes[me], d)
  {
    var n := c.nodes[me];
    if !n.handler.Idle? && !n.handler.AckCommit? {
      HandlerEnvOk(cfg, c, me);
      EnvGrows(cfg, c, c', n.handler.env);
    }
    if n.handler.AckRecord? {
      AckKnows(cfg, c', me, n, d);
    } else if n.handler.AckCommit? {
      OwnCommitKnows(cfg, c', me, n, d);
    } else if n.handler.CollectStore? || n.handler.ForeignMark? {
      ForeignKnows(cfg, c', me, n, d);
    } else {
      HandlerLeavesBook(cfg, me, n);
    }
  }

  lemma KnowsDotStep(cfg: Config, c: Cluster, l: Label, d: Dot)
    requires ClusterInv(cfg, c) && CanStep(c, l)
    ensures KnowsDot(cfg, Step(cfg, c, l), l.node, Step(cfg, c, l).nodes[l.node], d)
  {
    var me, n, c' := l.node, c.nodes[l.node], Step(cfg, c, l);
    StepAllGrow(cfg, c, l);
    assert KnowsDot(cfg, c, me, n, d);
    KnowsDotGrows(cfg, c, c', me, n, d);
    if l.event.TaskStep? {
      assert DotOk(cfg, me, n, l.event.dot);
      TaskKnows(cfg, c', me, n, l.event.dot, d);
    } else if l.event.HandlerStep? {
      HandlerKnowsDot(cfg, c, c', me, d);
    } else {
      OtherKnows(cfg, me, n, c.net, l.event, c', d);
    }
  }

  /** What a task appends to the log is its own decided proposal. */
  lemma TaskEntry(cfg: Config, c: Cluster, me: NodeId, x: Dot, a: Applied)
    requires ClusterInv(cfg, c) && me in c.nodes && x in c.nodes[me].tasks
    requires a in TaskOut(cfg, me, c.nodes[me], x).0.log && a !in c.nodes[me].log
    ensures KnowsEntry(c, a)
  {
    assert DotOk(cfg, me, c.nodes[me], x);
  }

  /** What the message loop appends to the log is a decided proposal with its own changelog. */
  lemma HandlerEntry(cfg: Config, c: Cluster, me: NodeId, a: Applied)
    requires ClusterInv(cfg, c) && me in c.nodes
    requires HandlerKind(c.nodes[me].handler)
    requires a in HandlerOut(cfg, me, c.nodes[me]).0.log && a !in c.nodes[me].log
    ensures KnowsEntry(c, a)
  {
    var n := c.nodes[me];
    if n.handler.AckCommit? {
      assert DotOk(cfg, me, n, n.handler.commit.dot);
    } else if n.handler.ForeignApply? {
      HandlerEnvOk(cfg, c, me);
    }
  }

  lemma KnowsEntryStep(cfg: Config, c: Cluster, l: Label, a: Applied)
    requires ClusterInv(cfg, c) && CanStep(c, l) && a in Step(cfg, c, l).nodes[l.node].log
    ensures KnowsEntry(Step(cfg, c, l), a)
  {
    StepAllGrow(cfg, c, l);
    NewEntry(cfg, c, l, a);
    KnowsEntryGrows(c, Step(cfg, c, l), a);
  }

  lemma NewEntry(cfg: Config, c: Cluster, l: Label, a: Applied)
    requires ClusterInv(cfg, c) && CanStep(c, l) && a in Step(cfg, c, l).nodes[l.node].log
    ensures KnowsEntry(c, a)
  {
    if a !in c.nodes[l.node].log {
      if l.event.TaskStep? {
        TaskEntry(cfg, c, l.node, l.event.dot, a);
      } else if l.event.HandlerStep? {
        HandlerEntry(cfg, c, l.node, a);
      } else {
        LogGrowsBySections(cfg, l.node, c.nodes[l.node], c.net, l.event);
      }
    }
  }

  lemma LogGrowsBySections(cfg: Config, me: NodeId, n: Node, net: set<Envelope>, ev: Event)
    requires Enabled(me, n, net, ev) && !ev.TaskStep? && !ev.HandlerStep?
    ensures NodeStep(cfg, me, n, net, ev).0.log == n.log
  {
  }

  lemma HandlerKeepsEnv(cfg: Config, me: NodeId, n: Node)
    requires HandlerKind(n.handler)
    ensures var h := HandlerOut(cfg, me, n).0.handler;
            h.Idle? || h.AckCommit? || (!n.handler.Idle? && !n.handler.AckCommit? && h.env == n.handler.env)
  {
  }

  /** The message in hand is the one just delivered or the one already there. */
  lemma StepKeepsEnv(cfg: Config, me: NodeId, n: Node, net: set<Envelope>, ev: Event)
    requires Enabled(me, n, net, ev) && (ev.TaskStep? ==> TaskOk(me, n, ev.dot))
    ensures var h := NodeStep(cfg, me, n, net, ev).0.handler;
            || h.Idle? || h.AckCommit?
            || (if ev.Deliver? then h.env == ev.env
                else !n.handler.Idle? && !n.handler.AckCommit? && h.env == n.handler.env)
  {
    match ev
    case TaskStep(x) => TaskLeavesHandler(cfg, me, n, x);
    case HandlerStep => HandlerKeepsEnv(cfg, me, n);
    case _ =>
  }

  lemma KnowsEnvStep(cfg: Config, c: Cluster, l: Label)
    requires CanStep(c, l) && KnowsEnv(c, l.node, c.nodes[l.node])
    requires l.event.TaskStep? ==> TaskOk(l.node, c.nodes[l.node], l.event.dot)
    ensures KnowsEnv(Step(cfg, c, l), l.node, Step(cfg, c, l).nodes[l.node])
  {
    StepKeepsEnv(cfg, l.node, c.nodes[l.node], c.net, l.event);
  }

  lemma TaskSends(cfg: Config, c: Cluster, me: NodeId, x: Dot, e: Envelope)
    requires ClusterInv(cfg, c) && me in c.nodes && x in c.nodes[me].tasks
    requires e in TaskOut(cfg, me, c.nodes[me], x).1
    ensures EnvOk(cfg, c, e)
  {
    assert DotOk(cfg, me, c.nodes[me], x);
  }

  lemma HandlerSends(cfg: Config, c: Cluster, me: NodeId, e: Envelope)
    requires ClusterInv(cfg, c) && me in c.nodes
    requires HandlerKind(c.nodes[me].handler) && e in HandlerOut(cfg, me, c.nodes[me]).1
    ensures EnvOk(cfg, c, e)
  {
    var n := c.nodes[me];
    if n.handler.AckCommit? {
      assert DotOk(cfg, me, n, n.handler.commit.dot);
    } else {
      assert EnvOk(cfg, c, n.handler.env);
    }
  }

  /** Every message a step sends is true when it is sent. */
  lemma EnvStep(cfg: Config, c: Cluster, l: Label, e: Envelope)
    requires ClusterInv(cfg, c) && CanStep(c, l) && e in Step(cfg, c, l).net
    ensures EnvOk(cfg, Step(cfg, c, l), e)
  {
    if e !in c.net {
      if l.event.TaskStep? {
        TaskSends(cfg, c, l.node, l.event.dot, e);
      } else if l.event.HandlerStep? {
        HandlerSends(cfg, c, l.node, e);
      }
    }
    assert EnvOk(cfg, c, e);
    StepAllGrow(cfg, c, l);
    EnvGrows(cfg, c, Step(cfg, c, l), e);
  }

  /** The node that moves. */
  lemma MoverInvStep(cfg: Config, c: Cluster, l: Label)
    requires ClusterInv(cfg, c) && CanStep(c, l)
    ensures var n' := Step(cfg, c, l).nodes[l.node];
            NodeInv(cfg, l.node, n') && Knows(cfg, Step(cfg, c, l), l.node, n')
  {
    var i, c' := l.node, Step(cfg, c, l);
    if l.event.Deliver? { assert EnvOk(cfg, c, l.event.env); }
    if l.event.TaskStep? { assert DotOk(cfg, i, c.nodes[i], l.event.dot); }
    NodeInvStep(cfg, i, c.nodes[i], c.net, l.event);
    forall d ensures KnowsDot(cfg, c', i, c'.nodes[i], d) { KnowsDotStep(cfg, c, l, d); }
    forall a | a in c'.nodes[i].log ensures KnowsEntry(c', a) { KnowsEntryStep(cfg, c, l, a); }
    KnowsEnvStep(cfg, c, l);
  }

  /** Every other node. */
  lemma KnowsGrows(cfg: Config, c: Cluster, c': Cluster, i: NodeId, n: Node)
    requires AllGrow(c, c') && Knows(cfg, c, i, n)
    ensures Knows(cfg, c', i, n)
  {
    forall d ensures KnowsDot(cfg, c', i, n, d) {
      assert KnowsDot(cfg, c, i, n, d);
      KnowsDotGrows(cfg, c, c', i, n, d);
    }
    forall a | a in n.log ensures KnowsEntry(c', a) { KnowsEntryGrows(c, c', a); }
  }

  /** Every step of every node keeps the cluster invariant. */
  lemma ClusterInvStep(cfg: Config, c: Cluster, l: Label)
    requires ClusterInv(cfg, c) && CanStep(c, l)
    ensures ClusterInv(cfg, Step(cfg, c, l))
  {
    var c' := Step(cfg, c, l);
    StepAllGrow(cfg, c, l);
    forall e | e in c'.net ensures EnvOk(cfg, c', e) { EnvStep(cfg, c, l, e); }
    forall i | i in c'.nodes ensures NodeInv(cfg, i, c'.nodes[i]) && Knows(cfg, c', i, c'.nodes[i]) {
      if i == l.node {
        MoverInvStep(cfg, c, l);
      } else {
        KnowsGrows(cfg, c, c', i, c.nodes[i]);
      }
    }
  }

  /** The invariant holds after every run from the start. */
  lemma {:induction false} EveryRun(cfg: Config, c: Cluster, run: seq<Label>)
    requires Init(cfg, c) && Runs(cfg, c, run)
    ensures ClusterInv(cfg, Exec(cfg, c, run))
    decreases |run|
  {
    if run == [] {
      forall i | i in c.nodes ensures NodeInv(cfg, i, c.nodes[i]) {
        InitInv(cfg, i, c.nodes[i].clock);
      }
    } else {
      EveryRun(cfg, c, run[..|run| - 1]);
      ClusterInvStep(cfg, Exec(cfg, c, run[..|run| - 1]), run[|run| - 1]);
    }
  }

  /** The states some run leads to. */
  ghost predicate Reachable(cfg: Config, c: Cluster) {
    exists c0, run :: Init(cfg, c0) && Runs(cfg, c0, run) && Exec(cfg, c0, run) == c
  }

  lemma ReachableInv(cfg: Config, c: Cluster)
    requires Reachable(cfg, c)
    ensures ClusterInv(cfg, c)
  {
    var c0, run :| Init(cfg, c0) && Runs(cfg, c0, run) && Exec(cfg, c0, run) == c;
    EveryRun(cfg, c0, run);
  }
}
