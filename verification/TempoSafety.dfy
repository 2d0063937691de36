/** What every run of the Tempo cluster guarantees. */
module TempoSafety {
  import opened Resources
  import opened Replay
  import opened TempoBookkeeping
  import opened TempoNode
  import opened TempoNodeInvariant
  import opened TempoCluster

  /** The changelog a dot stands for: the one its owner was asked to propose. */
  function Proposed(c: Cluster, d: Dot): ChangeLog
    requires d.node in c.nodes && d in c.nodes[d.node].tasks
  {
    c.nodes[d.node].tasks[d].changelog
  }

  // ----- application -----

  /** Over every run each node applies each dot at most once, what it applies is what the owner proposed,
      and its store is exactly the fold of what it applied. */
  lemma AppliedOnceAndAuthentic(cfg: Config, c: Cluster, i: NodeId)
    requires Reachable(cfg, c) && i in cfg.members
    ensures i in c.nodes
            && (forall j, k :: 0 <= j < k < |c.nodes[i].log| ==> c.nodes[i].log[j].dot != c.nodes[i].log[k].dot)
            && (forall a :: a in c.nodes[i].log ==>
                  && a.dot.node in c.nodes && a.dot in c.nodes[a.dot.node].tasks
                  && a.changelog == Proposed(c, a.dot) && Decided(c, a.dot))
            && c.nodes[i].store == Fold(cfg.initial, Changes(c.nodes[i].log))
  {
    ReachableInv(cfg, c);
    forall a | a in c.nodes[i].log ensures KnowsEntry(c, a) {
    }
  }

  /** The k-th event of the run is the call that hands out `d` for `cl`. */
  predicate HandsOut(cfg: Config, c0: Cluster, run: seq<Label>, k: nat, d: Dot, cl: ChangeLog) {
    && k < |run| && Runs(cfg, c0, run[..k]) && run[k] == Label(d.node, Event.Propose(cl))
    && d.node in c0.nodes && Exec(cfg, c0, run[..k]).nodes[d.node].nextSequence == d.sequence
  }

  /** Every task goes back to a `propose` event of its node, made when its sequence number came up. */
  lemma {:induction false} TaskWasProposed(cfg: Config, c0: Cluster, run: seq<Label>, d: Dot) returns (k: nat)
    requires Init(cfg, c0) && Runs(cfg, c0, run)
    requires d.node in c0.nodes && d in Exec(cfg, c0, run).nodes[d.node].tasks
    ensures HandsOut(cfg, c0, run, k, d, Proposed(Exec(cfg, c0, run), d))
    decreases |run|
  {
    StartsWithoutTasks(cfg, c0, d.node);
    var before, l := run[..|run| - 1], run[|run| - 1];
    var c := Exec(cfg, c0, before);
    LastStepReaches(cfg, c0, run);
    TaskOrigin(cfg, c, l, d);
    if d in c.nodes[d.node].tasks {
      k := TaskWasProposed(cfg, c0, before, d);
      HandsOutLater(cfg, c0, run, k, d, Proposed(c, d));
    } else {
      k := |run| - 1;
      HandsOutNow(cfg, c0, run, d, Proposed(Step(cfg, c, l), d));
    }
  }

  lemma LastStepReaches(cfg: Config, c0: Cluster, run: seq<Label>)
    requires Init(cfg, c0) && Runs(cfg, c0, run) && run != []
    ensures Runs(cfg, c0, run[..|run| - 1]) && Reachable(cfg, Exec(cfg, c0, run[..|run| - 1]))
    ensures CanStep(Exec(cfg, c0, run[..|run| - 1]), run[|run| - 1])
    ensures Exec(cfg, c0, run) == Step(cfg, Exec(cfg, c0, run[..|run| - 1]), run[|run| - 1])
  {
  }

  lemma HandsOutNow(cfg: Config, c0: Cluster, run: seq<Label>, d: Dot, cl: ChangeLog)
    requires run != [] && Runs(cfg, c0, run[..|run| - 1]) && run[|run| - 1] == Label(d.node, Event.Propose(cl))
    requires d.node in c0.nodes && Exec(cfg, c0, run[..|run| - 1]).nodes[d.node].nextSequence == d.sequence
    ensures HandsOut(cfg, c0, run, |run| - 1, d, cl)
  {
  }

  lemma HandsOutLater(cfg: Config, c0: Cluster, run: seq<Label>, k: nat, d: Dot, cl: ChangeLog)
    requires run != [] && HandsOut(cfg, c0, run[..|run| - 1], k, d, cl)
    ensures HandsOut(cfg, c0, run, k, d, cl)
  {
    assert run[..k] == run[..|run| - 1][..k];
  }

  lemma StartsWithoutTasks(cfg: Config, c: Cluster, i: NodeId)
    requires Init(cfg, c) && i in c.nodes
    ensures c.nodes[i].tasks == map[]
  {
    assert c.nodes[i] == InitNode(cfg, i, c.nodes[i].clock);
  }

  lemma TaskOrigin(cfg: Config, c: Cluster, l: Label, d: Dot)
    requires Reachable(cfg, c) && CanStep(c, l)
    requires d.node in c.nodes && d in Step(cfg, c, l).nodes[d.node].tasks
    ensures d in c.nodes[d.node].tasks ==> Proposed(Step(cfg, c, l), d) == Proposed(c, d)
    ensures d !in c.nodes[d.node].tasks ==>
              l == Label(d.node, Event.Propose(Proposed(Step(cfg, c, l), d))) && c.nodes[d.node].nextSequence == d.sequence
  {
    ReachableInv(cfg, c);
    if d in c.nodes[d.node].tasks {
      ProposalStays(cfg, c, l, d);
    } else {
      NewTaskIsProposed(cfg, c, l, d);
    }
  }

  lemma ProposalStays(cfg: Config, c: Cluster, l: Label, d: Dot)
    requires ClusterInv(cfg, c) && CanStep(c, l) && d.node in c.nodes && d in c.nodes[d.node].tasks
    ensures d in Step(cfg, c, l).nodes[d.node].tasks && Proposed(Step(cfg, c, l), d) == Proposed(c, d)
  {
    StepAllGrow(cfg, c, l);
    assert Grows(c.nodes[d.node], Step(cfg, c, l).nodes[d.node], d);
  }

  lemma NewTaskIsProposed(cfg: Config, c: Cluster, l: Label, d: Dot)
    requires ClusterInv(cfg, c) && CanStep(c, l)
    requires d.node in c.nodes && d !in c.nodes[d.node].tasks && d in Step(cfg, c, l).nodes[d.node].tasks
    ensures l == Label(d.node, Event.Propose(Proposed(Step(cfg, c, l), d)))
    ensures c.nodes[d.node].nextSequence == d.sequence
  {
    TasksGrowByProposals(cfg, l.node, c.nodes[l.node], c.net, l.event);
  }

  /** Only a `propose` call adds a task, under the next sequence number. */
  lemma TasksGrowByProposals(cfg: Config, me: NodeId, n: Node, net: set<Envelope>, ev: Event)
    requires NodeInv(cfg, me, n) && Enabled(me, n, net, ev)
    ensures var n' := NodeStep(cfg, me, n, net, ev).0;
            if ev.Propose? then n'.tasks == n.tasks[Dot(me, n.nextSequence) := Task(ev.changelog, 0, Ticking)]
            else n'.tasks.Keys == n.tasks.Keys
  {
    match ev
    case TaskStep(x) =>
      assert DotOk(cfg, me, n, x);
      TaskKeys(cfg, me, n, x);
    case HandlerStep => HandlerKeys(cfg, me, n);
    case _ =>
  }

  lemma TaskKeys(cfg: Config, me: NodeId, n: Node, x: Dot)
    requires x in n.tasks
    requires n.tasks[x].pc.Committing? ==> n.tasks[x].pc.commit.dot == x
    ensures TaskOut(cfg, me, n, x).0.tasks.Keys == n.tasks.Keys
  {
    if n.tasks[x].pc.Committing? {
      CommitKeys(cfg, me, n, n.tasks[x].pc.commit);
    }
  }

  lemma CommitKeys(cfg: Config, me: NodeId, n: Node, pc: CommitPc)
    ensures CommitStep(cfg, me, n, pc).node.tasks == n.tasks
  {
  }

  lemma HandlerKeys(cfg: Config, me: NodeId, n: Node)
    requires HandlerKind(n.handler)
    ensures HandlerOut(cfg, me, n).0.tasks == n.tasks
  {
  }

  // ----- commits -----

  /** Node `j` has this very proposal: tracked, applied, or about to be applied by its owner. */
  ghost predicate HoldsProposal(c: Cluster, j: NodeId, d: Dot)
    requires d.node in c.nodes && d in c.nodes[d.node].tasks
  {
    && j in c.nodes
    && var n := c.nodes[j];
       || (d in n.book.commands && n.book.commands[d].changelog == Proposed(c, d))
       || Applied(d, Proposed(c, d)) in n.log
       || (j == d.node && InApplying(n, d))
  }

  lemma HolderHasProposal(cfg: Config, c: Cluster, j: NodeId, d: Dot)
    requires ClusterInv(cfg, c) && d.node in c.nodes && d in c.nodes[d.node].tasks && Holds(c, j, d)
    ensures HoldsProposal(c, j, d)
  {
    var n := c.nodes[j];
    assert KnowsDot(cfg, c, j, n, d) && DotOk(cfg, j, n, d);
    if d !in n.book.commands && !(j == d.node && InApplying(n, d)) {
      var a :| a in n.log && a.dot == d;
      assert KnowsEntry(c, a);
    }
  }

  /** If any node has a dot committed, its owner decided so with acknowledgments of at least the quorum of
      distinct members, and each of them has this very proposal, garbage collection or not. */
  lemma CommitHasQuorum(cfg: Config, c: Cluster, i: NodeId, d: Dot)
    requires Reachable(cfg, c) && i in cfg.members
    requires d in c.nodes[i].book.committedDots
    ensures Decided(c, d) && d in c.nodes[d.node].tasks
            && c.nodes[d.node].decided[d] <= cfg.members
            && |c.nodes[d.node].decided[d]| >= cfg.quorum
            && forall j :: j in c.nodes[d.node].decided[d] ==> HoldsProposal(c, j, d)
  {
    ReachableInv(cfg, c);
    assert KnowsDot(cfg, c, i, c.nodes[i], d);
    assert DotOk(cfg, d.node, c.nodes[d.node], d) && KnowsDot(cfg, c, d.node, c.nodes[d.node], d);
    forall j | j in c.nodes[d.node].decided[d] ensures HoldsProposal(c, j, d) {
      HolderHasProposal(cfg, c, j, d);
    }
  }

  /** Commit messages about one dot never contradict each other or the proposal. */
  lemma CommitMessagesAgree(cfg: Config, c: Cluster, e: Envelope)
    requires Reachable(cfg, c) && e in c.net && e.msg.MCommit?
    ensures e.msg.dot.node in c.nodes && e.msg.dot in c.nodes[e.msg.dot.node].tasks
            && e.from == e.msg.dot.node && e.msg.changelog == Proposed(c, e.msg.dot)
            && e.msg.clock == c.nodes[e.from].tasks[e.msg.dot].clock && Decided(c, e.msg.dot)
  {
    ReachableInv(cfg, c);
    assert EnvOk(cfg, c, e);
  }

  // ----- clients -----

  /** A call that was answered with success had its changelog committed by a quorum and applied here. */
  lemma AnswerMeansApplied(cfg: Config, c: Cluster, i: NodeId, d: Dot, success: bool)
    requires Reachable(cfg, c) && i in cfg.members && d in c.nodes[i].tasks
    requires c.nodes[i].tasks[d].pc == Done(Answered(success))
    ensures var n := c.nodes[i];
            && Applied(d, n.tasks[d].changelog) in n.log
            && d in n.decided && |n.decided[d]| >= cfg.quorum
            && (success <==> Effect(n.tasks[d].changelog).Some?)
  {
    AppliedOnceAndAuthentic(cfg, c, i);
    ReachableInv(cfg, c);
    AnswerKept(cfg, i, c.nodes[i], d, success);
    var a :| a in c.nodes[i].log && a.dot == d;
  }

  lemma AnswerKept(cfg: Config, me: NodeId, n: Node, d: Dot, success: bool)
    requires NodeInv(cfg, me, n) && d in n.tasks && n.tasks[d].pc == Done(Answered(success))
    ensures d.node == me && d in AppliedDots(n.log) && d in n.decided && |n.decided[d]| >= cfg.quorum
    ensures success <==> Effect(n.tasks[d].changelog).Some?
  {
    assert DotOk(cfg, me, n, d);
    if d in n.replies {
      assert OnceOk(me, n, d) && CommandOk(cfg, me, n, d);
    }
  }

  /** A call still waiting is never forgotten: its sender is registered or its answer is in the channel,
      and once its dot is committed and nobody is inside the commit, the answer is there. */
  lemma NoLostWakeup(cfg: Config, c: Cluster, i: NodeId, d: Dot)
    requires Reachable(cfg, c) && i in cfg.members && d in c.nodes[i].tasks
    requires c.nodes[i].tasks[d].pc.Waiting?
    ensures var n := c.nodes[i];
            && (d in n.pending || d in n.replies)
            && (d in n.book.committedDots && !Active(n, d) ==> d in n.replies)
  {
    ReachableInv(cfg, c);
    assert DotOk(cfg, i, c.nodes[i], d);
    WaiterFacts(c.nodes[i], d);
  }

  lemma WaiterFacts(n: Node, d: Dot)
    requires ReplyOk(n, d) && d in n.tasks && n.tasks[d].pc.Waiting?
    ensures d in n.pending || d in n.replies
    ensures d in n.book.committedDots && !Active(n, d) ==> d in n.replies
  {
  }

  /** The end of a call is final: it is answered at most once, and never after it timed out. */
  lemma {:induction false} DoneIsFinal(cfg: Config, c0: Cluster, run: seq<Label>, k: nat, i: NodeId, d: Dot)
    requires Init(cfg, c0) && Runs(cfg, c0, run) && k <= |run| && i in cfg.members
    requires Runs(cfg, c0, run[..k]) && i in Exec(cfg, c0, run[..k]).nodes
    requires d in Exec(cfg, c0, run[..k]).nodes[i].tasks && Exec(cfg, c0, run[..k]).nodes[i].tasks[d].pc.Done?
    ensures i in Exec(cfg, c0, run).nodes && d in Exec(cfg, c0, run).nodes[i].tasks
    ensures Exec(cfg, c0, run).nodes[i].tasks[d] == Exec(cfg, c0, run[..k]).nodes[i].tasks[d]
    decreases |run|
  {
    if k == |run| {
      assert run[..k] == run;
    } else {
      var before, l := run[..|run| - 1], run[|run| - 1];
      assert run[..k] == before[..k];
      DoneIsFinal(cfg, c0, before, k, i, d);
      EveryRun(cfg, c0, before);
      DoneStaysInCluster(cfg, Exec(cfg, c0, before), l, i, d);
    }
  }

  lemma DoneStaysInCluster(cfg: Config, c: Cluster, l: Label, i: NodeId, d: Dot)
    requires ClusterInv(cfg, c) && CanStep(c, l) && i in c.nodes && d in c.nodes[i].tasks && c.nodes[i].tasks[d].pc.Done?
    ensures d in Step(cfg, c, l).nodes[i].tasks && Step(cfg, c, l).nodes[i].tasks[d] == c.nodes[i].tasks[d]
  {
    if l.node == i {
      DoneStays(cfg, i, c.nodes[i], c.net, l.event, d);
    }
  }

  lemma DoneStays(cfg: Config, me: NodeId, n: Node, net: set<Envelope>, ev: Event, d: Dot)
    requires NodeInv(cfg, me, n) && Enabled(me, n, net, ev) && d in n.tasks && n.tasks[d].pc.Done?
    ensures var n' := NodeStep(cfg, me, n, net, ev).0; d in n'.tasks && n'.tasks[d] == n.tasks[d]
  {
    assert DotOk(cfg, me, n, d);
    match ev
    case TaskStep(x) =>
      assert DotOk(cfg, me, n, x);
      if x != d { TaskStepFrame(cfg, me, n, x, d); }
    case HandlerStep => HandlerKeys(cfg, me, n);
    case _ =>
  }

  /** One broadcast of the decision per dot, and exactly for the own commits whose commit call has ended. */
  lemma OneDecisionPerDot(cfg: Config, c: Cluster, i: NodeId)
    requires Reachable(cfg, c) && i in cfg.members
    ensures var n := c.nodes[i];
            && Distinct(n.announced)
            && (forall d :: d in n.announced <==> d in n.book.committedDots && d.node == i && !Active(n, d))
            && (forall d :: !(HandlerActive(n, d) && TaskActive(n, d)))
  {
    ReachableInv(cfg, c);
    var n := c.nodes[i];
    forall d
      ensures d in n.announced <==> d in n.book.committedDots && d.node == i && !Active(n, d)
      ensures !(HandlerActive(n, d) && TaskActive(n, d))
    {
      assert DotOk(cfg, i, n, d);
      OnceFacts(i, n, d);
    }
  }

  lemma OnceFacts(me: NodeId, n: Node, d: Dot)
    requires OnceOk(me, n, d)
    ensures d in n.announced <==> d in n.book.committedDots && d.node == me && !Active(n, d)
    ensures !(HandlerActive(n, d) && TaskActive(n, d))
  {
  }

  /** The dot a node is about to hand out has never been seen anywhere. */
  lemma NextDotIsFresh(cfg: Config, c: Cluster, i: NodeId, j: NodeId)
    requires Reachable(cfg, c) && i in cfg.members && j in cfg.members
    ensures var d := Dot(i, c.nodes[i].nextSequence);
            && d !in c.nodes[i].tasks
            && d !in c.nodes[j].book.commands && d !in c.nodes[j].book.committedDots && d !in AppliedDots(c.nodes[j].log)
            && forall e :: e in c.net && !e.msg.ClockBump? ==> e.msg.dot != d
  {
    ReachableInv(cfg, c);
    var d := Dot(i, c.nodes[i].nextSequence);
    assert DotOk(cfg, i, c.nodes[i], d) && DotOk(cfg, j, c.nodes[j], d) && KnowsDot(cfg, c, j, c.nodes[j], d);
    forall a | a in c.nodes[j].log ensures a.dot != d {
      assert KnowsEntry(c, a);
    }
    forall e | e in c.net && !e.msg.ClockBump? ensures e.msg.dot != d {
      assert EnvOk(cfg, c, e);
    }
  }

  // ----- bookkeeping -----

  /** The counters the metrics report. */
  lemma Bookkeeping(cfg: Config, c: Cluster, i: NodeId)
    requires Reachable(cfg, c) && i in cfg.members
    ensures var b := c.nodes[i].book;
            && b.committedCount == |b.committedDots|
            && (forall d :: d in b.commands && b.commands[d].committed ==> d in b.committedDots)
            && (forall d :: d in b.commands && d.node == i && d in b.committedDots ==> b.commands[d].committed)
            && (forall d :: d in b.committedDots && d.node == i ==> d.sequence <= b.lastApplied)
            && (b.lastApplied == 0 || Dot(i, b.lastApplied) in b.committedDots)
  {
    ReachableInv(cfg, c);
    var n, b := c.nodes[i], c.nodes[i].book;
    forall d
      ensures d in b.commands && b.commands[d].committed ==> d in b.committedDots
      ensures d in b.commands && d.node == i && d in b.committedDots ==> b.commands[d].committed
      ensures d in b.committedDots && d.node == i ==> d.sequence <= b.lastApplied
    {
      assert DotOk(cfg, i, n, d);
      CommandFacts(cfg, i, n, d);
    }
  }

  lemma CommandFacts(cfg: Config, me: NodeId, n: Node, d: Dot)
    requires CommandOk(cfg, me, n, d)
    ensures d in n.book.commands && n.book.commands[d].committed ==> d in n.book.committedDots
    ensures d in n.book.commands && d.node == me && d in n.book.committedDots ==> n.book.commands[d].committed
    ensures d in n.book.committedDots && d.node == me ==> d.sequence <= n.book.lastApplied
  {
  }

  /** Garbage collection leaves at most `keepRecent` committed commands, forgets no commit and drops no
      undecided command; what it keeps is at least as recent as what it drops. */
  lemma CollectedBook(b: Book, keepRecent: nat, drop: set<Dot>)
    requires b.MayDrop(keepRecent, drop) && |b.commands| > keepRecent
    ensures |b.Drop(drop).CommittedCommands()| <= keepRecent
    ensures b.Drop(drop).committedDots == b.committedDots
    ensures forall d :: d in b.commands && !b.commands[d].committed ==>
              d in b.Drop(drop).commands && b.Drop(drop).commands[d] == b.commands[d]
    ensures forall d, e :: d in drop && e in b.Drop(drop).CommittedCommands() ==> d.sequence <= e.sequence
  {
    assert b.Drop(drop).CommittedCommands() == b.CommittedCommands() - drop;
    var kept := b.CommittedCommands() - drop;
    assert b.CommittedCommands() == kept + drop;
    assert |b.CommittedCommands()| == |kept| + |drop|;
  }

  // ----- what a commit makes collectible -----

  /** The commit of another node's command sets its flag if it is tracked, keeps everything else about it, and leaves
      every other command alone. */
  lemma ForeignMarkFlags(cfg: Config, me: NodeId, n: Node, net: set<Envelope>)
    requires NodeInv(cfg, me, n) && n.handler.ForeignMark? && Enabled(me, n, net, HandlerStep)
    ensures var d, b, b' := n.handler.env.msg.dot, n.book, NodeStep(cfg, me, n, net, HandlerStep).0.book;
            && d in b'.committedDots && (d in b'.commands <==> d in b.commands)
            && (d in b.commands ==>
                  && b'.commands[d].committed && b'.commands[d].changelog == b.commands[d].changelog
                  && b'.commands[d].clock == b.commands[d].clock && b'.commands[d].acks == b.commands[d].acks)
            && forall e :: e != d ==>
                 (e in b'.commands <==> e in b.commands) && (e in b.commands ==> b'.commands[e] == b.commands[e])
  {
    assert DotOk(cfg, me, n, n.handler.env.msg.dot);
  }

  /** The command is tracked, and flagged if it is committed. */
  predicate Followed(n: Node, d: Dot) {
    d in n.book.commands && (d in n.book.committedDots ==> n.book.commands[d].committed)
  }

  lemma CommitFollows(cfg: Config, me: NodeId, n: Node, pc: CommitPc, d: Dot)
    requires Followed(n, d)
    ensures Followed(CommitStep(cfg, me, n, pc).node, d)
  {
  }

  lemma TaskFollows(cfg: Config, me: NodeId, n: Node, x: Dot, d: Dot)
    requires x in n.tasks && Followed(n, d)
    requires n.tasks[x].pc.Committing? ==> n.tasks[x].pc.commit.dot == x
    ensures Followed(TaskOut(cfg, me, n, x).0, d)
  {
    if n.tasks[x].pc.Committing? {
      CommitFollows(cfg, me, n, n.tasks[x].pc.commit, d);
    }
  }

  lemma HandlerFollows(cfg: Config, me: NodeId, n: Node, d: Dot)
    requires HandlerKind(n.handler) && Followed(n, d)
    ensures Followed(HandlerOut(cfg, me, n).0, d)
  {
    if n.handler.AckCommit? {
      CommitFollows(cfg, me, n, n.handler.commit, d);
    }
  }

  lemma StepFollows(cfg: Config, me: NodeId, n: Node, net: set<Envelope>, ev: Event, d: Dot)
    requires NodeInv(cfg, me, n) && Enabled(me, n, net, ev) && Followed(n, d)
    requires d in NodeStep(cfg, me, n, net, ev).0.book.commands
    ensures Followed(NodeStep(cfg, me, n, net, ev).0, d)
  {
    match ev
    case TaskStep(x) =>
      assert DotOk(cfg, me, n, x);
      TaskFollows(cfg, me, n, x, d);
    case HandlerStep => HandlerFollows(cfg, me, n, d);
    case _ =>
  }

  /** The node tracks the command at every moment of the run from `k` on. */
  ghost predicate TrackedFrom(cfg: Config, c0: Cluster, run: seq<Label>, k: nat, i: NodeId, d: Dot) {
    forall m :: k <= m <= |run| ==>
      Runs(cfg, c0, run[..m]) && i in Exec(cfg, c0, run[..m]).nodes && d in Exec(cfg, c0, run[..m]).nodes[i].book.commands
  }

  lemma {:induction false} RunFollows(cfg: Config, c0: Cluster, run: seq<Label>, k: nat, i: NodeId, d: Dot)
    requires Init(cfg, c0) && Runs(cfg, c0, run) && k <= |run| && TrackedFrom(cfg, c0, run, k, i, d)
    requires Runs(cfg, c0, run[..k]) && i in c0.nodes && Followed(Exec(cfg, c0, run[..k]).nodes[i], d)
    ensures Followed(Exec(cfg, c0, run).nodes[i], d)
    decreases |run|
  {
    if k == |run| {
      assert run[..k] == run;
    } else {
      var before, l := run[..|run| - 1], run[|run| - 1];
      TrackedBefore(cfg, c0, run, k, i, d);
      assert before[..k] == run[..k];
      RunFollows(cfg, c0, before, k, i, d);
      LastStepReaches(cfg, c0, run);
      EveryRun(cfg, c0, before);
      TrackedAtEnd(cfg, c0, run, k, i, d);
      StillFollowed(cfg, Exec(cfg, c0, before), l, i, d);
    }
  }

  lemma TrackedAtEnd(cfg: Config, c0: Cluster, run: seq<Label>, k: nat, i: NodeId, d: Dot)
    requires Runs(cfg, c0, run) && k <= |run| && TrackedFrom(cfg, c0, run, k, i, d)
    ensures i in Exec(cfg, c0, run).nodes && d in Exec(cfg, c0, run).nodes[i].book.commands
  {
    assert run[..|run|] == run;
  }

  lemma TrackedBefore(cfg: Config, c0: Cluster, run: seq<Label>, k: nat, i: NodeId, d: Dot)
    requires k < |run| && TrackedFrom(cfg, c0, run, k, i, d)
    ensures TrackedFrom(cfg, c0, run[..|run| - 1], k, i, d)
  {
    var before := run[..|run| - 1];
    forall m | k <= m <= |before|
      ensures Runs(cfg, c0, before[..m]) && i in Exec(cfg, c0, before[..m]).nodes
              && d in Exec(cfg, c0, before[..m]).nodes[i].book.commands
    {
      assert before[..m] == run[..m];
    }
  }

  lemma StillFollowed(cfg: Config, c: Cluster, l: Label, i: NodeId, d: Dot)
    requires ClusterInv(cfg, c) && CanStep(c, l) && i in c.nodes && Followed(c.nodes[i], d)
    requires d in Step(cfg, c, l).nodes[i].book.commands
    ensures Followed(Step(cfg, c, l).nodes[i], d)
  {
    if l.node == i {
      StepFollows(cfg, i, c.nodes[i], c.net, l.event, d);
    }
  }

  /** A command that a node tracks before it commits it, and has not collected since, is one that a collection may
      take: the next one that keeps none takes it. */
  lemma CommittedIsCollectible(cfg: Config, c0: Cluster, run: seq<Label>, k: nat, i: NodeId, d: Dot, drop: set<Dot>)
    requires Init(cfg, c0) && Runs(cfg, c0, run) && k <= |run| && i in c0.nodes && TrackedFrom(cfg, c0, run, k, i, d)
    requires Runs(cfg, c0, run[..k]) && d !in Exec(cfg, c0, run[..k]).nodes[i].book.committedDots
    requires d in Exec(cfg, c0, run).nodes[i].book.committedDots
    requires Exec(cfg, c0, run).nodes[i].book.MayDrop(0, drop)
    ensures d in Exec(cfg, c0, run).nodes[i].book.CommittedCommands() && d in drop
  {
    assert run[..|run|] == run;
    RunFollows(cfg, c0, run, k, i, d);
    CollectsAll(Exec(cfg, c0, run).nodes[i].book, drop);
  }

  /** A collection that keeps no command takes every committed one. */
  lemma CollectsAll(b: Book, drop: set<Dot>)
    requires b.MayDrop(0, drop) && b.commands != map[]
    ensures drop == b.CommittedCommands()
  {
    assert |b.commands| > 0;
    var rest := b.CommittedCommands() - drop;
    assert b.CommittedCommands() == drop + rest;
    assert |rest| == 0;
  }

  /** The dot is committed, and no tracked command of it is flagged. */
  predicate Overtaken(n: Node, d: Dot) {
    d in n.book.committedDots && d !in n.book.CommittedCommands()
  }

  lemma CommitStaysOvertaken(cfg: Config, me: NodeId, n: Node, pc: CommitPc, d: Dot)
    requires CommandOk(cfg, me, n, d) && Overtaken(n, d) && (pc.Marking? && pc.dot == d ==> d.node == me)
    ensures Overtaken(CommitStep(cfg, me, n, pc).node, d)
  {
  }

  lemma TaskStaysOvertaken(cfg: Config, me: NodeId, n: Node, x: Dot, d: Dot)
    requires x in n.tasks && DotOk(cfg, me, n, d) && DotOk(cfg, me, n, x) && Overtaken(n, d)
    ensures Overtaken(TaskOut(cfg, me, n, x).0, d)
  {
    if n.tasks[x].pc.Committing? {
      CommitStaysOvertaken(cfg, me, n, n.tasks[x].pc.commit, d);
    }
  }

  lemma HandlerStaysOvertaken(cfg: Config, me: NodeId, n: Node, d: Dot)
    requires HandlerOk(me, n) && DotOk(cfg, me, n, d) && Overtaken(n, d)
    ensures Overtaken(HandlerOut(cfg, me, n).0, d)
  {
    match n.handler
    case AckCommit(commit) => CommitStaysOvertaken(cfg, me, n, commit, d);
    case CollectStore(_, _) =>
    case AckRecord(_) =>
    case ForeignMark(_) =>
    case _ =>
  }

  lemma StepStaysOvertaken(cfg: Config, me: NodeId, n: Node, net: set<Envelope>, ev: Event, d: Dot)
    requires NodeInv(cfg, me, n) && Enabled(me, n, net, ev) && Overtaken(n, d)
    ensures Overtaken(NodeStep(cfg, me, n, net, ev).0, d)
  {
    assert DotOk(cfg, me, n, d);
    match ev
    case TaskStep(x) =>
      assert DotOk(cfg, me, n, x);
      TaskStaysOvertaken(cfg, me, n, x, d);
    case HandlerStep => HandlerStaysOvertaken(cfg, me, n, d);
    case _ =>
  }

  /** A command that arrives after its commit is tracked as uncommitted for good: no collection ever takes it. */
  lemma {:induction false} OvertakenStays(cfg: Config, c0: Cluster, run: seq<Label>, k: nat, i: NodeId, d: Dot)
    requires Init(cfg, c0) && Runs(cfg, c0, run) && k <= |run| && i in c0.nodes
    requires Runs(cfg, c0, run[..k]) && Overtaken(Exec(cfg, c0, run[..k]).nodes[i], d)
    ensures Overtaken(Exec(cfg, c0, run).nodes[i], d)
    ensures forall keepRecent, drop :: Exec(cfg, c0, run).nodes[i].book.MayDrop(keepRecent, drop) ==> d !in drop
    decreases |run|
  {
    if k == |run| {
      assert run[..k] == run;
    } else {
      var before, l := run[..|run| - 1], run[|run| - 1];
      assert before[..k] == run[..k];
      OvertakenStays(cfg, c0, before, k, i, d);
      EveryRun(cfg, c0, before);
      OvertakenStep(cfg, Exec(cfg, c0, before), l, i, d);
    }
    NeverDropped(Exec(cfg, c0, run).nodes[i].book, d);
  }

  lemma OvertakenStep(cfg: Config, c: Cluster, l: Label, i: NodeId, d: Dot)
    requires ClusterInv(cfg, c) && CanStep(c, l) && i in c.nodes && Overtaken(c.nodes[i], d)
    ensures Overtaken(Step(cfg, c, l).nodes[i], d)
  {
    if l.node == i {
      StepStaysOvertaken(cfg, i, c.nodes[i], c.net, l.event, d);
    }
  }

  lemma NeverDropped(b: Book, d: Dot)
    requires d !in b.CommittedCommands()
    ensures forall keepRecent, drop :: b.MayDrop(keepRecent, drop) ==> d !in drop
  {
  }
}
