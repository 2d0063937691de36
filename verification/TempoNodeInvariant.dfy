/** What every step of one Tempo node keeps, whatever the other tasks of the node do in between. */
module TempoNodeInvariant {
  import opened Resources
  import opened Replay
  import opened TempoBookkeeping
  import opened TempoNode

  /** The proposal has reached the command table. */
  predicate Stored(t: Task) {
    !t.pc.Ticking? && !t.pc.Registering? && !t.pc.Storing?
  }

  function AppliedDots(log: seq<Applied>): set<Dot> {
    set a | a in log :: a.dot
  }

  function Changes(log: seq<Applied>): seq<ChangeLog> {
    seq(|log|, i requires 0 <= i < |log| => log[i].changelog)
  }

  predicate HandlerActive(n: Node, d: Dot) {
    n.handler.AckCommit? && !n.handler.commit.Marking? && n.handler.commit.dot == d
  }

  predicate TaskActive(n: Node, d: Dot) {
    d in n.tasks && n.tasks[d].pc.Committing? && !n.tasks[d].pc.commit.Marking?
  }

  /** Somebody is inside `commit_command` for this dot, past the mark and before the end. */
  predicate Active(n: Node, d: Dot) {
    HandlerActive(n, d) || TaskActive(n, d)
  }

  predicate InApplying(n: Node, d: Dot) {
    || (HandlerActive(n, d) && n.handler.commit.Applying?)
    || (TaskActive(n, d) && n.tasks[d].pc.commit.Applying?)
  }

  predicate InReplying(n: Node, d: Dot) {
    || (HandlerActive(n, d) && n.handler.commit.Replying?)
    || (TaskActive(n, d) && n.tasks[d].pc.commit.Replying?)
  }

  /** The dot of the message in hand, while the message is one about a dot. */
  predicate InForeignMark(n: Node, d: Dot) {
    n.handler.ForeignMark? && n.handler.env.msg.MCommit? && n.handler.env.msg.dot == d
  }

  /** What a `commit_command` call carries is the proposal it commits. */
  predicate CommitOk(n: Node, pc: CommitPc) {
    && pc.dot in n.tasks && Stored(n.tasks[pc.dot])
    && (!pc.Marking? ==>
          pc.dot in n.book.committedDots && pc.changelog == n.tasks[pc.dot].changelog && pc.clock == n.tasks[pc.dot].clock)
    && match pc
       case Marking(d) =>
         d in n.book.committedDots || (d in n.book.commands && |n.book.commands[d].acks| >= n.book.quorum)
       case Replying(_, cl, _, success) => success == Effect(cl).Some?
       case _ => true
  }

  /** Sequence numbers are handed out once, a task's clock has been passed, and a task commits its own dot. */
  predicate TaskOk(me: NodeId, n: Node, d: Dot) {
    d in n.tasks ==>
      && d.node == me && 1 <= d.sequence < n.nextSequence
      && (!n.tasks[d].pc.Ticking? ==> n.tasks[d].clock <= n.clock)
      && (n.tasks[d].pc.Committing? ==> n.tasks[d].pc.commit.dot == d && CommitOk(n, n.tasks[d].pc.commit))
  }

  /** The command table and the recorded decisions against the tasks. */
  predicate CommandOk(cfg: Config, me: NodeId, n: Node, d: Dot) {
    && (d in n.book.commands && d.node == me ==>
          && d in n.tasks && Stored(n.tasks[d]) && me in n.book.commands[d].acks
          && n.book.commands[d].changelog == n.tasks[d].changelog && n.book.commands[d].clock == n.tasks[d].clock
          && (d in n.book.committedDots ==> n.book.commands[d].committed))
    && (d in n.book.commands && n.book.commands[d].committed ==> d in n.book.committedDots)
    && (d in n.tasks && Stored(n.tasks[d]) ==> d in n.book.commands || d in n.book.committedDots)
    && (d in n.decided <==> d in n.book.committedDots && d.node == me)
    && (d in n.decided ==>
          d in n.tasks && Stored(n.tasks[d]) && me in n.decided[d] && |n.decided[d]| >= cfg.quorum)
    && (d in n.book.committedDots && d.node == me ==> d.sequence <= n.book.lastApplied)
  }

  /** At most once, and never missed: what has been applied and announced against what is marked
      committed. The two commit triggers of a dot never both get past the mark. */
  predicate OnceOk(me: NodeId, n: Node, d: Dot) {
    && (d.node == me ==> (d in AppliedDots(n.log) <==> d in n.book.committedDots && !InApplying(n, d)))
    && (d.node != me ==> (d in AppliedDots(n.log) <==> d in n.book.committedDots || InForeignMark(n, d)))
    && !(HandlerActive(n, d) && TaskActive(n, d))
    && (d in n.announced <==> d in n.book.committedDots && d.node == me && !Active(n, d))
  }

  /** Waiters: every call still waiting has its sender registered or its answer in the channel, an answer
      tells whether the applied changelog took effect, and a sender does not outlive the commit. */
  predicate ReplyOk(n: Node, d: Dot) {
    && !(d in n.pending && d in n.replies)
    && (d in n.pending ==>
          && d in n.tasks && !n.tasks[d].pc.Ticking? && !n.tasks[d].pc.Registering? && !n.tasks[d].pc.Done?
          && (d in n.book.committedDots ==> InApplying(n, d) || InReplying(n, d)))
    && (d in n.replies ==>
          d in n.tasks && d in AppliedDots(n.log) && n.replies[d] == Effect(n.tasks[d].changelog).Some?)
    && (d in n.tasks ==>
          match n.tasks[d].pc
          case Ticking => true
          case Registering => true
          case Done(Answered(success)) => d in n.replies && n.replies[d] == success
          case Done(TimedOut) => true
          case _ => d in n.pending || d in n.replies)
  }

  predicate DotOk(cfg: Config, me: NodeId, n: Node, d: Dot) {
    TaskOk(me, n, d) && CommandOk(cfg, me, n, d) && OnceOk(me, n, d) && ReplyOk(n, d)
  }

  /** A message in hand has been merged into the clock, and an acknowledgment clock is later than the proposal's. */
  predicate HandlerOk(me: NodeId, n: Node) {
    && HandlerKind(n.handler)
    && match n.handler
       case Idle => true
       case AckCommit(commit) => CommitOk(n, commit) && commit.dot.node == me
       case CollectTick(env) => env.msg.dot.node != me && env.msg.clock <= n.clock
       case CollectStore(env, mine) => env.msg.dot.node != me && env.msg.clock < mine <= n.clock
       case CollectReply(env, mine) =>
         && env.msg.dot.node != me && env.msg.clock < mine <= n.clock
         && (env.msg.dot in n.book.commands || env.msg.dot in n.book.committedDots)
       case AckRecord(env) => env.msg.dot.node == me && env.msg.clock <= n.clock
       case CommitCheck(env) => env.msg.dot.node != me && env.msg.clock <= n.clock
       case ForeignApply(env) =>
         env.msg.dot.node != me && env.msg.clock <= n.clock && env.msg.dot !in n.book.committedDots
       case ForeignMark(env) =>
         env.msg.dot.node != me && env.msg.clock <= n.clock && env.msg.dot !in n.book.committedDots
  }

  /** The counters against the committed set. */
  ghost predicate CountersOk(cfg: Config, me: NodeId, n: Node) {
    && n.nextSequence >= 1 && n.book.me == me && n.book.quorum == cfg.quorum
    && n.book.committedCount == |n.book.committedDots|
    && (n.book.lastApplied == 0 || Dot(me, n.book.lastApplied) in n.book.committedDots)
  }

  /** The history: one log entry per dot, one announcement per dot, and the store is the folded log. */
  ghost predicate HistoryOk(cfg: Config, n: Node) {
    && (forall i, j :: 0 <= i < j < |n.log| ==> n.log[i].dot != n.log[j].dot)
    && Distinct(n.announced)
    && n.store == Fold(cfg.initial, Changes(n.log))
  }

  ghost predicate NodeInv(cfg: Config, me: NodeId, n: Node) {
    && HandlerOk(me, n) && CountersOk(cfg, me, n) && HistoryOk(cfg, n)
    && forall d :: DotOk(cfg, me, n, d)
  }

  /** What a delivered message looks like from the receiver's side. */
  predicate Addressed(me: NodeId, ev: Event) {
    ev.Deliver? ==>
      match ev.env.msg
      case MCollect(d, _, _) => d.node != me
      case MCollectAck(d, _) => d.node == me
      case MCommit(d, _, _) => d.node != me
      case ClockBump(_) => true
  }

  lemma InitInv(cfg: Config, me: NodeId, clock: nat)
    ensures NodeInv(cfg, me, InitNode(cfg, me, clock))
  {
    var n := InitNode(cfg, me, clock);
    assert AppliedDots(n.log) == {};
    assert Changes(n.log) == [];
  }

  lemma LogGrows(n: Node, d: Dot, cl: ChangeLog)
    ensures AppliedDots(ApplyTo(n, d, cl).log) == AppliedDots(n.log) + {d}
  {
    var log' := ApplyTo(n, d, cl).log;
    forall x ensures x in AppliedDots(log') <==> x in AppliedDots(n.log) + {d} {
      if x in AppliedDots(n.log) {
        var a :| a in n.log && a.dot == x;
        assert a in log';
      }
      if x == d {
        assert Applied(d, cl) in log';
      }
    }
  }

  lemma HistoryGrows(cfg: Config, n: Node, d: Dot, cl: ChangeLog)
    requires HistoryOk(cfg, n) && d !in AppliedDots(n.log)
    ensures HistoryOk(cfg, ApplyTo(n, d, cl))
  {
    var log' := ApplyTo(n, d, cl).log;
    assert log'[..|n.log|] == n.log && log'[|n.log|] == Applied(d, cl);
    assert Changes(log')[..|n.log|] == Changes(n.log);
    forall i | 0 <= i < |n.log| ensures n.log[i].dot != d {
      assert n.log[i] in n.log;
    }
  }

  /** The message loop is not committing or applying this dot. */
  predicate Quiet(n: Node, d: Dot) {
    !HandlerActive(n, d) && !InForeignMark(n, d)
  }

  /** Outside the message loop nothing that concerns dot `d` differs, and nothing runs backwards. */
  predicate SameAt(n: Node, n': Node, d: Dot) {
    && (d in n.tasks <==> d in n'.tasks) && (d in n.tasks ==> n'.tasks[d] == n.tasks[d])
    && (d in n.book.commands <==> d in n'.book.commands)
    && (d in n.book.commands ==> n'.book.commands[d] == n.book.commands[d])
    && (d in n.book.committedDots <==> d in n'.book.committedDots)
    && (d in n.pending <==> d in n'.pending)
    && (d in n.replies <==> d in n'.replies) && (d in n.replies ==> n'.replies[d] == n.replies[d])
    && (d in n.decided <==> d in n'.decided) && (d in n.decided ==> n'.decided[d] == n.decided[d])
    && (d in n.announced <==> d in n'.announced)
    && (n'.log == n.log || (d in AppliedDots(n.log) <==> d in AppliedDots(n'.log)))
    && n.clock <= n'.clock && n.nextSequence <= n'.nextSequence
    && n.book.lastApplied <= n'.book.lastApplied && n.book.quorum == n'.book.quorum
  }

  lemma FrameDot(cfg: Config, me: NodeId, n: Node, n': Node, d: Dot)
    requires DotOk(cfg, me, n, d) && SameAt(n, n', d)
    requires n'.handler == n.handler || (Quiet(n, d) && Quiet(n', d))
    ensures DotOk(cfg, me, n', d)
  {
  }

  lemma CommitFrame(cfg: Config, me: NodeId, n: Node, pc: CommitPc, d: Dot)
    requires d != pc.dot
    ensures SameAt(n, CommitStep(cfg, me, n, pc).node, d)
    ensures CommitStep(cfg, me, n, pc).node.handler == n.handler
    ensures var next := CommitStep(cfg, me, n, pc).next; next.Some? ==> next.value.dot == pc.dot
  {
    match pc
    case Marking(_) => MarkFrame(cfg, me, n, pc, d);
    case Applying(_, cl, _) => LogGrows(n, pc.dot, cl);
    case Replying(_, _, _, _) => ReplyFrame(cfg, me, n, pc, d);
    case Announcing(_, _, _) =>
  }

  lemma MarkFrame(cfg: Config, me: NodeId, n: Node, pc: CommitPc, d: Dot)
    requires d != pc.dot && pc.Marking?
    ensures SameAt(n, CommitStep(cfg, me, n, pc).node, d)
  {
  }

  lemma ReplyFrame(cfg: Config, me: NodeId, n: Node, pc: CommitPc, d: Dot)
    requires d != pc.dot && pc.Replying?
    ensures SameAt(n, CommitStep(cfg, me, n, pc).node, d)
  {
  }

  lemma TaskStepFrame(cfg: Config, me: NodeId, n: Node, x: Dot, d: Dot)
    requires x in n.tasks && d != x && TaskOk(me, n, x)
    ensures SameAt(n, TaskOut(cfg, me, n, x).0, d) && TaskOut(cfg, me, n, x).0.handler == n.handler
  {
    match n.tasks[x].pc
    case Storing =>
    case Committing(commit) => CommitFrame(cfg, me, n, commit, d);
    case _ =>
  }

  /** One lock section of a task, other than those inside `commit_command`. */
  lemma TaskStepDot(cfg: Config, me: NodeId, n: Node, d: Dot)
    requires d in n.tasks && !n.tasks[d].pc.Committing?
    requires HandlerOk(me, n) && CountersOk(cfg, me, n) && DotOk(cfg, me, n, d)
    ensures DotOk(cfg, me, TaskOut(cfg, me, n, d).0, d)
  {
    match n.tasks[d].pc
    case Registering =>
    case Storing => TaskStoreDot(cfg, me, n, d);
    case Broadcasting =>
    case Checking =>
    case Waiting =>
    case Abandoning => TaskAbandonDot(cfg, me, n, d);
    case _ =>
  }

  lemma TaskStoreDot(cfg: Config, me: NodeId, n: Node, d: Dot)
    requires d in n.tasks && n.tasks[d].pc.Storing? && DotOk(cfg, me, n, d)
    ensures DotOk(cfg, me, TaskOut(cfg, me, n, d).0, d)
  {
  }

  lemma TaskAbandonDot(cfg: Config, me: NodeId, n: Node, d: Dot)
    requires d in n.tasks && n.tasks[d].pc.Abandoning? && DotOk(cfg, me, n, d)
    ensures DotOk(cfg, me, TaskOut(cfg, me, n, d).0, d)
  {
  }

  lemma TaskCommitDot(cfg: Config, me: NodeId, n: Node, d: Dot)
    requires d in n.tasks && n.tasks[d].pc.Committing?
    requires HandlerOk(me, n) && CountersOk(cfg, me, n) && DotOk(cfg, me, n, d)
    ensures DotOk(cfg, me, TaskOut(cfg, me, n, d).0, d)
  {
    match n.tasks[d].pc.commit
    case Marking(_) => TaskMarkDot(cfg, me, n, d);
    case Applying(_, _, _) => TaskApplyDot(cfg, me, n, d);
    case Replying(_, _, _, _) => TaskReplyDot(cfg, me, n, d);
    case Announcing(_, _, _) => TaskAnnounceDot(cfg, me, n, d);
  }

  lemma TaskMarkDot(cfg: Config, me: NodeId, n: Node, d: Dot)
    requires d in n.tasks && n.tasks[d].pc.Committing? && n.tasks[d].pc.commit.Marking?
    requires HandlerOk(me, n) && CountersOk(cfg, me, n) && DotOk(cfg, me, n, d)
    ensures DotOk(cfg, me, TaskOut(cfg, me, n, d).0, d)
  {
  }

  lemma TaskApplyDot(cfg: Config, me: NodeId, n: Node, d: Dot)
    requires d in n.tasks && n.tasks[d].pc.Committing? && n.tasks[d].pc.commit.Applying?
    requires HandlerOk(me, n) && CountersOk(cfg, me, n) && DotOk(cfg, me, n, d)
    ensures DotOk(cfg, me, TaskOut(cfg, me, n, d).0, d)
  {
    LogGrows(n, d, n.tasks[d].pc.commit.changelog);
  }

  lemma TaskReplyDot(cfg: Config, me: NodeId, n: Node, d: Dot)
    requires d in n.tasks && n.tasks[d].pc.Committing? && n.tasks[d].pc.commit.Replying?
    requires HandlerOk(me, n) && CountersOk(cfg, me, n) && DotOk(cfg, me, n, d)
    ensures DotOk(cfg, me, TaskOut(cfg, me, n, d).0, d)
  {
  }

  lemma TaskAnnounceDot(cfg: Config, me: NodeId, n: Node, d: Dot)
    requires d in n.tasks && n.tasks[d].pc.Committing? && n.tasks[d].pc.commit.Announcing?
    requires HandlerOk(me, n) && CountersOk(cfg, me, n) && DotOk(cfg, me, n, d)
    ensures DotOk(cfg, me, TaskOut(cfg, me, n, d).0, d)
  {
  }

  lemma HandlerCommitFrame(cfg: Config, me: NodeId, n: Node, d: Dot)
    requires n.handler.AckCommit? && d != n.handler.commit.dot
    ensures SameAt(n, HandlerOut(cfg, me, n).0, d) && Quiet(n, d) && Quiet(HandlerOut(cfg, me, n).0, d)
  {
    CommitFrame(cfg, me, n, n.handler.commit, d);
    var out := CommitStep(cfg, me, n, n.handler.commit);
    SameWhateverTheLoop(n, out.node, if out.next.Some? then AckCommit(out.next.value) else Idle, d);
  }

  lemma SameWhateverTheLoop(n: Node, m: Node, h: HandlerPc, d: Dot)
    requires SameAt(n, m, d)
    ensures SameAt(n, m.(handler := h), d)
  {
  }

  lemma HandlerStepFrame(cfg: Config, me: NodeId, n: Node, d: Dot)
    requires HandlerOk(me, n) && !n.handler.AckCommit?
    requires !n.handler.Idle? ==> d != n.handler.env.msg.dot
    ensures SameAt(n, HandlerOut(cfg, me, n).0, d) && Quiet(n, d) && Quiet(HandlerOut(cfg, me, n).0, d)
  {
    match n.handler
    case CollectStore(_, _) =>
    case CollectReply(_, _) =>
    case AckRecord(_) =>
    case CommitCheck(_) =>
    case ForeignApply(env) => LogGrows(n, env.msg.dot, env.msg.changelog);
    case ForeignMark(_) =>
    case _ =>
  }

  lemma HandlerStepDot(cfg: Config, me: NodeId, n: Node, d: Dot)
    requires HandlerOk(me, n) && !n.handler.AckCommit? && !n.handler.Idle? && d == n.handler.env.msg.dot
    requires CountersOk(cfg, me, n) && DotOk(cfg, me, n, d)
    ensures DotOk(cfg, me, HandlerOut(cfg, me, n).0, d)
  {
    match n.handler
    case AckRecord(_) => AckRecordDot(cfg, me, n, d);
    case ForeignApply(_) => ForeignApplyDot(cfg, me, n, d);
    case ForeignMark(_) => ForeignMarkDot(cfg, me, n, d);
    case _ => CollectDot(cfg, me, n, d);
  }

  lemma AckRecordDot(cfg: Config, me: NodeId, n: Node, d: Dot)
    requires HandlerOk(me, n) && n.handler.AckRecord? && d == n.handler.env.msg.dot
    requires CountersOk(cfg, me, n) && DotOk(cfg, me, n, d)
    ensures DotOk(cfg, me, HandlerOut(cfg, me, n).0, d)
  {
  }

  lemma ForeignApplyDot(cfg: Config, me: NodeId, n: Node, d: Dot)
    requires HandlerOk(me, n) && n.handler.ForeignApply? && d == n.handler.env.msg.dot
    requires CountersOk(cfg, me, n) && DotOk(cfg, me, n, d)
    ensures DotOk(cfg, me, HandlerOut(cfg, me, n).0, d)
  {
    LogGrows(n, d, n.handler.env.msg.changelog);
  }

  lemma ForeignMarkDot(cfg: Config, me: NodeId, n: Node, d: Dot)
    requires HandlerOk(me, n) && n.handler.ForeignMark? && d == n.handler.env.msg.dot
    requires CountersOk(cfg, me, n) && DotOk(cfg, me, n, d)
    ensures DotOk(cfg, me, HandlerOut(cfg, me, n).0, d)
  {
  }

  lemma CollectDot(cfg: Config, me: NodeId, n: Node, d: Dot)
    requires HandlerOk(me, n) && (n.handler.CollectTick? || n.handler.CollectStore? || n.handler.CollectReply? || n.handler.CommitCheck?)
    requires d == n.handler.env.msg.dot && CountersOk(cfg, me, n) && DotOk(cfg, me, n, d)
    ensures DotOk(cfg, me, HandlerOut(cfg, me, n).0, d)
  {
    match n.handler
    case CollectStore(_, _) =>
    case CollectReply(_, _) =>
    case CommitCheck(_) =>
    case _ =>
  }

  lemma HandlerCommitDot(cfg: Config, me: NodeId, n: Node, d: Dot)
    requires HandlerOk(me, n) && n.handler.AckCommit? && d == n.handler.commit.dot
    requires CountersOk(cfg, me, n) && DotOk(cfg, me, n, d)
    ensures DotOk(cfg, me, HandlerOut(cfg, me, n).0, d)
  {
    match n.handler.commit
    case Marking(_) => HandlerMarkDot(cfg, me, n, d);
    case Applying(_, _, _) => HandlerApplyDot(cfg, me, n, d);
    case Replying(_, _, _, _) => HandlerReplyDot(cfg, me, n, d);
    case Announcing(_, _, _) => HandlerAnnounceDot(cfg, me, n, d);
  }

  lemma HandlerMarkDot(cfg: Config, me: NodeId, n: Node, d: Dot)
    requires HandlerOk(me, n) && n.handler.AckCommit? && d == n.handler.commit.dot && n.handler.commit.Marking?
    requires CountersOk(cfg, me, n) && DotOk(cfg, me, n, d)
    ensures DotOk(cfg, me, HandlerOut(cfg, me, n).0, d)
  {
  }

  lemma HandlerApplyDot(cfg: Config, me: NodeId, n: Node, d: Dot)
    requires HandlerOk(me, n) && n.handler.AckCommit? && d == n.handler.commit.dot && n.handler.commit.Applying?
    requires CountersOk(cfg, me, n) && DotOk(cfg, me, n, d)
    ensures DotOk(cfg, me, HandlerOut(cfg, me, n).0, d)
  {
    LogGrows(n, d, n.handler.commit.changelog);
  }

  lemma HandlerReplyDot(cfg: Config, me: NodeId, n: Node, d: Dot)
    requires HandlerOk(me, n) && n.handler.AckCommit? && d == n.handler.commit.dot && n.handler.commit.Replying?
    requires CountersOk(cfg, me, n) && DotOk(cfg, me, n, d)
    ensures DotOk(cfg, me, HandlerOut(cfg, me, n).0, d)
  {
  }

  lemma HandlerAnnounceDot(cfg: Config, me: NodeId, n: Node, d: Dot)
    requires HandlerOk(me, n) && n.handler.AckCommit? && d == n.handler.commit.dot && n.handler.commit.Announcing?
    requires CountersOk(cfg, me, n) && DotOk(cfg, me, n, d)
    ensures DotOk(cfg, me, HandlerOut(cfg, me, n).0, d)
  {
  }

  /** The events that only move the clock, take a message or send the clock. */
  lemma ClockStepDot(cfg: Config, me: NodeId, n: Node, net: set<Envelope>, ev: Event, d: Dot)
    requires Enabled(me, n, net, ev) && (ev.Deliver? || ev.HandlerTick? || ev.BumpTick? || ev.BumpSend?)
    requires DotOk(cfg, me, n, d)
    ensures DotOk(cfg, me, NodeStep(cfg, me, n, net, ev).0, d)
  {
    var n' := NodeStep(cfg, me, n, net, ev).0;
    assert ev.Deliver? || ev.HandlerTick? ==> Quiet(n, d) && Quiet(n', d);
    FrameDot(cfg, me, n, n', d);
  }

  /** The events that start a call, take its clock or give up waiting for it. */
  lemma CallStepDot(cfg: Config, me: NodeId, n: Node, net: set<Envelope>, ev: Event, d: Dot)
    requires Enabled(me, n, net, ev) && (ev.Propose? || ev.TaskTick? || ev.Timeout?)
    requires CountersOk(cfg, me, n) && DotOk(cfg, me, n, d)
    ensures DotOk(cfg, me, NodeStep(cfg, me, n, net, ev).0, d)
  {
  }

  lemma GcDot(cfg: Config, me: NodeId, n: Node, keepRecent: nat, drop: set<Dot>, d: Dot)
    requires n.book.MayDrop(keepRecent, drop)
    requires HandlerOk(me, n) && CountersOk(cfg, me, n) && DotOk(cfg, me, n, d)
    ensures DotOk(cfg, me, n.(book := n.book.Drop(drop)), d)
  {
    assert d in drop ==> d in n.book.committedDots;
  }

  /** Knowledge about dot `d` that no later step takes back. */
  predicate Grows(n: Node, n': Node, d: Dot) {
    && (d in n.tasks ==> d in n'.tasks && n'.tasks[d].changelog == n.tasks[d].changelog)
    && (d in n.tasks && Stored(n.tasks[d]) ==> Stored(n'.tasks[d]) && n'.tasks[d].clock == n.tasks[d].clock)
    && (d in n.book.committedDots ==> d in n'.book.committedDots)
    && (d in n.book.commands ==>
          || d in n'.book.committedDots
          || (d in n'.book.commands && |n.book.commands[d].acks| <= |n'.book.commands[d].acks|))
    && (d in n.decided ==> d in n'.decided && n'.decided[d] == n.decided[d])
    && n.clock <= n'.clock && n'.book.quorum == n.book.quorum
  }

  lemma AckGrows(acks: map<NodeId, nat>, node: NodeId, clock: nat)
    ensures |acks| <= |acks[node := clock]|
  {
    assert acks[node := clock].Keys == acks.Keys + {node};
    if node !in acks {
      assert |acks.Keys + {node}| == |acks.Keys| + 1;
    } else {
      assert acks.Keys + {node} == acks.Keys;
    }
  }

  lemma CommitGrows(cfg: Config, me: NodeId, n: Node, pc: CommitPc, d: Dot)
    requires DotOk(cfg, me, n, d)
    ensures Grows(n, CommitStep(cfg, me, n, pc).node, d)
  {
    match pc
    case Marking(_) =>
    case Applying(_, _, _) =>
    case Replying(_, _, _, _) =>
    case Announcing(_, _, _) =>
  }

  lemma TaskGrows(cfg: Config, me: NodeId, n: Node, x: Dot, d: Dot)
    requires x in n.tasks && DotOk(cfg, me, n, d) && DotOk(cfg, me, n, x)
    ensures Grows(n, TaskOut(cfg, me, n, x).0, d)
  {
    if n.tasks[x].pc.Committing? {
      CommitGrows(cfg, me, n, n.tasks[x].pc.commit, d);
    } else {
      CallGrows(cfg, me, n, x, d);
    }
  }

  lemma CallGrows(cfg: Config, me: NodeId, n: Node, x: Dot, d: Dot)
    requires x in n.tasks && !n.tasks[x].pc.Committing? && CommandOk(cfg, me, n, x) && TaskOk(me, n, x)
    ensures Grows(n, TaskOut(cfg, me, n, x).0, d)
  {
    match n.tasks[x].pc
    case Registering =>
    case Storing => assert x !in n.book.commands;
    case Broadcasting =>
    case Checking =>
    case Waiting =>
    case Abandoning =>
    case _ =>
  }

  lemma HandlerGrows(cfg: Config, me: NodeId, n: Node, d: Dot)
    requires HandlerOk(me, n) && DotOk(cfg, me, n, d)
    ensures Grows(n, HandlerOut(cfg, me, n).0, d)
  {
    match n.handler
    case AckRecord(env) =>
      if env.msg.dot in n.book.commands { AckGrows(n.book.commands[env.msg.dot].acks, env.from, env.msg.clock); }
    case AckCommit(commit) => CommitGrows(cfg, me, n, commit, d);
    case _ =>
  }

  lemma StepGrows(cfg: Config, me: NodeId, n: Node, net: set<Envelope>, ev: Event, d: Dot)
    requires NodeInv(cfg, me, n) && Enabled(me, n, net, ev)
    ensures Grows(n, NodeStep(cfg, me, n, net, ev).0, d)
  {
    assert DotOk(cfg, me, n, d);
    match ev
    case TaskStep(x) =>
      assert DotOk(cfg, me, n, x);
      TaskGrows(cfg, me, n, x, d);
    case HandlerStep => HandlerGrows(cfg, me, n, d);
    case Gc(_, drop) => assert d in drop ==> d in n.book.committedDots;
    case Propose(_) =>
    case _ =>
  }

  lemma CommitOkStable(n: Node, n': Node, pc: CommitPc)
    requires CommitOk(n, pc) && Grows(n, n', pc.dot)
    ensures CommitOk(n', pc)
  {
  }

  lemma HandlerStaysOk(me: NodeId, n: Node, n': Node)
    requires HandlerOk(me, n) && n'.handler == n.handler && n.clock <= n'.clock
    requires forall d :: Grows(n, n', d)
    requires n'.handler.ForeignApply? || n'.handler.ForeignMark? ==>
               (n'.handler.env.msg.dot in n'.book.committedDots ==> n'.handler.env.msg.dot in n.book.committedDots)
    ensures HandlerOk(me, n')
  {
    if n.handler.AckCommit? {
      assert Grows(n, n', n.handler.commit.dot);
      CommitOkStable(n, n', n.handler.commit);
    } else if n.handler.CollectReply? {
      assert Grows(n, n', n.handler.env.msg.dot);
    }
  }

  lemma CommitNextOk(cfg: Config, me: NodeId, n: Node, pc: CommitPc)
    requires CommitOk(n, pc) && DotOk(cfg, me, n, pc.dot) && pc.dot.node == me
    ensures var out := CommitStep(cfg, me, n, pc);
            out.next.Some? ==> CommitOk(out.node, out.next.value) && out.next.value.dot == pc.dot
  {
    match pc
    case Marking(_) =>
    case Applying(_, _, _) =>
    case Replying(_, _, _, _) =>
    case Announcing(_, _, _) =>
  }

  lemma HandlerNextOk(cfg: Config, me: NodeId, n: Node)
    requires NodeInv(cfg, me, n)
    ensures HandlerOk(me, HandlerOut(cfg, me, n).0)
  {
    match n.handler
    case AckCommit(commit) =>
      assert DotOk(cfg, me, n, commit.dot);
      CommitNextOk(cfg, me, n, commit);
    case AckRecord(env) =>
      assert DotOk(cfg, me, n, env.msg.dot);
      AckRecordNextOk(cfg, me, n);
    case _ => MessageNextOk(cfg, me, n);
  }

  lemma AckRecordNextOk(cfg: Config, me: NodeId, n: Node)
    requires HandlerOk(me, n) && n.handler.AckRecord? && DotOk(cfg, me, n, n.handler.env.msg.dot)
    ensures HandlerOk(me, HandlerOut(cfg, me, n).0)
  {
  }

  lemma MessageNextOk(cfg: Config, me: NodeId, n: Node)
    requires HandlerOk(me, n) && !n.handler.AckCommit? && !n.handler.AckRecord?
    ensures HandlerOk(me, HandlerOut(cfg, me, n).0)
  {
    match n.handler
    case CollectStore(_, _) =>
    case CollectReply(_, _) =>
    case CommitCheck(_) =>
    case ForeignApply(_) =>
    case ForeignMark(_) =>
    case _ =>
  }

  /** Which events leave the message loop where it is. */
  lemma HandlerOkStep(cfg: Config, me: NodeId, n: Node, net: set<Envelope>, ev: Event)
    requires NodeInv(cfg, me, n) && Enabled(me, n, net, ev) && Addressed(me, ev)
    ensures HandlerOk(me, NodeStep(cfg, me, n, net, ev).0)
  {
    var n' := NodeStep(cfg, me, n, net, ev).0;
    if ev.HandlerStep? {
      HandlerNextOk(cfg, me, n);
    } else if !ev.Deliver? && !ev.HandlerTick? {
      forall d ensures Grows(n, n', d) { StepGrows(cfg, me, n, net, ev, d); }
      if ev.TaskStep? {
        assert DotOk(cfg, me, n, ev.dot);
        TaskLeavesHandler(cfg, me, n, ev.dot);
      }
      HandlerStaysOk(me, n, n');
    }
  }

  lemma TaskLeavesHandler(cfg: Config, me: NodeId, n: Node, x: Dot)
    requires x in n.tasks && TaskOk(me, n, x)
    ensures var n' := TaskOut(cfg, me, n, x).0;
            n'.handler == n.handler && forall d :: d in n'.book.committedDots ==> d in n.book.committedDots || d.node == me
  {
  }

  lemma CommitCounters(cfg: Config, me: NodeId, n: Node, pc: CommitPc)
    requires CountersOk(cfg, me, n) && CommandOk(cfg, me, n, pc.dot) && HistoryOk(cfg, n) && OnceOk(me, n, pc.dot)
    requires pc.dot.node == me
    requires pc.Applying? ==> pc.dot !in AppliedDots(n.log)
    requires pc.Announcing? ==> pc.dot !in n.announced
    ensures CountersOk(cfg, me, CommitStep(cfg, me, n, pc).node) && HistoryOk(cfg, CommitStep(cfg, me, n, pc).node)
  {
    if pc.Applying? {
      HistoryGrows(cfg, n, pc.dot, pc.changelog);
    }
  }

  lemma TaskCounters(cfg: Config, me: NodeId, n: Node, x: Dot)
    requires CountersOk(cfg, me, n) && HistoryOk(cfg, n) && x in n.tasks && DotOk(cfg, me, n, x)
    ensures CountersOk(cfg, me, TaskOut(cfg, me, n, x).0) && HistoryOk(cfg, TaskOut(cfg, me, n, x).0)
  {
    match n.tasks[x].pc
    case Committing(commit) => CommitCounters(cfg, me, n, commit);
    case _ =>
  }

  lemma HandlerCounters(cfg: Config, me: NodeId, n: Node)
    requires NodeInv(cfg, me, n)
    ensures CountersOk(cfg, me, HandlerOut(cfg, me, n).0) && HistoryOk(cfg, HandlerOut(cfg, me, n).0)
  {
    match n.handler
    case AckCommit(commit) =>
      assert DotOk(cfg, me, n, commit.dot);
      CommitCounters(cfg, me, n, commit);
    case ForeignApply(env) =>
      assert DotOk(cfg, me, n, env.msg.dot);
      HistoryGrows(cfg, n, env.msg.dot, env.msg.changelog);
    case ForeignMark(env) =>
      assert DotOk(cfg, me, n, env.msg.dot);
      MessageCounters(cfg, me, n);
    case _ => MessageCounters(cfg, me, n);
  }

  lemma MessageCounters(cfg: Config, me: NodeId, n: Node)
    requires HandlerOk(me, n) && !n.handler.AckCommit? && !n.handler.ForeignApply?
    requires CountersOk(cfg, me, n) && HistoryOk(cfg, n)
    requires n.handler.ForeignMark? ==> CommandOk(cfg, me, n, n.handler.env.msg.dot)
    ensures CountersOk(cfg, me, HandlerOut(cfg, me, n).0) && HistoryOk(cfg, HandlerOut(cfg, me, n).0)
  {
    match n.handler
    case CollectStore(_, _) =>
    case CollectReply(_, _) =>
    case AckRecord(_) =>
    case CommitCheck(_) =>
    case ForeignMark(_) =>
    case _ =>
  }

  lemma CountersStep(cfg: Config, me: NodeId, n: Node, net: set<Envelope>, ev: Event)
    requires NodeInv(cfg, me, n) && Enabled(me, n, net, ev)
    ensures CountersOk(cfg, me, NodeStep(cfg, me, n, net, ev).0) && HistoryOk(cfg, NodeStep(cfg, me, n, net, ev).0)
  {
    match ev
    case TaskStep(x) =>
      assert DotOk(cfg, me, n, x);
      TaskCounters(cfg, me, n, x);
    case HandlerStep => HandlerCounters(cfg, me, n);
    case _ =>
  }

  /** Every step of a node, whichever of its tasks moves, keeps the node's invariant. */
  lemma NodeInvStep(cfg: Config, me: NodeId, n: Node, net: set<Envelope>, ev: Event)
    requires NodeInv(cfg, me, n) && Enabled(me, n, net, ev) && Addressed(me, ev)
    ensures NodeInv(cfg, me, NodeStep(cfg, me, n, net, ev).0)
  {
    var n' := NodeStep(cfg, me, n, net, ev).0;
    HandlerOkStep(cfg, me, n, net, ev);
    CountersStep(cfg, me, n, net, ev);
    forall d ensures DotOk(cfg, me, n', d) {
      DotStep(cfg, me, n, net, ev, d);
    }
  }

  lemma DotStep(cfg: Config, me: NodeId, n: Node, net: set<Envelope>, ev: Event, d: Dot)
    requires NodeInv(cfg, me, n) && Enabled(me, n, net, ev)
    ensures DotOk(cfg, me, NodeStep(cfg, me, n, net, ev).0, d)
  {
    assert DotOk(cfg, me, n, d);
    match ev
    case TaskStep(x) =>
      assert DotOk(cfg, me, n, x);
      TaskDot(cfg, me, n, x, d);
    case HandlerStep => HandlerDot(cfg, me, n, d);
    case Gc(keepRecent, drop) => GcDot(cfg, me, n, keepRecent, drop, d);
    case _ =>
      if ev.Propose? || ev.TaskTick? || ev.Timeout? {
        CallStepDot(cfg, me, n, net, ev, d);
      } else {
        ClockStepDot(cfg, me, n, net, ev, d);
      }
  }

  lemma TaskDot(cfg: Config, me: NodeId, n: Node, x: Dot, d: Dot)
    requires HandlerOk(me, n) && CountersOk(cfg, me, n) && x in n.tasks && DotOk(cfg, me, n, x) && DotOk(cfg, me, n, d)
    ensures DotOk(cfg, me, TaskOut(cfg, me, n, x).0, d)
  {
    if d != x {
      TaskStepFrame(cfg, me, n, x, d);
      FrameDot(cfg, me, n, TaskOut(cfg, me, n, x).0, d);
    } else if n.tasks[x].pc.Committing? {
      TaskCommitDot(cfg, me, n, d);
    } else {
      TaskStepDot(cfg, me, n, d);
    }
  }

  lemma HandlerDot(cfg: Config, me: NodeId, n: Node, d: Dot)
    requires HandlerOk(me, n) && CountersOk(cfg, me, n) && DotOk(cfg, me, n, d)
    ensures DotOk(cfg, me, HandlerOut(cfg, me, n).0, d)
  {
    if n.handler.AckCommit? {
      if d == n.handler.commit.dot {
        HandlerCommitDot(cfg, me, n, d);
      } else {
        HandlerCommitFrame(cfg, me, n, d);
        FrameDot(cfg, me, n, HandlerOut(cfg, me, n).0, d);
      }
    } else if !n.handler.Idle? && d == n.handler.env.msg.dot {
      HandlerStepDot(cfg, me, n, d);
    } else {
      HandlerStepFrame(cfg, me, n, d);
      FrameDot(cfg, me, n, HandlerOut(cfg, me, n).0, d);
    }
  }
}
