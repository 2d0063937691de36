/** One Tempo node as a machine whose steps are the lock sections of src/cluster/tempo/mod.rs.
    Every `propose` call is its own task and the message loop is one more, so any two of them
    interleave between lock sections; an `Event` names which of them moves and supplies what the
    code reads from outside (physical time, the message received, the sort order of a collection). */
module TempoNode {
  import opened Resources
  import opened TempoBookkeeping
  import opened LogicalClock

  datatype Message =
    | MCollect(dot: Dot, clock: nat, changelog: ChangeLog)
    | MCollectAck(dot: Dot, clock: nat)
    | MCommit(dot: Dot, clock: nat, changelog: ChangeLog)
    | ClockBump(clock: nat)

  datatype Envelope = Envelope(from: NodeId, to: NodeId, msg: Message)

  /** Progress of one `commit_command` call. */
  datatype CommitPc =
    | Marking(dot: Dot)
    | Applying(dot: Dot, changelog: ChangeLog, clock: nat)
    | Replying(dot: Dot, changelog: ChangeLog, clock: nat, success: bool)
    | Announcing(dot: Dot, changelog: ChangeLog, clock: nat)

  /** Progress of the message loop; each state names what it does next. */
  datatype HandlerPc =
    | Idle
    | CollectTick(env: Envelope)
    | CollectStore(env: Envelope, mine: nat)
    | CollectReply(env: Envelope, mine: nat)
    | AckRecord(env: Envelope)
    | AckCommit(commit: CommitPc)
    | CommitCheck(env: Envelope)
    | ForeignApply(env: Envelope)
    | ForeignMark(env: Envelope)

  /** How a client's call ended. */
  datatype Result = Answered(success: bool) | TimedOut

  /** Progress of one `propose` call; each state names what it does next. */
  datatype TaskPc =
    | Ticking | Registering | Storing | Broadcasting | Checking
    | Committing(commit: CommitPc)
    | Waiting | Abandoning
    | Done(result: Result)

  datatype Task = Task(changelog: ChangeLog, clock: nat, pc: TaskPc)

  datatype Config = Config(members: set<NodeId>, quorum: nat, initial: Store)

  datatype Applied = Applied(dot: Dot, changelog: ChangeLog)

  /** `pending` holds the dots with a registered waiter, `replies` what was sent into their channels.
      `log`, `decided` and `announced` record history: the changelogs applied in order, the acking
      nodes at the moment of each own commit, and the commit decisions broadcast. */
  datatype Node = Node(
    clock: nat, nextSequence: nat, pending: set<Dot>, replies: map<Dot, bool>, book: Book, store: Store,
    handler: HandlerPc, tasks: map<Dot, Task>,
    log: seq<Applied>, decided: map<Dot, set<NodeId>>, announced: seq<Dot>)

  datatype Event =
    | Propose(changelog: ChangeLog)
    | TaskTick(dot: Dot, physical: nat)
    | TaskStep(dot: Dot)
    | Timeout(dot: Dot)
    | Deliver(env: Envelope, physical: nat)
    | HandlerTick(physical: nat)
    | HandlerStep
    | BumpTick(physical: nat)
    | BumpSend
    | Gc(keepRecent: nat, drop: set<Dot>)

  function InitNode(cfg: Config, me: NodeId, clock: nat): Node {
    Node(clock, 1, {}, map[], Book(me, cfg.quorum, map[], {}, 0, 0), cfg.initial, Idle, map[], [], map[], [])
  }

  function Broadcast(cfg: Config, me: NodeId, msg: Message): set<Envelope> {
    set m | m in cfg.members && m != me :: Envelope(me, m, msg)
  }

  function ApplyTo(n: Node, dot: Dot, changelog: ChangeLog): Node {
    n.(store := Apply(n.store, changelog), log := n.log + [Applied(dot, changelog)])
  }

  datatype CommitOut = CommitOut(node: Node, next: Option<CommitPc>, sent: set<Envelope>)

  /** One lock section of `commit_command`. */
  function CommitStep(cfg: Config, me: NodeId, n: Node, pc: CommitPc): CommitOut {
    match pc
    case Marking(d) =>
      if d in n.book.commands && !n.book.commands[d].committed then
        var cmd := n.book.commands[d];
        CommitOut(n.(book := n.book.MarkCommitted(d), decided := n.decided[d := cmd.acks.Keys]),
                  Some(Applying(d, cmd.changelog, cmd.clock)), {})
      else CommitOut(n, None, {})
    case Applying(d, cl, clock) =>
      CommitOut(ApplyTo(n, d, cl), Some(Replying(d, cl, clock, Effect(cl).Some?)), {})
    case Replying(d, cl, clock, success) =>
      CommitOut(
        if d in n.pending then n.(pending := n.pending - {d}, replies := n.replies[d := success]) else n,
        Some(Announcing(d, cl, clock)), {})
    case Announcing(d, cl, clock) =>
      CommitOut(n.(announced := n.announced + [d]), None, Broadcast(cfg, me, MCommit(d, clock, cl)))
  }

  function SetPc(n: Node, d: Dot, pc: TaskPc): Node
    requires d in n.tasks
  {
    n.(tasks := n.tasks[d := n.tasks[d].(pc := pc)])
  }

  /** One lock section of a `propose` call. */
  function TaskOut(cfg: Config, me: NodeId, n: Node, d: Dot): (Node, set<Envelope>)
    requires d in n.tasks
  {
    var t := n.tasks[d];
    match t.pc
    case Registering => (SetPc(n, d, Storing).(pending := n.pending + {d}), {})
    case Storing =>
      (SetPc(n, d, Broadcasting).(book := n.book.AddCommand(d, t.changelog, t.clock).AddAck(d, me, t.clock)), {})
    case Broadcasting => (SetPc(n, d, Checking), Broadcast(cfg, me, MCollect(d, t.clock, t.changelog)))
    case Checking => (SetPc(n, d, if n.book.HasQuorum(d) then Committing(Marking(d)) else Waiting), {})
    case Committing(commit) =>
      var out := CommitStep(cfg, me, n, commit);
      (SetPc(out.node, d, if out.next.Some? then Committing(out.next.value) else Waiting), out.sent)
    case Waiting => (if d in n.replies then SetPc(n, d, Done(Answered(n.replies[d]))) else n, {})
    case Abandoning => (SetPc(n, d, Done(TimedOut)).(pending := n.pending - {d}), {})
    case _ => (n, {})
  }

  /** The first lock section after a message is taken from the queue: the clock update. */
  function Receive(n: Node, env: Envelope, physical: nat): Node {
    n.(clock := UpdateOf(n.clock, env.msg.clock, physical),
       handler := match env.msg
         case MCollect(_, _, _) => CollectTick(env)
         case MCollectAck(_, _) => AckRecord(env)
         case MCommit(_, _, _) => CommitCheck(env)
         case ClockBump(_) => Idle)
  }

  /** One lock section of the message loop. */
  function HandlerOut(cfg: Config, me: NodeId, n: Node): (Node, set<Envelope>)
    requires n.handler.CollectStore? ==> n.handler.env.msg.MCollect?
    requires n.handler.CollectReply? ==> n.handler.env.msg.MCollect?
    requires n.handler.AckRecord? ==> n.handler.env.msg.MCollectAck?
    requires n.handler.CommitCheck? || n.handler.ForeignApply? || n.handler.ForeignMark? ==> n.handler.env.msg.MCommit?
  {
    match n.handler
    case CollectStore(env, mine) =>
      (n.(book := n.book.AddCommand(env.msg.dot, env.msg.changelog, env.msg.clock), handler := CollectReply(env, mine)), {})
    case CollectReply(env, mine) =>
      (n.(handler := Idle),
       if env.from in cfg.members then {Envelope(me, env.from, MCollectAck(env.msg.dot, mine))} else {})
    case AckRecord(env) =>
      var book := n.book.AddAck(env.msg.dot, env.from, env.msg.clock);
      (n.(book := book, handler := if book.HasQuorum(env.msg.dot) then AckCommit(Marking(env.msg.dot)) else Idle), {})
    case AckCommit(commit) =>
      var out := CommitStep(cfg, me, n, commit);
      (out.node.(handler := if out.next.Some? then AckCommit(out.next.value) else Idle), out.sent)
    case CommitCheck(env) =>
      (n.(handler := if env.msg.dot in n.book.committedDots then Idle else ForeignApply(env)), {})
    case ForeignApply(env) =>
      (ApplyTo(n, env.msg.dot, env.msg.changelog).(handler := ForeignMark(env)), {})
    case ForeignMark(env) =>
      (n.(book := n.book.MarkCommitted(env.msg.dot), handler := Idle), {})
    case _ => (n, {})
  }

  /** The handler only ever holds a message of the kind its state handles. */
  predicate HandlerKind(h: HandlerPc) {
    match h
    case Idle => true
    case CollectTick(env) => env.msg.MCollect?
    case CollectStore(env, _) => env.msg.MCollect?
    case CollectReply(env, _) => env.msg.MCollect?
    case AckRecord(env) => env.msg.MCollectAck?
    case AckCommit(_) => true
    case CommitCheck(env) => env.msg.MCommit?
    case ForeignApply(env) => env.msg.MCommit?
    case ForeignMark(env) => env.msg.MCommit?
  }

  /** What a node must satisfy for an event to happen there, given the messages ever sent. */
  predicate Enabled(me: NodeId, n: Node, net: set<Envelope>, ev: Event) {
    && HandlerKind(n.handler)
    && match ev
       case Propose(_) => true
       case TaskTick(d, _) => d in n.tasks && n.tasks[d].pc.Ticking?
       case TaskStep(d) => d in n.tasks
       case Timeout(d) => d in n.tasks && n.tasks[d].pc.Waiting? && d !in n.replies
       case Deliver(env, _) => env in net && env.to == me && n.handler.Idle?
       case HandlerTick(_) => n.handler.CollectTick?
       case HandlerStep => true
       case BumpTick(_) => true
       case BumpSend => true
       case Gc(keepRecent, drop) => n.book.MayDrop(keepRecent, drop)
  }

  /** The node after an event, and the messages it sends. */
  function NodeStep(cfg: Config, me: NodeId, n: Node, net: set<Envelope>, ev: Event): (Node, set<Envelope>)
    requires Enabled(me, n, net, ev)
  {
    match ev
    case Propose(cl) =>
      var d := Dot(me, n.nextSequence);
      (n.(nextSequence := n.nextSequence + 1, tasks := n.tasks[d := Task(cl, 0, Ticking)]), {})
    case TaskTick(d, physical) =>
      var now := TickOf(n.clock, physical);
      (n.(clock := now, tasks := n.tasks[d := n.tasks[d].(clock := now, pc := Registering)]), {})
    case TaskStep(d) => TaskOut(cfg, me, n, d)
    case Timeout(d) => (SetPc(n, d, Abandoning), {})
    case Deliver(env, physical) => (Receive(n, env, physical), {})
    case HandlerTick(physical) =>
      var now := TickOf(n.clock, physical);
      (n.(clock := now, handler := CollectStore(n.handler.env, now)), {})
    case HandlerStep => HandlerOut(cfg, me, n)
    case BumpTick(physical) => (n.(clock := TickOf(n.clock, physical)), {})
    case BumpSend => (n, Broadcast(cfg, me, ClockBump(n.clock)))
    case Gc(_, drop) => (n.(book := n.book.Drop(drop)), {})
  }
}
