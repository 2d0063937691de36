/** The Tempo manager as the object it is in src/cluster/tempo/mod.rs, its handlers run to completion.
    Each method is proved to compute the uninterrupted path of the node machine, so the machine's
    guarantees are guarantees about this code; interleaving is what the machine adds. */
module TempoConsensus {
  import opened Resources
  import opened Storage
  import opened LogicalClock
  import opened TempoBookkeeping
  import opened TempoNode
  import opened TempoPaths

  /** `commit_command` without interruption: mark, apply, answer, announce. */
  function CommitRun(cfg: Config, me: NodeId, n: Node, d: Dot): (Node, set<Envelope>) {
    if d in n.book.commands && !n.book.commands[d].committed then
      var cmd := n.book.commands[d];
      var marked := n.(book := n.book.MarkCommitted(d), decided := n.decided[d := cmd.acks.Keys]);
      var answered := Answer(ApplyTo(marked, d, cmd.changelog), d, Effect(cmd.changelog).Some?);
      (answered.(announced := answered.announced + [d]), Broadcast(cfg, me, MCommit(d, cmd.clock, cmd.changelog)))
    else (n, {})
  }

  function Answer(n: Node, d: Dot, success: bool): Node {
    if d in n.pending then n.(pending := n.pending - {d}, replies := n.replies[d := success]) else n
  }

  function CollectRun(cfg: Config, me: NodeId, n: Node, env: Envelope, p: nat, q: nat): (Node, set<Envelope>)
    requires env.msg.MCollect?
  {
    var mine := TickOf(UpdateOf(n.clock, env.msg.clock, p), q);
    (n.(clock := mine, book := n.book.AddCommand(env.msg.dot, env.msg.changelog, env.msg.clock)),
     if env.from in cfg.members then {Envelope(me, env.from, MCollectAck(env.msg.dot, mine))} else {})
  }

  function AckRun(cfg: Config, me: NodeId, n: Node, env: Envelope, p: nat): (Node, set<Envelope>)
    requires env.msg.MCollectAck?
  {
    var recorded := n.(clock := UpdateOf(n.clock, env.msg.clock, p),
                       book := n.book.AddAck(env.msg.dot, env.from, env.msg.clock));
    if recorded.book.HasQuorum(env.msg.dot) then CommitRun(cfg, me, recorded, env.msg.dot) else (recorded, {})
  }

  function CommitMessageRun(n: Node, env: Envelope, p: nat): Node
    requires env.msg.MCommit?
  {
    var received := n.(clock := UpdateOf(n.clock, env.msg.clock, p));
    if env.msg.dot in n.book.committedDots then received
    else ApplyTo(received, env.msg.dot, env.msg.changelog).(book := n.book.MarkCommitted(env.msg.dot))
  }

  /** The message loop's whole turn for one message, from idle to idle. */
  function HandlerRun(cfg: Config, me: NodeId, n: Node, env: Envelope, p: nat, q: nat): (Node, set<Envelope>) {
    match env.msg
    case MCollect(_, _, _) => CollectRun(cfg, me, n, env, p, q)
    case MCollectAck(_, _) => AckRun(cfg, me, n, env, p)
    case MCommit(_, _, _) => (CommitMessageRun(n, env, p), {})
    case ClockBump(clock) => (n.(clock := UpdateOf(n.clock, clock, p)), {})
  }

  class TempoConsensus {
    const cfg: Config
    const me: NodeId
    const state: TempoState
    const clock: Clock
    const store: ProxyStore
    var pending: set<Dot>
    var replies: map<Dot, bool>
    var nextSequence: nat
    var outbox: set<Envelope>
    ghost var tasks: map<Dot, Task>
    ghost var log: seq<Applied>
    ghost var decided: map<Dot, set<NodeId>>
    ghost var announced: seq<Dot>

    ghost function View(): Node
      reads this, state, clock, store.storage
    {
      Node(clock.value, nextSequence, pending, replies, state.View(), store.View(), Idle, tasks, log, decided, announced)
    }

    constructor (cfg: Config, me: NodeId, store: ProxyStore, physical: nat)
      requires cfg.initial == store.View()
      ensures this.cfg == cfg && this.me == me && this.store == store
      ensures View() == InitNode(cfg, me, physical) && outbox == {} && fresh(state) && fresh(clock)
    {
      this.cfg, this.me, this.store := cfg, me, store;
      state := new TempoState(me, cfg.quorum);
      clock := new Clock(physical);
      pending, replies, nextSequence, outbox := {}, map[], 1, {};
      tasks, log, decided, announced := map[], [], map[], [];
    }

    method BroadcastMessage(msg: Message)
      modifies this`outbox
      ensures outbox == old(outbox) + Broadcast(cfg, me, msg)
    {
      var rest := cfg.members;
      while rest != {}
        invariant rest <= cfg.members
        invariant outbox == old(outbox) + set m | m in cfg.members - rest && m != me :: Envelope(me, m, msg)
        decreases rest
      {
        var member :| member in rest;
        if member != me {
          outbox := outbox + {Envelope(me, member, msg)};
        }
        rest := rest - {member};
      }
    }

    method SendMessage(to: NodeId, msg: Message)
      modifies this`outbox
      ensures outbox == old(outbox) + if to in cfg.members then {Envelope(me, to, msg)} else {}
    {
      if to in cfg.members {
        outbox := outbox + {Envelope(me, to, msg)};
      }
    }

    method ApplyChangelog(dot: Dot, changelog: ChangeLog) returns (ok: bool)
      modifies this`log, store.storage
      ensures View() == ApplyTo(old(View()), dot, changelog) && ok == Effect(changelog).Some?
    {
      ok := store.ApplyChangelog(changelog);
      log := log + [Applied(dot, changelog)];
    }

    /** Sends the outcome to the waiting client, if there is one. */
    method Reply(dot: Dot, success: bool)
      modifies this`pending, this`replies
      ensures View() == Answer(old(View()), dot, success)
    {
      if dot in pending {
        pending := pending - {dot};
        replies := replies[dot := success];
      }
    }

    method CommitCommand(dot: Dot)
      modifies this`pending, this`replies, this`outbox, this`log, this`decided, this`announced, state, store.storage
      ensures View() == CommitRun(cfg, me, old(View()), dot).0
      ensures outbox == old(outbox) + CommitRun(cfg, me, old(View()), dot).1
    {
      if dot !in state.commands || state.commands[dot].committed {
        return;
      }
      var changelog, commitClock := state.commands[dot].changelog, state.commands[dot].clock;
      decided := decided[dot := state.commands[dot].acks.Keys];
      state.MarkCommitted(dot);
      var ok := ApplyChangelog(dot, changelog);
      Reply(dot, ok);
      announced := announced + [dot];
      BroadcastMessage(MCommit(dot, commitClock, changelog));
    }

    method HandleMCollect(env: Envelope, p: nat, q: nat)
      requires env.msg.MCollect?
      modifies this`outbox, state, clock
      ensures View() == CollectRun(cfg, me, old(View()), env, p, q).0
      ensures outbox == old(outbox) + CollectRun(cfg, me, old(View()), env, p, q).1
    {
      clock.Update(env.msg.clock, [], p);
      var mine := clock.Tick([], q);
      state.AddCommand(env.msg.dot, env.msg.changelog, env.msg.clock);
      SendMessage(env.from, MCollectAck(env.msg.dot, mine));
    }

    method HandleMCollectAck(env: Envelope, p: nat)
      requires env.msg.MCollectAck?
      modifies this`pending, this`replies, this`outbox, this`log, this`decided, this`announced, state, clock, store.storage
      ensures View() == AckRun(cfg, me, old(View()), env, p).0
      ensures outbox == old(outbox) + AckRun(cfg, me, old(View()), env, p).1
    {
      clock.Update(env.msg.clock, [], p);
      var shouldCommit := state.AddAck(env.msg.dot, env.from, env.msg.clock);
      if shouldCommit {
        CommitCommand(env.msg.dot);
      }
    }

    method HandleMCommit(env: Envelope, p: nat)
      requires env.msg.MCommit?
      modifies this`log, state, clock, store.storage
      ensures View() == CommitMessageRun(old(View()), env, p) && outbox == old(outbox)
      ensures env.msg.dot in old(state.commands) && env.msg.dot !in old(state.committedDots) ==>
                state.commands == old(state.commands)[env.msg.dot := old(state.commands)[env.msg.dot].(committed := true)]
    {
      clock.Update(env.msg.clock, [], p);
      if env.msg.dot !in state.committedDots {
        var _ := ApplyChangelog(env.msg.dot, env.msg.changelog);
        state.MarkCommitted(env.msg.dot);
      }
    }

    method HandleClockBump(env: Envelope, p: nat)
      modifies clock
      ensures View() == old(View()).(clock := UpdateOf(old(View()).clock, env.msg.clock, p))
    {
      clock.Update(env.msg.clock, [], p);
    }

    /** The message loop's turn for one message. */
    method HandleMessage(env: Envelope, p: nat, q: nat)
      modifies this`pending, this`replies, this`outbox, this`log, this`decided, this`announced, state, clock, store.storage
      ensures View() == HandlerRun(cfg, me, old(View()), env, p, q).0
      ensures outbox == old(outbox) + HandlerRun(cfg, me, old(View()), env, p, q).1
    {
      match env.msg
      case MCollect(_, _, _) => HandleMCollect(env, p, q);
      case MCollectAck(_, _) => HandleMCollectAck(env, p);
      case MCommit(_, _, _) => HandleMCommit(env, p);
      case ClockBump(_) => HandleClockBump(env, p);
    }

    /** Registers the waiter and stores the command with the node's own acknowledgment. */
    method StoreProposal(dot: Dot, changelog: ChangeLog, now: nat)
      modifies this`pending, this`tasks, state
      ensures var n := old(View());
              View() == n.(pending := n.pending + {dot}, tasks := n.tasks[dot := Task(changelog, now, Waiting)],
                           book := n.book.AddCommand(dot, changelog, now).AddAck(dot, me, now))
    {
      pending := pending + {dot};
      state.AddCommand(dot, changelog, now);
      var _ := state.AddAck(dot, me, now);
      tasks := tasks[dot := Task(changelog, now, Waiting)];
    }

    /** `propose` up to its broadcast. */
    method Ask(changelog: ChangeLog, p: nat) returns (dot: Dot)
      modifies this`nextSequence, this`pending, this`tasks, this`outbox, state, clock
      ensures dot == Dot(me, old(nextSequence)) && View() == Asked(me, old(View()), changelog, p)
      ensures outbox == old(outbox) + Broadcast(cfg, me, MCollect(dot, View().clock, changelog))
    {
      dot := Dot(me, nextSequence);
      nextSequence := nextSequence + 1;
      var now := clock.Tick([], p);
      StoreProposal(dot, changelog, now);
      BroadcastMessage(MCollect(dot, now, changelog));
    }

    /** The check after the broadcast. */
    method CommitIfReady(dot: Dot)
      modifies this`pending, this`replies, this`outbox, this`log, this`decided, this`announced, state, store.storage
      ensures View() == CheckRun(cfg, me, old(View()), dot).0
      ensures outbox == old(outbox) + CheckRun(cfg, me, old(View()), dot).1
    {
      if state.HasQuorum(dot) {
        CommitCommand(dot);
      }
    }

    /** `propose` up to the point where it starts to wait for its answer. */
    method Propose(changelog: ChangeLog, p: nat) returns (dot: Dot)
      modifies this, state, clock, store.storage
      ensures dot == Dot(me, old(nextSequence))
      ensures View() == ProposeRun(cfg, me, old(View()), changelog, p).0
      ensures outbox == old(outbox) + ProposeRun(cfg, me, old(View()), changelog, p).1
    {
      dot := Ask(changelog, p);
      CommitIfReady(dot);
    }
  }

  /** A `propose` call without interruption, up to the wait. */
  function ProposeRun(cfg: Config, me: NodeId, n: Node, cl: ChangeLog, p: nat): (Node, set<Envelope>) {
    var d, asked := Dot(me, n.nextSequence), Asked(me, n, cl, p);
    var out := CheckRun(cfg, me, asked, d);
    (out.0, Broadcast(cfg, me, MCollect(d, asked.clock, cl)) + out.1)
  }

  /** The check of a call after its broadcast. */
  function CheckRun(cfg: Config, me: NodeId, n: Node, d: Dot): (Node, set<Envelope>) {
    if n.book.HasQuorum(d) then CommitRun(cfg, me, n, d) else (n, {})
  }

  /** The node once the call has stored its command and broadcast it. */
  function Asked(me: NodeId, n: Node, cl: ChangeLog, p: nat): Node {
    var d, now := Dot(me, n.nextSequence), TickOf(n.clock, p);
    n.(nextSequence := n.nextSequence + 1, clock := now, pending := n.pending + {d},
       book := n.book.AddCommand(d, cl, now).AddAck(d, me, now), tasks := n.tasks[d := Task(cl, now, Waiting)])
  }

  // ----- the sequential code follows the machine -----

  lemma CommitIgnoresPc(cfg: Config, me: NodeId, n: Node, h: HandlerPc, pc: CommitPc)
    ensures var a, b := CommitStep(cfg, me, n, pc), CommitStep(cfg, me, n.(handler := h), pc);
            b.node == a.node.(handler := h) && b.next == a.next && b.sent == a.sent
  {
  }

  /** The node with the message loop at the next section of its commit, or idle after the last. */
  function InLoop(out: CommitOut): Node {
    out.node.(handler := if out.next.Some? then AckCommit(out.next.value) else Idle)
  }

  /** One lock section of a commit inside the message loop. */
  lemma CommitSectionPath(cfg: Config, me: NodeId, n0: Node, net: set<Envelope>, n: Node, pc: CommitPc)
    requires Becomes(cfg, me, n0, net, n.(handler := AckCommit(pc)), {})
    ensures var out := CommitStep(cfg, me, n, pc); Becomes(cfg, me, n0, net, InLoop(out), out.sent)
  {
    var m := n.(handler := AckCommit(pc));
    CommitIgnoresPc(cfg, me, n, AckCommit(pc), pc);
    BecomesOn(cfg, me, n0, net, m, {}, HandlerStep);
    var sent := CommitStep(cfg, me, n, pc).sent;
    assert {} + sent == sent;
  }

  /** Up to `k` sections of a commit after its first. */
  function Sections(cfg: Config, me: NodeId, n: Node, pc: CommitPc, k: nat): CommitOut
    decreases k
  {
    var out := CommitStep(cfg, me, n, pc);
    if k == 0 || out.next.None? then out else Sections(cfg, me, out.node, out.next.value, k - 1)
  }

  /** From the mark to the end, the sections of a commit make up `CommitRun`. */
  lemma SectionsMakeCommit(cfg: Config, me: NodeId, n: Node, d: Dot)
    ensures var out := Sections(cfg, me, n, Marking(d), 3);
            (out.node, out.sent) == CommitRun(cfg, me, n, d) && out.next.None?
  {
    var marked := CommitStep(cfg, me, n, Marking(d));
    if marked.next.Some? {
      var applied := CommitStep(cfg, me, marked.node, marked.next.value);
      var replied := CommitStep(cfg, me, applied.node, applied.next.value);
      var announced := CommitStep(cfg, me, replied.node, replied.next.value);
      assert announced == Sections(cfg, me, replied.node, replied.next.value, 0);
      assert announced == Sections(cfg, me, applied.node, applied.next.value, 1);
      assert announced == Sections(cfg, me, marked.node, marked.next.value, 2);
    }
  }

  /** Only the last section of a commit sends anything. */
  lemma LastSends(cfg: Config, me: NodeId, n: Node, pc: CommitPc)
    ensures CommitStep(cfg, me, n, pc).next.Some? ==> CommitStep(cfg, me, n, pc).sent == {}
  {
  }

  lemma {:induction false} SectionsPath(cfg: Config, me: NodeId, n0: Node, net: set<Envelope>, n: Node, pc: CommitPc, k: nat)
    requires Becomes(cfg, me, n0, net, n.(handler := AckCommit(pc)), {})
    ensures var out := Sections(cfg, me, n, pc, k); Becomes(cfg, me, n0, net, InLoop(out), out.sent)
    decreases k, 1
  {
    var out := CommitStep(cfg, me, n, pc);
    CommitSectionPath(cfg, me, n0, net, n, pc);
    LastSends(cfg, me, n, pc);
    SectionsOn(cfg, me, n0, net, k, out);
  }

  /** The sections left after one of them. */
  function SectionsLeft(cfg: Config, me: NodeId, out: CommitOut, k: nat): CommitOut {
    if k == 0 || out.next.None? then out else Sections(cfg, me, out.node, out.next.value, k - 1)
  }

  lemma {:induction false} SectionsOn(cfg: Config, me: NodeId, n0: Node, net: set<Envelope>, k: nat, out: CommitOut)
    requires Becomes(cfg, me, n0, net, InLoop(out), out.sent) && (out.next.Some? ==> out.sent == {})
    ensures var last := SectionsLeft(cfg, me, out, k); Becomes(cfg, me, n0, net, InLoop(last), last.sent)
    decreases k, 0
  {
    if k > 0 && out.next.Some? {
      SectionsPath(cfg, me, n0, net, out.node, out.next.value, k - 1);
    }
  }

  lemma CommitPath(cfg: Config, me: NodeId, n0: Node, net: set<Envelope>, n: Node, d: Dot)
    requires n.handler.Idle? && Becomes(cfg, me, n0, net, n.(handler := AckCommit(Marking(d))), {})
    ensures var out := CommitRun(cfg, me, n, d); Becomes(cfg, me, n0, net, out.0, out.1) && out.0.handler.Idle?
  {
    SectionsPath(cfg, me, n0, net, n, Marking(d), 3);
    SectionsMakeCommit(cfg, me, n, d);
    var out := CommitRun(cfg, me, n, d);
    assert out.0.(handler := Idle) == out.0;
  }

  // ----- the same for a commit inside a `propose` call -----

  lemma CommitIgnoresTasks(cfg: Config, me: NodeId, n: Node, tasks: map<Dot, Task>, pc: CommitPc)
    ensures var a, b := CommitStep(cfg, me, n, pc), CommitStep(cfg, me, n.(tasks := tasks), pc);
            b.node == a.node.(tasks := tasks) && b.next == a.next && b.sent == a.sent && a.node.tasks == n.tasks
    ensures CommitStep(cfg, me, n, pc).node.handler == n.handler
  {
  }

  lemma CallSectionPath(cfg: Config, me: NodeId, n0: Node, net: set<Envelope>, n: Node, sent: set<Envelope>, d: Dot, pc: CommitPc)
    requires d in n.tasks && HandlerKind(n.handler) && Becomes(cfg, me, n0, net, SetPc(n, d, Committing(pc)), sent)
    ensures var out := CommitStep(cfg, me, n, pc);
            && d in out.node.tasks && out.node.handler == n.handler
            && Becomes(cfg, me, n0, net, SetPc(out.node, d, if out.next.Some? then Committing(out.next.value) else Waiting), sent + out.sent)
  {
    var m := SetPc(n, d, Committing(pc));
    CommitIgnoresTasks(cfg, me, n, m.tasks, pc);
    BecomesOn(cfg, me, n0, net, m, sent, TaskStep(d));
    var out := CommitStep(cfg, me, n, pc);
    var next := if out.next.Some? then Committing(out.next.value) else Waiting;
    assert SetPc(CommitStep(cfg, me, m, pc).node, d, next) == SetPc(out.node, d, next);
  }

  lemma {:induction false} CallSectionsPath(cfg: Config, me: NodeId, n0: Node, net: set<Envelope>, n: Node, sent: set<Envelope>,
                                            d: Dot, pc: CommitPc, k: nat)
    requires d in n.tasks && HandlerKind(n.handler) && Becomes(cfg, me, n0, net, SetPc(n, d, Committing(pc)), sent)
    ensures var out := Sections(cfg, me, n, pc, k);
            && d in out.node.tasks
            && Becomes(cfg, me, n0, net, SetPc(out.node, d, if out.next.Some? then Committing(out.next.value) else Waiting), sent + out.sent)
    decreases k
  {
    CallSectionPath(cfg, me, n0, net, n, sent, d, pc);
    var out := CommitStep(cfg, me, n, pc);
    if k > 0 && out.next.Some? {
      assert sent + out.sent == sent;
      CallSectionsPath(cfg, me, n0, net, out.node, sent, d, out.next.value, k - 1);
    }
  }

  lemma CallCommitPath(cfg: Config, me: NodeId, n0: Node, net: set<Envelope>, n: Node, sent: set<Envelope>, d: Dot)
    requires d in n.tasks && n.tasks[d].pc.Waiting? && HandlerKind(n.handler)
    requires Becomes(cfg, me, n0, net, SetPc(n, d, Committing(Marking(d))), sent)
    ensures var out := CommitRun(cfg, me, n, d); Becomes(cfg, me, n0, net, out.0, sent + out.1)
  {
    CallSectionsPath(cfg, me, n0, net, n, sent, d, Marking(d), 3);
    SectionsMakeCommit(cfg, me, n, d);
    CommitLeavesTasks(cfg, me, n, d);
  }

  lemma CommitLeavesTasks(cfg: Config, me: NodeId, n: Node, d: Dot)
    requires d in n.tasks && n.tasks[d].pc.Waiting?
    ensures CommitRun(cfg, me, n, d).0.tasks == n.tasks
    ensures SetPc(CommitRun(cfg, me, n, d).0, d, Waiting) == CommitRun(cfg, me, n, d).0
  {
    var out := CommitRun(cfg, me, n, d).0;
    assert out.tasks[d := out.tasks[d].(pc := Waiting)] == out.tasks;
  }

  lemma SetPcTwice(n: Node, d: Dot, pc: TaskPc, pc': TaskPc)
    requires d in n.tasks
    ensures SetPc(SetPc(n, d, pc), d, pc') == SetPc(n, d, pc')
  {
    assert n.tasks[d := n.tasks[d].(pc := pc)][d := n.tasks[d].(pc := pc')] == n.tasks[d := n.tasks[d].(pc := pc')];
  }

  /** What each section of a call makes of a node `n` whose call of `d` is at that section. */
  lemma RegisterSection(cfg: Config, me: NodeId, n: Node, d: Dot)
    requires d in n.tasks
    ensures TaskOut(cfg, me, SetPc(n, d, Registering), d) == (SetPc(n.(pending := n.pending + {d}), d, Storing), {})
  {
    SetPcTwice(n, d, Registering, Storing);
  }

  lemma StoreSection(cfg: Config, me: NodeId, n: Node, d: Dot)
    requires d in n.tasks
    ensures var t := n.tasks[d];
            TaskOut(cfg, me, SetPc(n, d, Storing), d)
            == (SetPc(n.(book := n.book.AddCommand(d, t.changelog, t.clock).AddAck(d, me, t.clock)), d, Broadcasting), {})
  {
    SetPcTwice(n, d, Storing, Broadcasting);
  }

  lemma BroadcastSection(cfg: Config, me: NodeId, n: Node, d: Dot)
    requires d in n.tasks
    ensures TaskOut(cfg, me, SetPc(n, d, Broadcasting), d)
            == (SetPc(n, d, Checking), Broadcast(cfg, me, MCollect(d, n.tasks[d].clock, n.tasks[d].changelog)))
  {
    SetPcTwice(n, d, Broadcasting, Checking);
  }

  lemma CheckSection(cfg: Config, me: NodeId, n: Node, d: Dot)
    requires d in n.tasks
    ensures TaskOut(cfg, me, SetPc(n, d, Checking), d)
            == (SetPc(n, d, if n.book.HasQuorum(d) then Committing(Marking(d)) else Waiting), {})
  {
    SetPcTwice(n, d, Checking, if n.book.HasQuorum(d) then Committing(Marking(d)) else Waiting);
  }

  lemma CallSection(cfg: Config, me: NodeId, n0: Node, net: set<Envelope>, n: Node, sent: set<Envelope>, d: Dot,
                    n': Node, sent': set<Envelope>)
    requires Becomes(cfg, me, n0, net, n, sent) && d in n.tasks && HandlerKind(n.handler)
    requires TaskOut(cfg, me, n, d) == (n', sent')
    ensures Becomes(cfg, me, n0, net, n', sent + sent')
  {
    BecomesOn(cfg, me, n0, net, n, sent, TaskStep(d));
  }

  /** The node once the call has its dot and its clock. */
  function Ticked(me: NodeId, n: Node, cl: ChangeLog, p: nat): Node {
    var now := TickOf(n.clock, p);
    n.(nextSequence := n.nextSequence + 1, clock := now, tasks := n.tasks[Dot(me, n.nextSequence) := Task(cl, now, Waiting)])
  }

  lemma CallStartsPath(cfg: Config, me: NodeId, n: Node, net: set<Envelope>, cl: ChangeLog, p: nat)
    requires HandlerKind(n.handler)
    ensures Becomes(cfg, me, n, net, SetPc(Ticked(me, n, cl, p), Dot(me, n.nextSequence), Registering), {})
  {
    var d, now := Dot(me, n.nextSequence), TickOf(n.clock, p);
    BecomesItself(cfg, me, n, net);
    Quietly(cfg, me, n, net, n, {}, Event.Propose(cl));
    var m := NodeStep(cfg, me, n, net, Event.Propose(cl)).0;
    TickSection(cfg, me, n, net, cl, p);
    Quietly(cfg, me, n, net, m, {}, TaskTick(d, p));
  }

  lemma TickSection(cfg: Config, me: NodeId, n: Node, net: set<Envelope>, cl: ChangeLog, p: nat)
    requires HandlerKind(n.handler)
    ensures var d, m := Dot(me, n.nextSequence), NodeStep(cfg, me, n, net, Event.Propose(cl)).0;
            && Enabled(me, m, net, TaskTick(d, p))
            && NodeStep(cfg, me, m, net, TaskTick(d, p)) == (SetPc(Ticked(me, n, cl, p), d, Registering), {})
  {
    var d, now := Dot(me, n.nextSequence), TickOf(n.clock, p);
    var t := n.tasks[d := Task(cl, 0, Ticking)][d := Task(cl, now, Registering)];
    assert t == n.tasks[d := Task(cl, now, Waiting)][d := Task(cl, now, Registering)];
  }

  /** The sections up to the quorum check. */
  lemma CallAsksPath(cfg: Config, me: NodeId, n: Node, net: set<Envelope>, cl: ChangeLog, p: nat)
    requires HandlerKind(n.handler)
    ensures var d, asked := Dot(me, n.nextSequence), Asked(me, n, cl, p);
            Becomes(cfg, me, n, net, SetPc(asked, d, Checking), Broadcast(cfg, me, MCollect(d, asked.clock, cl)))
  {
    var d, ticked, asked := Dot(me, n.nextSequence), Ticked(me, n, cl, p), Asked(me, n, cl, p);
    var registered := ticked.(pending := ticked.pending + {d});
    var sent := Broadcast(cfg, me, MCollect(d, asked.clock, cl));
    var nothing: set<Envelope> := {};
    assert nothing + nothing == nothing && nothing + sent == sent;
    CallStartsPath(cfg, me, n, net, cl, p);
    RegisterSection(cfg, me, ticked, d);
    CallSection(cfg, me, n, net, SetPc(ticked, d, Registering), {}, d, SetPc(registered, d, Storing), {});
    StoreSection(cfg, me, registered, d);
    CallSection(cfg, me, n, net, SetPc(registered, d, Storing), {}, d, SetPc(asked, d, Broadcasting), {});
    BroadcastSection(cfg, me, asked, d);
    CallSection(cfg, me, n, net, SetPc(asked, d, Broadcasting), {}, d, SetPc(asked, d, Checking), sent);
  }

  /** A `propose` call that is not interrupted follows the machine up to the point where it waits. */
  lemma ProposeFollowsTheMachine(cfg: Config, me: NodeId, n: Node, net: set<Envelope>, cl: ChangeLog, p: nat)
    requires HandlerKind(n.handler)
    ensures var out := ProposeRun(cfg, me, n, cl, p); Becomes(cfg, me, n, net, out.0, out.1)
  {
    var d, asked := Dot(me, n.nextSequence), Asked(me, n, cl, p);
    CallAsksPath(cfg, me, n, net, cl, p);
    CallEndsPath(cfg, me, n, net, asked, Broadcast(cfg, me, MCollect(d, asked.clock, cl)), d);
  }

  lemma CallEndsPath(cfg: Config, me: NodeId, n0: Node, net: set<Envelope>, n: Node, sent: set<Envelope>, d: Dot)
    requires d in n.tasks && n.tasks[d].pc.Waiting? && HandlerKind(n.handler)
    requires Becomes(cfg, me, n0, net, SetPc(n, d, Checking), sent)
    ensures var out := CheckRun(cfg, me, n, d);
            Becomes(cfg, me, n0, net, out.0, sent + out.1)
  {
    CheckSection(cfg, me, n, d);
    var pc := if n.book.HasQuorum(d) then Committing(Marking(d)) else Waiting;
    CallSection(cfg, me, n0, net, SetPc(n, d, Checking), sent, d, SetPc(n, d, pc), {});
    assert sent + {} == sent;
    if n.book.HasQuorum(d) {
      CallCommitPath(cfg, me, n0, net, n, sent, d);
    } else {
      assert SetPc(n, d, Waiting) == n;
    }
  }

  // ----- the message loop -----

  lemma CollectPath(cfg: Config, me: NodeId, n: Node, net: set<Envelope>, env: Envelope, p: nat, q: nat)
    requires n.handler.Idle? && env in net && env.to == me && env.msg.MCollect?
    ensures var out := CollectRun(cfg, me, n, env, p, q); Becomes(cfg, me, n, net, out.0, out.1)
  {
    BecomesItself(cfg, me, n, net);
    Quietly(cfg, me, n, net, n, {}, Deliver(env, p));
    var received := Receive(n, env, p);
    Quietly(cfg, me, n, net, received, {}, HandlerTick(q));
    var now := TickOf(received.clock, q);
    var ticked := received.(clock := now, handler := CollectStore(env, now));
    Quietly(cfg, me, n, net, ticked, {}, HandlerStep);
    var stored := HandlerOut(cfg, me, ticked).0;
    BecomesOn(cfg, me, n, net, stored, {}, HandlerStep);
    var sent := HandlerOut(cfg, me, stored).1;
    assert {} + sent == sent;
  }

  lemma AckPath(cfg: Config, me: NodeId, n: Node, net: set<Envelope>, env: Envelope, p: nat)
    requires n.handler.Idle? && env in net && env.to == me && env.msg.MCollectAck?
    ensures var out := AckRun(cfg, me, n, env, p); Becomes(cfg, me, n, net, out.0, out.1) && out.0.handler.Idle?
  {
    BecomesItself(cfg, me, n, net);
    Quietly(cfg, me, n, net, n, {}, Deliver(env, p));
    var received := Receive(n, env, p);
    Quietly(cfg, me, n, net, received, {}, HandlerStep);
    var recorded := HandlerOut(cfg, me, received).0;
    var idle := recorded.(handler := Idle);
    if recorded.handler.Idle? {
      assert idle == recorded;
    } else {
      assert idle.(handler := AckCommit(Marking(env.msg.dot))) == recorded;
      CommitPath(cfg, me, n, net, idle, env.msg.dot);
    }
  }

  lemma CommitMessagePath(cfg: Config, me: NodeId, n: Node, net: set<Envelope>, env: Envelope, p: nat)
    requires n.handler.Idle? && env in net && env.to == me && env.msg.MCommit?
    ensures Becomes(cfg, me, n, net, CommitMessageRun(n, env, p), {})
  {
    BecomesItself(cfg, me, n, net);
    Quietly(cfg, me, n, net, n, {}, Deliver(env, p));
    var received := Receive(n, env, p);
    Quietly(cfg, me, n, net, received, {}, HandlerStep);
    var checked := HandlerOut(cfg, me, received).0;
    if !checked.handler.Idle? {
      ForeignPath(cfg, me, n, net, checked, env);
    }
  }

  /** Applying and then marking a commit of another node. */
  lemma ForeignPath(cfg: Config, me: NodeId, n0: Node, net: set<Envelope>, n: Node, env: Envelope)
    requires Becomes(cfg, me, n0, net, n, {}) && n.handler == ForeignApply(env) && env.msg.MCommit?
    ensures Becomes(cfg, me, n0, net,
                    ApplyTo(n, env.msg.dot, env.msg.changelog).(book := n.book.MarkCommitted(env.msg.dot), handler := Idle), {})
  {
    Quietly(cfg, me, n0, net, n, {}, HandlerStep);
    Quietly(cfg, me, n0, net, HandlerOut(cfg, me, n).0, {}, HandlerStep);
  }

  lemma ClockBumpPath(cfg: Config, me: NodeId, n: Node, net: set<Envelope>, env: Envelope, p: nat)
    requires n.handler.Idle? && env in net && env.to == me && env.msg.ClockBump?
    ensures Becomes(cfg, me, n, net, n.(clock := UpdateOf(n.clock, env.msg.clock, p)), {})
  {
    BecomesItself(cfg, me, n, net);
    Quietly(cfg, me, n, net, n, {}, Deliver(env, p));
    assert Receive(n, env, p) == n.(clock := UpdateOf(n.clock, env.msg.clock, p));
  }

  /** A handler that is not interrupted takes the machine from idle to idle along its own steps. */
  lemma HandlersFollowTheMachine(cfg: Config, me: NodeId, n: Node, net: set<Envelope>, env: Envelope, p: nat, q: nat)
    requires n.handler.Idle? && env in net && env.to == me
    ensures var out := HandlerRun(cfg, me, n, env, p, q); Becomes(cfg, me, n, net, out.0, out.1) && out.0.handler.Idle?
  {
    match env.msg
    case MCollect(_, _, _) => CollectPath(cfg, me, n, net, env, p, q);
    case MCollectAck(_, _) => AckPath(cfg, me, n, net, env, p);
    case MCommit(_, _, _) => CommitMessagePath(cfg, me, n, net, env, p);
    case ClockBump(_) => ClockBumpPath(cfg, me, n, net, env, p);
  }
}
