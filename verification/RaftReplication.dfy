/** Every run of the Raft state machines of a cluster over one committed log: applying further entries,
    taking snapshots, installing a snapshot taken anywhere, and restarting over the tables left behind.
    The log itself is openraft's: every replica is handed the same entries in the same order. */
module RaftReplication {
  import opened Resources
  import opened Replay
  import opened RaftStateMachine
  import LogicalClock

  /** `applied` counts the entries behind the machine, `high` the most that were ever behind its store. */
  datatype Replica = Replica(machine: Machine, applied: nat, high: nat)

  datatype System = System(replicas: map<nat, Replica>, snapshots: set<(nat, Snapshot)>)

  datatype Label =
    | ApplyNext(node: nat, count: nat)
    | Take(node: nat)
    | InstallTaken(node: nat, at: nat, snapshot: Snapshot)
    | Restart(node: nat)

  predicate CanStep(log: seq<Entry>, s: System, l: Label) {
    && l.node in s.replicas
    && match l
       case ApplyNext(i, count) => s.replicas[i].applied + count <= |log|
       case Take(i) => true
       case InstallTaken(i, at, snap) => (at, snap) in s.snapshots
       case Restart(i) => true
  }

  function ReplicaStep(log: seq<Entry>, r: Replica, l: Label): Replica
    requires l.ApplyNext? ==> r.applied + l.count <= |log|
  {
    match l
    case ApplyNext(_, count) =>
      var to := r.applied + count;
      Replica(ApplyEntries(r.machine, log[r.applied..to]), to, LogicalClock.Max(r.high, to))
    case Take(_) => r
    case InstallTaken(_, at, snap) => Replica(Install(r.machine, snap), at, LogicalClock.Max(r.high, at))
    case Restart(_) => Replica(Fresh(r.machine.store), 0, r.high)
  }

  function Step(log: seq<Entry>, s: System, l: Label): System
    requires CanStep(log, s, l)
  {
    var r := s.replicas[l.node];
    System(s.replicas[l.node := ReplicaStep(log, r, l)],
           if l.Take? then s.snapshots + {(r.applied, TakeSnapshot(r.machine))} else s.snapshots)
  }

  predicate Init(initial: Store, s: System) {
    s.snapshots == {} && forall i :: i in s.replicas ==> s.replicas[i] == Replica(Fresh(initial), 0, 0)
  }

  predicate Runs(log: seq<Entry>, s: System, run: seq<Label>)
    decreases |run|, 0
  {
    run == [] || (Runs(log, s, run[..|run| - 1]) && CanStep(log, Exec(log, s, run[..|run| - 1]), run[|run| - 1]))
  }

  function Exec(log: seq<Entry>, s: System, run: seq<Label>): System
    requires Runs(log, s, run)
    decreases |run|, 1
  {
    if run == [] then s else Step(log, Exec(log, s, run[..|run| - 1]), run[|run| - 1])
  }

  // ----- the invariant -----

  /** `base` has the rows of `initial`, but for keys the log writes. */
  ghost predicate AgreesOff(base: Store, initial: Store, log: seq<ChangeLog>) {
    forall k :: LastWrite(log, k).None? ==> At(base, k) == At(initial, k)
  }

  ghost predicate ReplicaOk(initial: Store, log: seq<Entry>, r: Replica) {
    && r.applied <= r.high <= |log|
    && exists base :: AgreesOff(base, initial, Kept(log[..r.high])) && Holds(r.machine, base, log[..r.applied])
  }

  predicate SnapshotOk(log: seq<Entry>, at: nat, snap: Snapshot) {
    at <= |log| && snap == Snapshot(Meta(LastId(log[..at]), LastMembership(log[..at])), Some(Kept(log[..at])))
  }

  ghost predicate Inv(initial: Store, log: seq<Entry>, s: System) {
    && (forall i :: i in s.replicas ==> ReplicaOk(initial, log, s.replicas[i]))
    && (forall at, snap :: (at, snap) in s.snapshots ==> SnapshotOk(log, at, snap))
  }

  lemma {:induction false} LaterAgrees(base: Store, initial: Store, log: seq<Entry>, a: nat, b: nat)
    requires a <= b <= |log| && AgreesOff(base, initial, Kept(log[..a]))
    ensures AgreesOff(base, initial, Kept(log[..b]))
  {
    forall k | LastWrite(Kept(log[..b]), k).None? ensures At(base, k) == At(initial, k) {
      KeptOf(log, a, b);
      if LastWrite(Kept(log[..a]), k).Some? {
        TouchedInPrefix(Kept(log[..b]), |Kept(log[..a])|, k);
      }
    }
  }

  lemma KeptOf(log: seq<Entry>, a: nat, b: nat)
    requires a <= b <= |log|
    ensures |Kept(log[..a])| <= |Kept(log[..b])| && Kept(log[..a]) == Kept(log[..b])[..|Kept(log[..a])|]
  {
    assert log[..b][..a] == log[..a];
    KeptPrefix(log[..b], a);
  }

  /** What is left of a base after a prefix of the log is a base again. */
  lemma FoldedAgrees(base: Store, initial: Store, log: seq<Entry>, a: nat, high: nat)
    requires a <= high <= |log| && AgreesOff(base, initial, Kept(log[..high]))
    ensures AgreesOff(Fold(base, Kept(log[..a])), initial, Kept(log[..high]))
  {
    forall k | LastWrite(Kept(log[..high]), k).None?
      ensures At(Fold(base, Kept(log[..a])), k) == At(initial, k)
    {
      KeptOf(log, a, high);
      FoldAt(base, Kept(log[..a]), k);
      if LastWrite(Kept(log[..a]), k).Some? {
        TouchedInPrefix(Kept(log[..high]), |Kept(log[..a])|, k);
      }
    }
  }

  lemma ApplyNextOk(initial: Store, log: seq<Entry>, r: Replica, l: Label)
    requires ReplicaOk(initial, log, r) && l.ApplyNext? && r.applied + l.count <= |log|
    ensures ReplicaOk(initial, log, ReplicaStep(log, r, l))
  {
    var base :| AgreesOff(base, initial, Kept(log[..r.high])) && Holds(r.machine, base, log[..r.applied]);
    var r' := ReplicaStep(log, r, l);
    AppliesHold(r.machine, base, log[..r.applied], log[r.applied..r'.applied]);
    assert log[..r.applied] + log[r.applied..r'.applied] == log[..r'.applied];
    LaterAgrees(base, initial, log, r.high, r'.high);
  }

  lemma InstallOk(initial: Store, log: seq<Entry>, r: Replica, l: Label)
    requires ReplicaOk(initial, log, r) && l.InstallTaken? && SnapshotOk(log, l.at, l.snapshot)
    ensures ReplicaOk(initial, log, ReplicaStep(log, r, l))
  {
    var base :| AgreesOff(base, initial, Kept(log[..r.high])) && Holds(r.machine, base, log[..r.applied]);
    var r' := ReplicaStep(log, r, l);
    FoldedAgrees(base, initial, log, r.applied, r.high);
    LaterAgrees(r.machine.store, initial, log, r.high, r'.high);
    ReplayIsFold(r.machine, Kept(log[..l.at]));
    assert Holds(r'.machine, r.machine.store, log[..r'.applied]);
  }

  lemma RestartOk(initial: Store, log: seq<Entry>, r: Replica, l: Label)
    requires ReplicaOk(initial, log, r) && l.Restart?
    ensures ReplicaOk(initial, log, ReplicaStep(log, r, l))
  {
    var base :| AgreesOff(base, initial, Kept(log[..r.high])) && Holds(r.machine, base, log[..r.applied]);
    FoldedAgrees(base, initial, log, r.applied, r.high);
    assert Holds(Fresh(r.machine.store), r.machine.store, log[..0]);
  }

  lemma TakenOk(initial: Store, log: seq<Entry>, r: Replica)
    requires ReplicaOk(initial, log, r)
    ensures SnapshotOk(log, r.applied, TakeSnapshot(r.machine))
  {
  }

  lemma StepKeepsInv(initial: Store, log: seq<Entry>, s: System, l: Label)
    requires Inv(initial, log, s) && CanStep(log, s, l)
    ensures Inv(initial, log, Step(log, s, l))
  {
    var r := s.replicas[l.node];
    match l
    case ApplyNext(_, _) => ApplyNextOk(initial, log, r, l);
    case Take(_) => TakenOk(initial, log, r);
    case InstallTaken(_, at, snap) => InstallOk(initial, log, r, l);
    case Restart(_) => RestartOk(initial, log, r, l);
  }

  lemma {:induction false} EveryRun(initial: Store, log: seq<Entry>, s: System, run: seq<Label>)
    requires Init(initial, s) && Runs(log, s, run)
    ensures Inv(initial, log, Exec(log, s, run))
    decreases |run|
  {
    if run == [] {
      forall i | i in s.replicas ensures ReplicaOk(initial, log, s.replicas[i]) {
        assert Kept(log[..0]) == [];
        assert AgreesOff(initial, initial, Kept(log[..0])) && Holds(Fresh(initial), initial, log[..0]);
      }
    } else {
      EveryRun(initial, log, s, run[..|run| - 1]);
      StepKeepsInv(initial, log, Exec(log, s, run[..|run| - 1]), run[|run| - 1]);
    }
  }

  // ----- what it means -----

  /** Snapshot equivalence over every run: whatever a replica applied, installed and lost in restarts, once
      it is past every point it had reached before, it is exactly the node that applied every entry so
      far to the initial store: same store, last applied id, membership and snapshot list. */
  lemma SnapshotEquivalence(initial: Store, log: seq<Entry>, s: System, run: seq<Label>, i: nat)
    requires Init(initial, s) && Runs(log, s, run) && i in Exec(log, s, run).replicas
    requires Exec(log, s, run).replicas[i].applied == Exec(log, s, run).replicas[i].high
    ensures Exec(log, s, run).replicas[i].applied <= |log|
    ensures var r := Exec(log, s, run).replicas[i];
            var m, all := r.machine, ApplyEntries(Fresh(initial), log[..r.applied]);
            && m.store == all.store && m.lastApplied == all.lastApplied
            && m.membership == all.membership && m.snapshot == all.snapshot
  {
    EveryRun(initial, log, s, run);
    var r := Exec(log, s, run).replicas[i];
    var entries := log[..r.applied];
    assert ReplicaOk(initial, log, r);
    var base :| AgreesOff(base, initial, Kept(entries)) && Holds(r.machine, base, entries);
    FoldsEqualIff(base, Kept(entries), initial, Kept(entries));
    assert Holds(Fresh(initial), initial, []) && [] + entries == entries;
    AppliesHold(Fresh(initial), initial, [], entries);
  }

  /** Even before that, a replica's list, last id and membership are those of the entries it has applied,
      and a row it disagrees on is one that a restart left over and the log has yet to rewrite. */
  lemma BehindAfterRestart(initial: Store, log: seq<Entry>, s: System, run: seq<Label>, i: nat, k: Key)
    requires Init(initial, s) && Runs(log, s, run) && i in Exec(log, s, run).replicas
    ensures var r := Exec(log, s, run).replicas[i];
            && r.applied <= r.high <= |log| && r.machine.snapshot == Kept(log[..r.applied])
            && r.machine.lastApplied == LastId(log[..r.applied]) && r.machine.membership == LastMembership(log[..r.applied])
            && (At(r.machine.store, k) == At(Fold(initial, Kept(log[..r.applied])), k)
                || (LastWrite(Kept(log[..r.applied]), k).None? && LastWrite(Kept(log[..r.high]), k).Some?))
  {
    EveryRun(initial, log, s, run);
    var r := Exec(log, s, run).replicas[i];
    assert ReplicaOk(initial, log, r);
    var base :| AgreesOff(base, initial, Kept(log[..r.high])) && Holds(r.machine, base, log[..r.applied]);
    FoldAt(base, Kept(log[..r.applied]), k);
    FoldAt(initial, Kept(log[..r.applied]), k);
  }

  // ----- what the proxies are told -----

  /** The proxy of the replica has been told about every changelog behind the machine, in order, after whatever it had
      been told before. */
  ghost predicate Told(log: seq<Entry>, r: Replica) {
    && r.applied <= |log|
    && exists before :: r.machine.notified == before + Kept(log[..r.applied])
  }

  lemma KeptAfter(log: seq<Entry>, a: nat, b: nat)
    requires a <= b <= |log|
    ensures Kept(log[..b]) == Kept(log[..a]) + Kept(log[a..b])
  {
    KeptJoin(log[..a], log[a..b]);
    assert log[..a] + log[a..b] == log[..b];
  }

  lemma {:induction false} KeptJoin(a: seq<Entry>, b: seq<Entry>)
    ensures Kept(a + b) == Kept(a) + Kept(b)
    decreases |b|
  {
    if b == [] {
      assert a + b == a;
    } else {
      assert (a + b)[..|a + b| - 1] == a + b[..|b| - 1];
      KeptJoin(a, b[..|b| - 1]);
    }
  }

  lemma ApplyTold(log: seq<Entry>, r: Replica, l: Label)
    requires Told(log, r) && l.ApplyNext? && r.applied + l.count <= |log|
    ensures Told(log, ReplicaStep(log, r, l))
  {
    var to := r.applied + l.count;
    var before :| r.machine.notified == before + Kept(log[..r.applied]);
    ApplyNotifies(r.machine, log[r.applied..to]);
    KeptAfter(log, r.applied, to);
    assert ReplicaStep(log, r, l).machine.notified == before + Kept(log[..to]);
  }

  lemma ToldStep(initial: Store, log: seq<Entry>, s: System, l: Label)
    requires Inv(initial, log, s) && CanStep(log, s, l) && Told(log, s.replicas[l.node])
    ensures Told(log, Step(log, s, l).replicas[l.node])
  {
    var r := s.replicas[l.node];
    var m := r.machine;
    match l
    case ApplyNext(_, count) => ApplyTold(log, r, l);
    case Take(_) =>
    case InstallTaken(_, at, snap) =>
      InstallNotifies(m, snap);
      KeptIsEffective(log[..at]);
      assert ReplicaStep(log, r, l).machine.notified == m.notified + Kept(log[..at]);
    case Restart(_) =>
      assert Kept(log[..0]) == [];
      assert ReplicaStep(log, r, l).machine.notified == [] + Kept(log[..0]);
  }

  /** In every run, whatever a replica applied, installed and lost in restarts, its proxy has been told about every
      effective changelog up to where the replica is, in the order of the log. */
  lemma {:induction false} ProxiesAreTold(initial: Store, log: seq<Entry>, s: System, run: seq<Label>, i: nat)
    requires Init(initial, s) && Runs(log, s, run) && i in s.replicas
    ensures i in Exec(log, s, run).replicas && Told(log, Exec(log, s, run).replicas[i])
    decreases |run|
  {
    if run == [] {
      assert Kept(log[..0]) == [];
      assert s.replicas[i].machine.notified == [] + Kept(log[..0]);
    } else {
      var front := run[..|run| - 1];
      ProxiesAreTold(initial, log, s, front, i);
      EveryRun(initial, log, s, front);
      if run[|run| - 1].node == i {
        ToldStep(initial, log, Exec(log, s, front), run[|run| - 1]);
      }
    }
  }
}
