/** The Raft state machine (src/cluster/raft/state_machine.rs): committed entries are applied to the
    store one by one, and a snapshot is the list of all changelogs that took effect. */
module RaftStateMachine {
  import opened Resources
  import opened Replay
  import opened Storage

  datatype LogId = LogId(term: nat, index: nat)

  /** `config` stands for the nodes of a membership change. */
  datatype StoredMembership = StoredMembership(logId: Option<LogId>, config: set<nat>)

  datatype Payload = Blank | Normal(changelog: ChangeLog) | Membership(config: set<nat>)

  datatype Entry = Entry(id: LogId, payload: Payload)

  datatype Meta = Meta(lastLogId: Option<LogId>, lastMembership: StoredMembership)

  /** `data` is the list the snapshot bytes decode to, `None` when they do not decode. */
  datatype Snapshot = Snapshot(meta: Meta, data: Option<seq<ChangeLog>>)

  /** `snapshot` collects the changelogs that took effect, `notified` what was sent to the proxy. */
  datatype Machine = Machine(
    store: Store, lastApplied: Option<LogId>, membership: StoredMembership,
    snapshot: seq<ChangeLog>, notified: seq<ChangeLog>)

  const NO_MEMBERSHIP := StoredMembership(None, {})

  function Fresh(store: Store): Machine {
    Machine(store, None, NO_MEMBERSHIP, [], [])
  }

  function ApplyOne(m: Machine, cl: ChangeLog): Machine {
    if Effect(cl).Some? then
      m.(store := Apply(m.store, cl), snapshot := m.snapshot + [cl], notified := m.notified + [cl])
    else m
  }

  function ApplyEntry(m: Machine, e: Entry): Machine {
    var m' := m.(lastApplied := Some(e.id));
    match e.payload
    case Blank => m'
    case Normal(cl) => ApplyOne(m', cl)
    case Membership(config) => m'.(membership := StoredMembership(Some(e.id), config))
  }

  function ApplyEntries(m: Machine, entries: seq<Entry>): Machine {
    if entries == [] then m
    else ApplyEntry(ApplyEntries(m, entries[..|entries| - 1]), entries[|entries| - 1])
  }

  function ApplyChangelogs(m: Machine, log: seq<ChangeLog>): Machine {
    if log == [] then m else ApplyOne(ApplyChangelogs(m, log[..|log| - 1]), log[|log| - 1])
  }

  /** The entry took effect on the store. */
  predicate Effective(e: Entry) {
    e.payload.Normal? && Effect(e.payload.changelog).Some?
  }

  function TakeSnapshot(m: Machine): Snapshot {
    Snapshot(Meta(m.lastApplied, m.membership), Some(m.snapshot))
  }

  function Install(m: Machine, s: Snapshot): Machine {
    match s.data
    case None => m
    case Some(log) =>
      ApplyChangelogs(m, log).(lastApplied := s.meta.lastLogId, membership := s.meta.lastMembership, snapshot := log)
  }

  /** Copies of the machine's fields; building turns them into a snapshot, whatever is applied meanwhile. */
  datatype SnapshotBuilder = SnapshotBuilder(data: seq<ChangeLog>, lastApplied: Option<LogId>, membership: StoredMembership) {
    function BuildSnapshot(): Snapshot {
      Snapshot(Meta(lastApplied, membership), Some(data))
    }
  }

  class DGateStateMachine {
    const store: ProxyStore
    var lastApplied: Option<LogId>
    var lastMembership: StoredMembership
    var snapshotData: seq<ChangeLog>
    var changeTx: seq<ChangeLog>

    ghost function View(): Machine
      reads this, store.storage
    {
      Machine(store.View(), lastApplied, lastMembership, snapshotData, changeTx)
    }

    constructor (store: ProxyStore)
      ensures this.store == store && View() == Fresh(store.View())
    {
      this.store := store;
      lastApplied, lastMembership, snapshotData, changeTx := None, NO_MEMBERSHIP, [], [];
    }

    method ApplyChangelog(cl: ChangeLog) returns (ok: bool)
      modifies this`changeTx, this`snapshotData, store.storage
      ensures View() == ApplyOne(old(View()), cl) && ok == Effect(cl).Some?
      ensures changeTx == old(changeTx) + (if ok then [cl] else [])
      ensures snapshotData == old(snapshotData) + (if ok then [cl] else [])
    {
      ok := store.ApplyChangelog(cl);
      if ok {
        changeTx := changeTx + [cl];
        snapshotData := snapshotData + [cl];
      }
    }

    method Apply(entries: seq<Entry>) returns (responses: seq<bool>)
      modifies this, store.storage
      ensures View() == ApplyEntries(old(View()), entries)
      ensures |responses| == |entries| && forall i :: 0 <= i < |entries| ==> responses[i] == Effective(entries[i])
    {
      responses := [];
      for n := 0 to |entries|
        invariant View() == ApplyEntries(old(View()), entries[..n])
        invariant |responses| == n && forall i :: 0 <= i < n ==> responses[i] == Effective(entries[i])
      {
        assert entries[..n + 1][..n] == entries[..n];
        var entry := entries[n];
        lastApplied := Some(entry.id);
        match entry.payload
        case Blank => responses := responses + [false];
        case Normal(cl) =>
          var ok := ApplyChangelog(cl);
          responses := responses + [ok];
        case Membership(config) =>
          lastMembership := StoredMembership(Some(entry.id), config);
          responses := responses + [false];
      }
      assert entries[..|entries|] == entries;
    }

    method GetSnapshotBuilder() returns (b: SnapshotBuilder)
      ensures b.BuildSnapshot() == TakeSnapshot(View())
    {
      b := SnapshotBuilder(snapshotData, lastApplied, lastMembership);
    }

    method GetCurrentSnapshot() returns (s: Option<Snapshot>)
      ensures s == if View().lastApplied.None? then None else Some(TakeSnapshot(View()))
    {
      if lastApplied.None? {
        return None;
      }
      s := Some(Snapshot(Meta(lastApplied, lastMembership), Some(snapshotData)));
    }

    method InstallSnapshot(s: Snapshot) returns (ok: bool)
      modifies this, store.storage
      ensures View() == Install(old(View()), s) && ok == s.data.Some?
      ensures !ok ==> View() == old(View())
      ensures ok ==> lastApplied == s.meta.lastLogId && lastMembership == s.meta.lastMembership && snapshotData == s.data.value
    {
      if s.data.None? {
        return false;
      }
      var log := s.data.value;
      for n := 0 to |log|
        invariant View() == ApplyChangelogs(old(View()), log[..n])
      {
        assert log[..n + 1][..n] == log[..n];
        var _ := ApplyChangelog(log[n]);
      }
      assert log[..|log|] == log;
      lastApplied, lastMembership, snapshotData := s.meta.lastLogId, s.meta.lastMembership, log;
      ok := true;
    }
  }

  // ----- what a list of entries leaves -----

  /** The changelogs of the entries that took effect. */
  function Kept(entries: seq<Entry>): seq<ChangeLog> {
    if entries == [] then []
    else
      var last := entries[|entries| - 1];
      Kept(entries[..|entries| - 1]) + (if Effective(last) then [last.payload.changelog] else [])
  }

  function LastId(entries: seq<Entry>): Option<LogId> {
    if entries == [] then None else Some(entries[|entries| - 1].id)
  }

  function LastMembership(entries: seq<Entry>): StoredMembership {
    if entries == [] then NO_MEMBERSHIP
    else
      var last := entries[|entries| - 1];
      if last.payload.Membership? then StoredMembership(Some(last.id), last.payload.config)
      else LastMembership(entries[..|entries| - 1])
  }

  /** `m` is what applying exactly these entries leaves, over a store that was `base` before. */
  predicate Holds(m: Machine, base: Store, entries: seq<Entry>) {
    && m.store == Fold(base, Kept(entries)) && m.snapshot == Kept(entries)
    && m.lastApplied == LastId(entries) && m.membership == LastMembership(entries)
  }

  /** Applying the entries of a log one after the other leaves what the log says. */
  lemma {:induction false} AppliesHold(m: Machine, base: Store, before: seq<Entry>, entries: seq<Entry>)
    requires Holds(m, base, before)
    ensures Holds(ApplyEntries(m, entries), base, before + entries)
    decreases |entries|
  {
    if entries == [] {
      assert before + entries == before;
    } else {
      var front, last := entries[..|entries| - 1], entries[|entries| - 1];
      AppliesHold(m, base, before, front);
      EntryHolds(ApplyEntries(m, front), base, before + front, last);
      LastApart(before, entries);
    }
  }

  lemma LastApart(before: seq<Entry>, entries: seq<Entry>)
    requires entries != []
    ensures before + entries[..|entries| - 1] + [entries[|entries| - 1]] == before + entries
  {
  }

  lemma EntryHolds(m: Machine, base: Store, entries: seq<Entry>, e: Entry)
    requires Holds(m, base, entries)
    ensures Holds(ApplyEntry(m, e), base, entries + [e])
  {
    EntryKept(entries, e);
    if Effective(e) {
      FoldOn(base, Kept(entries), e.payload.changelog);
    }
  }

  lemma EntryKept(entries: seq<Entry>, e: Entry)
    ensures Kept(entries + [e]) == if Effective(e) then Kept(entries) + [e.payload.changelog] else Kept(entries)
    ensures LastMembership(entries + [e]) ==
            if e.payload.Membership? then StoredMembership(Some(e.id), e.payload.config) else LastMembership(entries)
  {
    var all := entries + [e];
    assert all[..|all| - 1] == entries && all[|all| - 1] == e;
  }

  lemma FoldOn(s: Store, log: seq<ChangeLog>, cl: ChangeLog)
    ensures Fold(s, log + [cl]) == Apply(Fold(s, log), cl)
  {
    assert (log + [cl])[..|log + [cl]| - 1] == log;
  }

  /** The kept changelogs of a prefix are a prefix of the kept changelogs. */
  lemma {:induction false} KeptPrefix(entries: seq<Entry>, k: nat)
    requires k <= |entries|
    ensures |Kept(entries[..k])| <= |Kept(entries)|
    ensures Kept(entries[..k]) == Kept(entries)[..|Kept(entries[..k])|]
    decreases |entries|
  {
    if k == |entries| {
      assert entries[..k] == entries;
    } else {
      assert entries[..|entries| - 1][..k] == entries[..k];
      KeptPrefix(entries[..|entries| - 1], k);
    }
  }

  lemma {:induction false} ReplayIsFold(m: Machine, log: seq<ChangeLog>)
    ensures ApplyChangelogs(m, log).store == Fold(m.store, log)
    decreases |log|
  {
    if log != [] {
      ReplayIsFold(m, log[..|log| - 1]);
    }
  }

  /** An installed snapshot is as good as having applied the entries it was taken after, whatever rows the
      store already holds, exactly when the snapshot writes every row that is there. */
  lemma InstallOverAnything(m: Machine, s: Snapshot, entries: seq<Entry>)
    requires s.meta == Meta(LastId(entries), LastMembership(entries)) && s.data == Some(Kept(entries))
    ensures Holds(Install(m, s), map[], entries) <==> forall k :: k in m.store ==> LastWrite(Kept(entries), k).Some?
  {
    ReplayIsFold(m, Kept(entries));
    ReplayWithoutClearing(m.store, Kept(entries));
  }

  /** A row no changelog wrote, such as a document saved by a module, survives every install. */
  lemma ForeignRowSurvives(m: Machine, s: Snapshot, k: Key)
    requires s.data.Some? && LastWrite(s.data.value, k).None?
    ensures At(Install(m, s).store, k) == At(m.store, k)
  {
    ReplayIsFold(m, s.data.value);
    FoldAt(m.store, s.data.value, k);
  }

  // ----- what the proxy is told -----

  /** The changelogs of a list that take effect, in order. */
  function EffectiveOf(log: seq<ChangeLog>): seq<ChangeLog> {
    if log == [] then []
    else
      var last := log[|log| - 1];
      EffectiveOf(log[..|log| - 1]) + (if Effect(last).Some? then [last] else [])
  }

  /** Applying entries tells the proxy about exactly those that took effect, in order. */
  lemma {:induction false} ApplyNotifies(m: Machine, entries: seq<Entry>)
    ensures ApplyEntries(m, entries).notified == m.notified + Kept(entries)
    decreases |entries|
  {
    if entries != [] {
      ApplyNotifies(m, entries[..|entries| - 1]);
    }
  }

  lemma {:induction false} ReplayNotifies(m: Machine, log: seq<ChangeLog>)
    ensures ApplyChangelogs(m, log).notified == m.notified + EffectiveOf(log)
    decreases |log|
  {
    if log != [] {
      ReplayNotifies(m, log[..|log| - 1]);
    }
  }

  /** Installing a snapshot tells the proxy about every effective changelog of its list, in order; bytes that do not
      decode tell it nothing. */
  lemma InstallNotifies(m: Machine, s: Snapshot)
    ensures Install(m, s).notified == m.notified + (if s.data.Some? then EffectiveOf(s.data.value) else [])
  {
    if s.data.Some? {
      ReplayNotifies(m, s.data.value);
    }
  }

  /** A list of effective changelogs is told whole. */
  lemma {:induction false} KeptIsEffective(entries: seq<Entry>)
    ensures EffectiveOf(Kept(entries)) == Kept(entries)
    decreases |entries|
  {
    if entries != [] {
      var front, last := Kept(entries[..|entries| - 1]), entries[|entries| - 1];
      KeptIsEffective(entries[..|entries| - 1]);
      if Effective(last) {
        assert (front + [last.payload.changelog])[..|front|] == front;
      } else {
        assert front + [] == front;
      }
    }
  }
}
