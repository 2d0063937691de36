/** The in-memory Raft log (src/cluster/raft/store.rs) under openraft's calling discipline: appends continue
    the log, truncation stays above the purge point, and the purge point only advances. */
module RaftLogStore {
  import opened Resources
  import opened RaftStateMachine

  datatype Log = Log(logs: map<nat, Entry>, lastPurged: Option<LogId>)

  function Appended(l: Log, entries: seq<Entry>): Log {
    if entries == [] then l
    else
      var e := entries[|entries| - 1];
      var before := Appended(l, entries[..|entries| - 1]);
      before.(logs := before.logs[e.id.index := e])
  }

  function Truncated(l: Log, id: LogId): Log {
    l.(logs := map i | i in l.logs && i < id.index :: l.logs[i])
  }

  function Purged(l: Log, id: LogId): Log {
    Log(map i | i in l.logs && i > id.index :: l.logs[i], Some(id))
  }

  /** The entries of a range in index order. */
  function Slice(l: Log, lo: nat, hi: nat): seq<Entry>
    decreases hi
  {
    if lo >= hi then []
    else if hi - 1 in l.logs then Slice(l, lo, hi - 1) + [l.logs[hi - 1]]
    else Slice(l, lo, hi - 1)
  }

  predicate IsLast(l: Log, i: nat) {
    i in l.logs && forall j :: j in l.logs ==> j <= i
  }

  /** Where a log that holds anything starts. */
  function First(l: Log): nat {
    if l.lastPurged.Some? then l.lastPurged.value.index + 1 else 0
  }

  /** Entries sit at their own index, from the purge point on without a gap. */
  ghost predicate Contiguous(l: Log) {
    && (forall i :: i in l.logs ==> l.logs[i].id.index == i && First(l) <= i)
    && (forall i, j :: i in l.logs && First(l) <= j <= i ==> j in l.logs)
  }

  // ----- the store -----

  class LogStore {
    var logs: map<nat, Entry>
    var lastPurged: Option<LogId>

    function View(): Log
      reads this
    {
      Log(logs, lastPurged)
    }

    constructor ()
      ensures View() == Log(map[], None)
    {
      logs, lastPurged := map[], None;
    }

    method Append(entries: seq<Entry>)
      modifies this
      ensures View() == Appended(old(View()), entries)
    {
      for n := 0 to |entries|
        invariant View() == Appended(old(View()), entries[..n])
      {
        assert entries[..n + 1][..n] == entries[..n];
        logs := logs[entries[n].id.index := entries[n]];
      }
      assert entries[..|entries|] == entries;
    }

    method Truncate(id: LogId)
      modifies this
      ensures View() == Truncated(old(View()), id)
    {
      logs := map i | i in logs && i < id.index :: logs[i];
    }

    /** Collects the keys first and then removes them one by one. */
    method Purge(id: LogId)
      modifies this
      ensures View() == Purged(old(View()), id)
    {
      var rest := set i | i in logs && i <= id.index;
      while rest != {}
        invariant rest <= logs.Keys
        invariant logs == map i | i in old(logs) && (i > id.index || i in rest) :: old(logs)[i]
        invariant forall i :: i in rest ==> i <= id.index
        invariant lastPurged == old(lastPurged)
        decreases rest
      {
        var key :| key in rest;
        logs, rest := logs - {key}, rest - {key};
      }
      lastPurged := Some(id);
    }

    method TryGetLogEntries(lo: nat, hi: nat) returns (entries: seq<Entry>)
      ensures entries == Slice(View(), lo, hi)
    {
      entries := [];
      if lo < hi {
        for i := lo to hi
          invariant entries == Slice(View(), lo, i)
        {
          if i in logs {
            entries := entries + [logs[i]];
          }
        }
      }
    }

    /** The last id is that of the last entry held, and none when no entry is held. */
    method GetLogState() returns (purged: Option<LogId>, last: Option<LogId>)
      ensures purged == View().lastPurged
      ensures last.None? <==> View().logs == map[]
      ensures last.Some? ==> exists i :: IsLast(View(), i) && last.value == View().logs[i].id
    {
      purged, last := lastPurged, None;
      var rest := logs.Keys;
      if rest != {} {
        var best :| best in rest;
        while rest != {}
          invariant rest <= logs.Keys && best in logs
          invariant forall j :: j in logs && j !in rest ==> j <= best
          decreases rest
        {
          var i :| i in rest;
          best := if i > best then i else best;
          rest := rest - {i};
        }
        assert IsLast(View(), best);
        last := Some(logs[best].id);
      }
    }
  }

  // ----- every disciplined run -----

  datatype Op = Append(entries: seq<Entry>) | Truncate(id: LogId) | Purge(id: LogId)

  /** The next append of a log goes here. */
  predicate Fits(l: Log, i: nat) {
    if l.logs == map[] then i == First(l) else i >= 1 && IsLast(l, i - 1)
  }

  predicate CanDo(l: Log, op: Op) {
    match op
    case Append(entries) =>
      (forall k :: 0 <= k < |entries| ==> entries[k].id.index == entries[0].id.index + k)
      && (entries != [] ==> Fits(l, entries[0].id.index))
    case Truncate(id) => id.index >= First(l)
    case Purge(id) => id.index + 1 >= First(l)
  }

  function Do(l: Log, op: Op): Log {
    match op
    case Append(entries) => Appended(l, entries)
    case Truncate(id) => Truncated(l, id)
    case Purge(id) => Purged(l, id)
  }

  predicate Disciplined(l: Log, ops: seq<Op>) {
    ops == [] || (Disciplined(l, ops[..|ops| - 1]) && CanDo(After(l, ops[..|ops| - 1]), ops[|ops| - 1]))
  }

  function After(l: Log, ops: seq<Op>): Log {
    if ops == [] then l else Do(After(l, ops[..|ops| - 1]), ops[|ops| - 1])
  }

  lemma {:induction false} AppendKeeps(l: Log, entries: seq<Entry>)
    requires Contiguous(l) && CanDo(l, Op.Append(entries))
    ensures Contiguous(Appended(l, entries)) && Appended(l, entries).lastPurged == l.lastPurged
    ensures entries != [] ==> IsLast(Appended(l, entries), entries[0].id.index + |entries| - 1)
    decreases |entries|
  {
    if entries != [] {
      var front, e := entries[..|entries| - 1], entries[|entries| - 1];
      AppendKeeps(l, front);
      OneMore(Appended(l, front), e);
    }
  }

  lemma OneMore(l: Log, e: Entry)
    requires Contiguous(l) && Fits(l, e.id.index)
    ensures var l' := l.(logs := l.logs[e.id.index := e]); Contiguous(l') && IsLast(l', e.id.index)
  {
  }

  lemma {:induction false} RunKeeps(ops: seq<Op>)
    requires Disciplined(Log(map[], None), ops)
    ensures Contiguous(After(Log(map[], None), ops))
    decreases |ops|
  {
    if ops != [] {
      var front, op := ops[..|ops| - 1], ops[|ops| - 1];
      RunKeeps(front);
      if op.Append? {
        AppendKeeps(After(Log(map[], None), front), op.entries);
      }
    }
  }

  lemma {:induction false} FullSlice(l: Log, lo: nat, hi: nat)
    requires Contiguous(l) && First(l) <= lo <= hi && (lo < hi ==> hi - 1 in l.logs)
    ensures |Slice(l, lo, hi)| == hi - lo
    ensures forall k :: 0 <= k < hi - lo ==> Slice(l, lo, hi)[k].id.index == lo + k
    decreases hi
  {
    if lo < hi {
      FullSlice(l, lo, hi - 1);
    }
  }

  /** After every disciplined run, reading any range up to an entry held gives every index of it once, in order. */
  lemma ReadsWithoutGaps(ops: seq<Op>, lo: nat, hi: nat)
    requires Disciplined(Log(map[], None), ops)
    requires var l := After(Log(map[], None), ops); First(l) <= lo < hi && hi - 1 in l.logs
    ensures var s := Slice(After(Log(map[], None), ops), lo, hi);
            |s| == hi - lo && forall k :: 0 <= k < |s| ==> s[k].id.index == lo + k
  {
    RunKeeps(ops);
    FullSlice(After(Log(map[], None), ops), lo, hi);
  }

  /** Truncating and purging lose nothing on their own side: what is read below a truncation, or above a purge, is
      what was read before. */
  lemma {:induction false} CutsKeepTheRest(l: Log, id: LogId, lo: nat, hi: nat)
    ensures hi <= id.index ==> Slice(Truncated(l, id), lo, hi) == Slice(l, lo, hi)
    ensures lo > id.index ==> Slice(Purged(l, id), lo, hi) == Slice(l, lo, hi)
    decreases hi
  {
    if lo < hi {
      CutsKeepTheRest(l, id, lo, hi - 1);
    }
  }

  /** A purge past the last entry leaves a log without a last id, although its purge point is known. */
  lemma PurgedEmpty(l: Log, id: LogId)
    requires forall i :: i in l.logs ==> i <= id.index
    ensures Purged(l, id).logs == map[] && Purged(l, id).lastPurged == Some(id)
    ensures !exists i :: IsLast(Purged(l, id), i)
  {
  }

  // ----- what is read is what was appended -----

  lemma {:induction false} AppendedOutside(l: Log, entries: seq<Entry>, i: nat)
    requires forall e :: e in entries ==> e.id.index != i
    ensures i in Appended(l, entries).logs <==> i in l.logs
    ensures i in l.logs ==> Appended(l, entries).logs[i] == l.logs[i]
    decreases |entries|
  {
    if entries != [] {
      AppendedOutside(l, entries[..|entries| - 1], i);
    }
  }

  /** Of several entries for one index the last one appended is held. */
  lemma {:induction false} LastAppendedHolds(l: Log, entries: seq<Entry>, k: nat)
    requires k < |entries| && forall j :: k < j < |entries| ==> entries[j].id.index != entries[k].id.index
    ensures var i, l' := entries[k].id.index, Appended(l, entries); i in l'.logs && l'.logs[i] == entries[k]
    decreases |entries|
  {
    if k < |entries| - 1 {
      LastAppendedHolds(l, entries[..|entries| - 1], k);
    }
  }

  lemma {:induction false} SameSlice(l: Log, l': Log, lo: nat, hi: nat)
    requires forall i :: lo <= i < hi ==> (i in l.logs <==> i in l'.logs) && (i in l.logs ==> l.logs[i] == l'.logs[i])
    ensures Slice(l, lo, hi) == Slice(l', lo, hi)
    decreases hi
  {
    if lo < hi {
      SameSlice(l, l', lo, hi - 1);
    }
  }

  lemma {:induction false} SliceIs(l: Log, entries: seq<Entry>, lo: nat, n: nat)
    requires n <= |entries| && forall i :: lo <= i < lo + n ==> i in l.logs && l.logs[i] == entries[i - lo]
    ensures Slice(l, lo, lo + n) == entries[..n]
    decreases n
  {
    if n > 0 {
      SliceIs(l, entries, lo, n - 1);
      assert entries[..n] == entries[..n - 1] + [entries[n - 1]];
    }
  }

  /** After an append, reading its range gives exactly the entries appended, and reading below it gives what it gave
      before. */
  lemma AppendReadsBack(l: Log, entries: seq<Entry>, lo: nat, hi: nat)
    requires entries != [] && forall k :: 0 <= k < |entries| ==> entries[k].id.index == entries[0].id.index + k
    ensures var first := entries[0].id.index; Slice(Appended(l, entries), first, first + |entries|) == entries
    ensures hi <= entries[0].id.index ==> Slice(Appended(l, entries), lo, hi) == Slice(l, lo, hi)
  {
    var first, l' := entries[0].id.index, Appended(l, entries);
    forall i | first <= i < first + |entries| ensures i in l'.logs && l'.logs[i] == entries[i - first] {
      LastAppendedHolds(l, entries, i - first);
    }
    SliceIs(l', entries, first, |entries|);
    assert entries[..|entries|] == entries;
    if hi <= first {
      forall i | lo <= i < hi ensures (i in l.logs <==> i in l'.logs) && (i in l.logs ==> l.logs[i] == l'.logs[i]) {
        AppendedOutside(l, entries, i);
      }
      SameSlice(l, l', lo, hi);
    }
  }

  lemma {:induction false} NothingThere(l: Log, lo: nat, hi: nat)
    requires forall i :: lo <= i < hi ==> i !in l.logs
    ensures Slice(l, lo, hi) == []
    decreases hi
  {
    if lo < hi {
      NothingThere(l, lo, hi - 1);
    }
  }

  /** Nothing is left at or above a truncation, nor at or below a purge. */
  lemma CutsAreComplete(l: Log, id: LogId, lo: nat, hi: nat)
    ensures Slice(Truncated(l, id), id.index, hi) == []
    ensures Slice(Purged(l, id), lo, id.index + 1) == []
  {
    NothingThere(Truncated(l, id), id.index, hi);
    NothingThere(Purged(l, id), lo, id.index + 1);
  }
}
