/** Command bookkeeping of one Tempo node (src/cluster/tempo/state.rs): the value functions the
    protocol is stated over, and the mutable class proved against them. */
module TempoBookkeeping {
  import opened Resources

  type NodeId = nat

  /** A command identifier: the proposing node and its sequence number. */
  datatype Dot = Dot(node: NodeId, sequence: nat)

  datatype CommandInfo = CommandInfo(changelog: ChangeLog, clock: nat, acks: map<NodeId, nat>, committed: bool)

  /** The fields of the source's `TempoState`. */
  datatype Book = Book(
    me: NodeId, quorum: nat, commands: map<Dot, CommandInfo>,
    committedDots: set<Dot>, committedCount: nat, lastApplied: nat)
  {
    /** First writer wins: an existing entry is left alone. */
    function AddCommand(dot: Dot, changelog: ChangeLog, clock: nat): Book {
      if dot in commands then this
      else this.(commands := commands[dot := CommandInfo(changelog, clock, map[], false)])
    }

    function AddAck(dot: Dot, node: NodeId, clock: nat): Book {
      if dot !in commands then this
      else this.(commands := commands[dot := commands[dot].(acks := commands[dot].acks[node := clock])])
    }

    predicate HasQuorum(dot: Dot) {
      dot in commands && |commands[dot].acks| >= quorum && !commands[dot].committed
    }

    function MarkCommitted(dot: Dot): Book {
      if dot in commands then
        if commands[dot].committed then this
        else this.(
          commands := commands[dot := commands[dot].(committed := true)],
          committedDots := committedDots + {dot},
          committedCount := committedCount + 1,
          lastApplied := if dot.node == me && dot.sequence > lastApplied then dot.sequence else lastApplied)
      else
        this.(committedDots := committedDots + {dot}, committedCount := committedCount + 1)
    }

    function CommittedCommands(): set<Dot> {
      set d | d in commands && commands[d].committed
    }

    /** The sets a garbage collection may drop; ties between equal sequences are left open. */
    predicate MayDrop(keepRecent: nat, drop: set<Dot>) {
      if |commands| <= keepRecent then drop == {}
      else
        && drop <= CommittedCommands()
        && |drop| == (if |CommittedCommands()| <= keepRecent then 0 else |CommittedCommands()| - keepRecent)
        && forall d, e :: d in drop && e in CommittedCommands() - drop ==> d.sequence <= e.sequence
    }

    function Drop(drop: set<Dot>): Book {
      this.(commands := commands - drop)
    }
  }

  /** Insertion into a list ordered by sequence number. */
  function Insert(d: Dot, ds: seq<Dot>): seq<Dot> {
    if ds == [] || d.sequence < ds[0].sequence then [d] + ds else [ds[0]] + Insert(d, ds[1..])
  }

  function SortBySequence(ds: seq<Dot>): seq<Dot> {
    if ds == [] then [] else Insert(ds[0], SortBySequence(ds[1..]))
  }

  predicate Ordered(ds: seq<Dot>) {
    forall i, j :: 0 <= i < j < |ds| ==> ds[i].sequence <= ds[j].sequence
  }

  lemma {:induction false} InsertOrdered(d: Dot, ds: seq<Dot>)
    requires Ordered(ds)
    ensures Ordered(Insert(d, ds)) && multiset(Insert(d, ds)) == multiset(ds) + multiset{d}
  {
    if ds != [] {
      assert ds == [ds[0]] + ds[1..];
      if d.sequence >= ds[0].sequence {
        InsertOrdered(d, ds[1..]);
        InFront(ds[0], d, ds[1..], Insert(d, ds[1..]));
      }
    }
  }

  lemma InFront(first: Dot, d: Dot, ds: seq<Dot>, longer: seq<Dot>)
    requires Ordered(longer) && multiset(longer) == multiset(ds) + multiset{d}
    requires first.sequence <= d.sequence && forall x :: x in ds ==> first.sequence <= x.sequence
    ensures Ordered([first] + longer) && multiset([first] + longer) == multiset([first] + ds) + multiset{d}
  {
    forall x | x in longer ensures first.sequence <= x.sequence {
      assert x in multiset(longer);
      assert x == d || x in multiset(ds);
    }
  }

  lemma {:induction false} SortBySequenceSorts(ds: seq<Dot>)
    ensures Ordered(SortBySequence(ds)) && multiset(SortBySequence(ds)) == multiset(ds)
  {
    if ds != [] {
      assert ds == [ds[0]] + ds[1..];
      SortBySequenceSorts(ds[1..]);
      InsertOrdered(ds[0], SortBySequence(ds[1..]));
    }
  }

  predicate Distinct(ds: seq<Dot>) {
    forall i, j :: 0 <= i < j < |ds| ==> ds[i] != ds[j]
  }

  function Elements(ds: seq<Dot>): set<Dot> {
    set d | d in ds
  }

  lemma {:induction false} DistinctSize(ds: seq<Dot>)
    requires Distinct(ds)
    ensures |Elements(ds)| == |ds|
  {
    if ds != [] {
      var front, last := ds[..|ds| - 1], ds[|ds| - 1];
      DistinctSize(front);
      assert last !in front;
      assert Elements(ds) == Elements(front) + {last};
    }
  }

  lemma {:induction false} SameMultisetDistinct(a: seq<Dot>, b: seq<Dot>)
    requires Distinct(a) && multiset(a) == multiset(b)
    ensures Distinct(b)
  {
    if i, j :| 0 <= i < j < |b| && b[i] == b[j] {
      assert b == b[..i] + [b[i]] + b[i + 1..j] + [b[j]] + b[j + 1..];
      assert multiset(b)[b[i]] >= 2;
      assert multiset(a)[b[i]] >= 2;
      AtMostOnce(a, b[i]);
      assert false;
    }
  }

  lemma {:induction false} AtMostOnce(a: seq<Dot>, d: Dot)
    requires Distinct(a)
    ensures multiset(a)[d] <= 1
  {
    if a != [] {
      assert a == a[..|a| - 1] + [a[|a| - 1]];
      AtMostOnce(a[..|a| - 1], d);
      assert d == a[|a| - 1] ==> d !in a[..|a| - 1];
    }
  }

  class TempoState {
    const nodeId: NodeId
    const fastQuorumSize: nat
    var commands: map<Dot, CommandInfo>
    var committedDots: set<Dot>
    var committedCount: nat
    var lastApplied: nat

    function View(): Book
      reads this
    {
      Book(nodeId, fastQuorumSize, commands, committedDots, committedCount, lastApplied)
    }

    constructor (nodeId: NodeId, fastQuorumSize: nat)
      ensures View() == Book(nodeId, fastQuorumSize, map[], {}, 0, 0)
    {
      this.nodeId, this.fastQuorumSize := nodeId, fastQuorumSize;
      commands, committedDots, committedCount, lastApplied := map[], {}, 0, 0;
    }

    method AddCommand(dot: Dot, changelog: ChangeLog, clock: nat)
      modifies this
      ensures View() == old(View()).AddCommand(dot, changelog, clock)
    {
      if dot !in commands {
        commands := commands[dot := CommandInfo(changelog, clock, map[], false)];
      }
    }

    method AddAck(dot: Dot, node: NodeId, clock: nat) returns (quorum: bool)
      modifies this
      ensures View() == old(View()).AddAck(dot, node, clock)
      ensures quorum == View().HasQuorum(dot)
      ensures quorum == (dot in commands && |commands[dot].acks| >= fastQuorumSize && !commands[dot].committed)
    {
      if dot in commands {
        var cmd := commands[dot];
        cmd := cmd.(acks := cmd.acks[node := clock]);
        commands := commands[dot := cmd];
        quorum := |cmd.acks| >= fastQuorumSize && !cmd.committed;
      } else {
        quorum := false;
      }
    }

    predicate HasQuorum(dot: Dot)
      reads this
      ensures HasQuorum(dot) == View().HasQuorum(dot)
    {
      dot in commands && |commands[dot].acks| >= fastQuorumSize && !commands[dot].committed
    }

    method MarkCommitted(dot: Dot)
      modifies this
      ensures View() == old(View()).MarkCommitted(dot)
      ensures dot in old(commands) ==> commands == old(commands)[dot := old(commands)[dot].(committed := true)]
      ensures dot !in old(commands) ==> commands == old(commands)
    {
      if dot in commands {
        if !commands[dot].committed {
          commands := commands[dot := commands[dot].(committed := true)];
          committedDots := committedDots + {dot};
          committedCount := committedCount + 1;
          if dot.node == nodeId {
            lastApplied := if lastApplied > dot.sequence then lastApplied else dot.sequence;
          }
        }
      } else {
        committedDots := committedDots + {dot};
        committedCount := committedCount + 1;
      }
    }

    /** The committed commands in the table's own, arbitrary order. */
    method ListCommitted() returns (ds: seq<Dot>)
      ensures Distinct(ds) && Elements(ds) == View().CommittedCommands()
    {
      ds := [];
      var rest := View().CommittedCommands();
      while rest != {}
        invariant Distinct(ds) && rest !! Elements(ds)
        invariant Elements(ds) + rest == View().CommittedCommands()
        decreases rest
      {
        var d :| d in rest;
        assert Elements(ds + [d]) == Elements(ds) + {d};
        ds, rest := ds + [d], rest - {d};
      }
    }

    method RemoveFirst(ds: seq<Dot>, count: nat)
      requires count <= |ds|
      modifies this
      ensures View() == old(View()).Drop(Elements(ds[..count]))
    {
      var i := 0;
      assert commands - {} == commands;
      while i < count
        invariant 0 <= i <= count
        invariant View() == old(View()).Drop(Elements(ds[..i]))
      {
        assert Elements(ds[..i + 1]) == Elements(ds[..i]) + {ds[i]};
        commands := commands - {ds[i]};
        i := i + 1;
      }
    }

    /** Drops the committed commands of lowest sequence so that `keepRecent` of them remain. */
    method Gc(keepRecent: nat) returns (ghost drop: set<Dot>)
      modifies this
      ensures old(View()).MayDrop(keepRecent, drop) && View() == old(View()).Drop(drop)
    {
      if |commands| <= keepRecent {
        assert commands - {} == commands;
        return {};
      }
      var toRemove := ListCommitted();
      SortBySequenceSorts(toRemove);
      var sorted := SortBySequence(toRemove);
      SameMultisetDistinct(toRemove, sorted);
      DistinctSize(toRemove);
      var removeCount := if |sorted| <= keepRecent then 0 else |sorted| - keepRecent;
      SortedPrefixMayDrop(View(), keepRecent, toRemove, sorted, removeCount);
      RemoveFirst(sorted, removeCount);
      drop := Elements(sorted[..removeCount]);
    }
  }

  lemma SortedPrefixMayDrop(b: Book, keepRecent: nat, ds: seq<Dot>, sorted: seq<Dot>, n: nat)
    requires |b.commands| > keepRecent
    requires Elements(ds) == b.CommittedCommands() && |b.CommittedCommands()| == |ds|
    requires multiset(sorted) == multiset(ds) && Distinct(sorted) && Ordered(sorted)
    requires n == if |sorted| <= keepRecent then 0 else |sorted| - keepRecent
    ensures |sorted| == |ds| && b.MayDrop(keepRecent, Elements(sorted[..n]))
  {
    assert |multiset(sorted)| == |sorted| && |multiset(ds)| == |ds|;
    forall d ensures d in sorted <==> d in ds {
      assert d in sorted <==> d in multiset(sorted);
      assert d in ds <==> d in multiset(ds);
    }
    DistinctSize(sorted[..n]);
    forall d, e | d in sorted[..n] && e in b.CommittedCommands() - Elements(sorted[..n])
      ensures d.sequence <= e.sequence
    {
      var i :| 0 <= i < n && sorted[i] == d;
      assert sorted == sorted[..n] + sorted[n..];
      var j :| 0 <= j < |sorted| - n && sorted[n..][j] == e;
      assert sorted[n + j] == e;
    }
  }
}
