/** The algebra of folding changelogs into a store: three loops of the repository perform this fold,
    the Raft state machine, Tempo's apply and the standalone restore. */
module Replay {
  import opened Resources

  /** Folds a log into a store, oldest changelog first. */
  function Fold(s: Store, log: seq<ChangeLog>): Store {
    if log == [] then s else Apply(Fold(s, log[..|log| - 1]), log[|log| - 1])
  }

  predicate Touches(cl: ChangeLog, k: Key) {
    Effect(cl).Some? && Effect(cl).value.key == k
  }

  /** What one key holds. */
  function At(s: Store, k: Key): Option<Item> {
    if k in s then Some(s[k]) else None
  }

  /** The last write of the log to key `k`. */
  function LastWrite(log: seq<ChangeLog>, k: Key): Option<Write> {
    if log == [] then None
    else if Touches(log[|log| - 1], k) then Effect(log[|log| - 1])
    else LastWrite(log[..|log| - 1], k)
  }

  /** What the last write leaves at the key, given what was there before the log. */
  function Outcome(w: Option<Write>, before: Option<Item>): Option<Item> {
    match w
    case None => before
    case Some(Put(_, item)) => Some(item)
    case Some(Remove(_)) => None
  }

  /** The sub-log that writes key `k`, in order. */
  function OnKey(log: seq<ChangeLog>, k: Key): seq<ChangeLog> {
    if log == [] then []
    else OnKey(log[..|log| - 1], k) + (if Touches(log[|log| - 1], k) then [log[|log| - 1]] else [])
  }

  /** One key of a fold depends only on the last write to that key. */
  lemma {:induction false} FoldAt(s: Store, log: seq<ChangeLog>, k: Key)
    ensures At(Fold(s, log), k) == Outcome(LastWrite(log, k), At(s, k))
    decreases |log|
  {
    if log != [] {
      FoldAt(s, log[..|log| - 1], k);
    }
  }

  lemma StoresEqual(a: Store, b: Store)
    requires forall k :: At(a, k) == At(b, k)
    ensures a == b
  {
    forall k ensures k in a <==> k in b {
      assert At(a, k) == At(b, k);
    }
    forall k | k in a ensures a[k] == b[k] {
      assert At(a, k) == At(b, k);
    }
  }

  /** Two folds agree exactly when every key ends the same. */
  lemma FoldsEqualIff(s: Store, a: seq<ChangeLog>, t: Store, b: seq<ChangeLog>)
    ensures Fold(s, a) == Fold(t, b) <==>
            forall k :: Outcome(LastWrite(a, k), At(s, k)) == Outcome(LastWrite(b, k), At(t, k))
  {
    forall k ensures At(Fold(s, a), k) == Outcome(LastWrite(a, k), At(s, k))
             ensures At(Fold(t, b), k) == Outcome(LastWrite(b, k), At(t, k))
    {
      FoldAt(s, a, k);
      FoldAt(t, b, k);
    }
    if forall k :: Outcome(LastWrite(a, k), At(s, k)) == Outcome(LastWrite(b, k), At(t, k)) {
      StoresEqual(Fold(s, a), Fold(t, b));
    }
  }

  lemma {:induction false} TouchedInPrefix(log: seq<ChangeLog>, n: nat, k: Key)
    requires n <= |log|
    requires LastWrite(log[..n], k).Some?
    ensures LastWrite(log, k).Some?
    decreases |log|
  {
    if n == |log| {
      assert log[..n] == log;
    } else {
      assert log[..|log| - 1][..n] == log[..n];
      TouchedInPrefix(log[..|log| - 1], n, k);
    }
  }

  /** Replaying a log over a store that already holds a prefix of it gives what the log gives from the start. */
  lemma PrefixThenWhole(s: Store, log: seq<ChangeLog>, n: nat)
    requires n <= |log|
    ensures Fold(Fold(s, log[..n]), log) == Fold(s, log)
  {
    forall k
      ensures Outcome(LastWrite(log, k), At(Fold(s, log[..n]), k)) == Outcome(LastWrite(log, k), At(s, k))
    {
      FoldAt(s, log[..n], k);
      if LastWrite(log[..n], k).Some? {
        TouchedInPrefix(log, n, k);
      }
    }
    FoldsEqualIff(Fold(s, log[..n]), log, s, log);
  }

  /** Replay is idempotent over any starting store. */
  lemma ReplayIdempotent(s: Store, log: seq<ChangeLog>)
    ensures Fold(Fold(s, log), log) == Fold(s, log)
  {
    assert log[..|log|] == log;
    PrefixThenWhole(s, log, |log|);
  }

  /** Replaying without clearing is as good as replaying into an empty store exactly when the log
      rewrites every row that is already there with something else or itself. */
  lemma ReplayWithoutClearing(s: Store, log: seq<ChangeLog>)
    ensures Fold(s, log) == Fold(map[], log) <==> forall k :: k in s ==> LastWrite(log, k).Some?
  {
    FoldsEqualIff(s, log, map[], log);
    if k :| k in s && LastWrite(log, k).None? {
      assert Outcome(LastWrite(log, k), At(s, k)) != Outcome(LastWrite(log, k), At(map[], k));
    }
  }

  /** The last write of a log is the last write of its projection on the key. */
  lemma {:induction false} LastWriteOnKey(log: seq<ChangeLog>, k: Key)
    ensures forall i :: 0 <= i < |OnKey(log, k)| ==> Touches(OnKey(log, k)[i], k)
    ensures LastWrite(log, k) ==
            if OnKey(log, k) == [] then None else Effect(OnKey(log, k)[|OnKey(log, k)| - 1])
    decreases |log|
  {
    if log != [] {
      LastWriteOnKey(log[..|log| - 1], k);
    }
  }

  /** The store depends only on the order of the changelogs of each key. */
  lemma SameOrderPerKey(s: Store, a: seq<ChangeLog>, b: seq<ChangeLog>)
    requires forall k :: OnKey(a, k) == OnKey(b, k)
    ensures Fold(s, a) == Fold(s, b)
  {
    forall k ensures LastWrite(a, k) == LastWrite(b, k) {
      LastWriteOnKey(a, k);
      LastWriteOnKey(b, k);
    }
    FoldsEqualIff(s, a, s, b);
  }

  /** Adding a resource writes the row of its own names, and deleting by the same names removes that row again:
      the two commands of a resource type always mean the same row. */
  lemma DeleteUndoesAdd(s: Store, add: ChangeLog, del: ChangeLog)
    requires Effect(add).Some? && ItemMatches(add) && Opposite(add.cmd) == Some(del.cmd)
    requires del.namespace == add.namespace && del.name == add.name && (del.cmd.DeleteDocument? ==> del.item == add.item)
    ensures add.item != Malformed && At(Apply(s, add), KeyOf(add.item)) == Some(add.item)
    ensures Apply(Apply(s, add), del) == s - {KeyOf(add.item)}
  {
    var k := KeyOf(add.item);
    assert Effect(add) == Some(Put(k, add.item)) && Effect(del) == Some(Remove(k));
    assert s[k := add.item] - {k} == s - {k};
  }

  /** A changelog touches one row at most, and a refused one none. */
  lemma OneRow(s: Store, cl: ChangeLog, k: Key)
    ensures !Touches(cl, k) ==> At(Apply(s, cl), k) == At(s, k)
    ensures Effect(cl).None? ==> Apply(s, cl) == s
  {
  }

  /** Two changelogs conflict if they write one row differently. */
  predicate Conflicts(a: ChangeLog, b: ChangeLog) {
    Effect(a).Some? && Effect(b).Some? && Effect(a).value.key == Effect(b).value.key && Effect(a) != Effect(b)
  }

  /** The order of two changelogs matters, over every store, exactly when they conflict. */
  lemma OrderMatters(s: Store, a: ChangeLog, b: ChangeLog)
    ensures Apply(Apply(s, a), b) != Apply(Apply(s, b), a) <==> Conflicts(a, b)
  {
    if Conflicts(a, b) {
      var k := Effect(a).value.key;
      assert At(Apply(Apply(s, a), b), k) == Outcome(Effect(b), At(s, k));
      assert At(Apply(Apply(s, b), a), k) == Outcome(Effect(a), At(s, k));
    } else {
      forall k ensures At(Apply(Apply(s, a), b), k) == At(Apply(Apply(s, b), a), k) {
        OneRow(s, a, k);
        OneRow(s, b, k);
        OneRow(Apply(s, a), b, k);
        OneRow(Apply(s, b), a, k);
      }
      StoresEqual(Apply(Apply(s, a), b), Apply(Apply(s, b), a));
    }
  }

  // ----- what the sixteen commands do, row by row -----

  /** An adding command is accepted exactly when its item is of its own type, a deleting one always; but deleting a
      document takes the collection from its item. */
  lemma AcceptedIff(cl: ChangeLog)
    ensures cl.cmd.AddNamespace? ==> (Effect(cl).Some? <==> cl.item.NamespaceItem?)
    ensures cl.cmd.AddRoute? ==> (Effect(cl).Some? <==> cl.item.RouteItem?)
    ensures cl.cmd.AddService? ==> (Effect(cl).Some? <==> cl.item.ServiceItem?)
    ensures cl.cmd.AddModule? ==> (Effect(cl).Some? <==> cl.item.ModuleItem?)
    ensures cl.cmd.AddDomain? ==> (Effect(cl).Some? <==> cl.item.DomainItem?)
    ensures cl.cmd.AddSecret? ==> (Effect(cl).Some? <==> cl.item.SecretItem?)
    ensures cl.cmd.AddCollection? ==> (Effect(cl).Some? <==> cl.item.CollectionItem?)
    ensures cl.cmd.AddDocument? ==> (Effect(cl).Some? <==> cl.item.DocumentItem?)
    ensures cl.cmd.DeleteDocument? ==> (Effect(cl).Some? <==> cl.item.DocumentItem?)
    ensures cl.cmd in {DeleteNamespace, DeleteRoute, DeleteService, DeleteModule, DeleteDomain, DeleteSecret, DeleteCollection}
            ==> Effect(cl).Some?
  {
  }

  /** An accepted adding command puts its item into the row of the item's own names and leaves every other row; a refused
      one leaves them all. */
  lemma AddedRow(s: Store, cl: ChangeLog, row: Key)
    ensures cl.cmd.AddNamespace? ==>
              At(Apply(s, cl), row) == if cl.item.NamespaceItem? && row == Key(Namespaces, cl.item.ns.name) then Some(cl.item) else At(s, row)
    ensures cl.cmd.AddRoute? ==>
              At(Apply(s, cl), row) == if cl.item.RouteItem? && row == Key(Routes, cl.item.route.namespace + ":" + cl.item.route.name) then Some(cl.item) else At(s, row)
    ensures cl.cmd.AddService? ==>
              At(Apply(s, cl), row) == if cl.item.ServiceItem? && row == Key(Services, cl.item.service.namespace + ":" + cl.item.service.name) then Some(cl.item) else At(s, row)
    ensures cl.cmd.AddModule? ==>
              At(Apply(s, cl), row) == if cl.item.ModuleItem? && row == Key(Table.Modules, cl.item.mod.namespace + ":" + cl.item.mod.name) then Some(cl.item) else At(s, row)
    ensures cl.cmd.AddDomain? ==>
              At(Apply(s, cl), row) == if cl.item.DomainItem? && row == Key(Domains, cl.item.domain.namespace + ":" + cl.item.domain.name) then Some(cl.item) else At(s, row)
    ensures cl.cmd.AddSecret? ==>
              At(Apply(s, cl), row) == if cl.item.SecretItem? && row == Key(Secrets, cl.item.secret.namespace + ":" + cl.item.secret.name) then Some(cl.item) else At(s, row)
    ensures cl.cmd.AddCollection? ==>
              At(Apply(s, cl), row) == if cl.item.CollectionItem? && row == Key(Collections, cl.item.collection.namespace + ":" + cl.item.collection.name) then Some(cl.item) else At(s, row)
    ensures cl.cmd.AddDocument? ==>
              At(Apply(s, cl), row) == if cl.item.DocumentItem? && row == Key(Table.Documents, cl.item.document.namespace + ":" + cl.item.document.collection + ":" + cl.item.document.id) then Some(cl.item) else At(s, row)
  {
  }

  /** A deleting command empties the row of the names it carries and leaves every other row. */
  lemma DeletedRow(s: Store, cl: ChangeLog, row: Key)
    ensures cl.cmd.DeleteNamespace? ==>
              At(Apply(s, cl), row) == if row == Key(Namespaces, cl.name) then None else At(s, row)
    ensures cl.cmd.DeleteRoute? ==>
              At(Apply(s, cl), row) == if row == Key(Routes, cl.namespace + ":" + cl.name) then None else At(s, row)
    ensures cl.cmd.DeleteService? ==>
              At(Apply(s, cl), row) == if row == Key(Services, cl.namespace + ":" + cl.name) then None else At(s, row)
    ensures cl.cmd.DeleteModule? ==>
              At(Apply(s, cl), row) == if row == Key(Table.Modules, cl.namespace + ":" + cl.name) then None else At(s, row)
    ensures cl.cmd.DeleteDomain? ==>
              At(Apply(s, cl), row) == if row == Key(Domains, cl.namespace + ":" + cl.name) then None else At(s, row)
    ensures cl.cmd.DeleteSecret? ==>
              At(Apply(s, cl), row) == if row == Key(Secrets, cl.namespace + ":" + cl.name) then None else At(s, row)
    ensures cl.cmd.DeleteCollection? ==>
              At(Apply(s, cl), row) == if row == Key(Collections, cl.namespace + ":" + cl.name) then None else At(s, row)
    ensures cl.cmd.DeleteDocument? ==>
              At(Apply(s, cl), row) == if cl.item.DocumentItem? && row == Key(Table.Documents, cl.namespace + ":" + cl.item.document.collection + ":" + cl.name) then None else At(s, row)
  {
  }

  /** Resources of different types never share a row. */
  lemma TypesApart(a: Item, b: Item)
    requires a != Malformed && b != Malformed && KeyOf(a) == KeyOf(b)
    ensures a.NamespaceItem? <==> b.NamespaceItem?
    ensures a.RouteItem? <==> b.RouteItem?
    ensures a.ServiceItem? <==> b.ServiceItem?
    ensures a.ModuleItem? <==> b.ModuleItem?
    ensures a.DomainItem? <==> b.DomainItem?
    ensures a.SecretItem? <==> b.SecretItem?
    ensures a.CollectionItem? <==> b.CollectionItem?
    ensures a.DocumentItem? <==> b.DocumentItem?
  {
  }
}
