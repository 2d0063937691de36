/** The documents a module sees and writes (src/proxy/mod.rs, `get_documents_for_namespace` and
    `save_module_documents`): a map from keys to data on the way in, and the keys parsed on the way out. */
module Documents {
  import opened Resources
  import opened Replay
  import opened Strings
  import opened Storage
  import opened Routing

  // ----- keys -----

  function LocalKey(col: string, id: string): string {
    col + ":" + id
  }

  function CrossKey(ns: string, col: string, id: string): string {
    ns + "/" + col + ":" + id
  }

  /** The key under which a module of `requesting` sees a document of the collection. */
  function KeyFor(requesting: string, c: Collection, id: string): string {
    if c.namespace == requesting then LocalKey(c.name, id) else CrossKey(c.namespace, c.name, id)
  }

  datatype Target = Target(namespace: string, collection: string, id: string)

  function RowOf(t: Target): Key {
    Key(Table.Documents, DocumentKey(t.namespace, t.collection, t.id))
  }

  /** Where a key of the map points; `None` for keys that are skipped. */
  function ParseKey(requesting: string, key: string): Option<Target> {
    var parts := SplitOnce(key, ':');
    if parts.None? then None
    else if '/' in key then
      var scope := SplitOnce(parts.value.0, '/');
      if scope.None? then None else Some(Target(scope.value.0, scope.value.1, parts.value.1))
    else Some(Target(requesting, parts.value.0, parts.value.1))
  }

  /** A local key leads back to its document exactly when the collection is free of both separators and the id is
      free of slashes. */
  lemma LocalKeyIff(requesting: string, col: string, id: string)
    ensures ParseKey(requesting, LocalKey(col, id)) == Some(Target(requesting, col, id)) <==>
            ':' !in col && '/' !in col && '/' !in id
  {
    var key := LocalKey(col, id);
    assert key == col + [':'] + id;
    assert '/' in key <==> '/' in col || '/' in id;
    SplitParts(key, ':');
    var p := SplitOnce(key, ':').value;
    if ':' !in col {
      SplitAt(col, ':', id);
      SplitParts(col, '/');
    } else {
      ShorterFirst(p.0, p.1, col, id, ':');
      SplitParts(p.0, '/');
    }
  }

  lemma ShorterFirst(a: string, x: string, b: string, y: string, c: char)
    requires a + [c] + x == b + [c] + y && c !in a && c in b
    ensures |a| < |b|
  {
    var i :| 0 <= i < |b| && b[i] == c;
    assert (a + [c] + x)[i] == c;
  }

  /** A cross-namespace key leads back exactly when namespace and collection have no colon and the namespace no
      slash, whatever the id. */
  lemma CrossKeyIff(requesting: string, ns: string, col: string, id: string)
    ensures ParseKey(requesting, CrossKey(ns, col, id)) == Some(Target(ns, col, id)) <==>
            ':' !in ns && ':' !in col && '/' !in ns
  {
    var key := CrossKey(ns, col, id);
    var scope := ns + "/" + col;
    assert key == scope + [':'] + id && scope == ns + ['/'] + col;
    assert key[|ns|] == '/';
    SplitParts(key, ':');
    var p := SplitOnce(key, ':').value;
    if ':' !in ns && ':' !in col {
      SplitAt(scope, ':', id);
      SplitParts(scope, '/');
      if '/' !in ns {
        SplitAt(ns, '/', col);
      }
    } else {
      ShorterFirst(p.0, p.1, scope, id, ':');
      SplitParts(p.0, '/');
    }
  }

  /** What any key means: nothing without a colon; before its first colon, a slash separates the namespace from the
      collection; without one there, it is skipped if a slash follows, and names a document of the own namespace if
      none does. */
  lemma KeyMeans(requesting: string, key: string, before: string, id: string, ns: string, col: string)
    ensures ':' !in key ==> ParseKey(requesting, key).None?
    ensures key == before + [':'] + id && ':' !in before ==>
              && ('/' !in before && '/' in id ==> ParseKey(requesting, key).None?)
              && ('/' !in before && '/' !in id ==> ParseKey(requesting, key) == Some(Target(requesting, before, id)))
              && (before == ns + ['/'] + col && '/' !in ns ==> ParseKey(requesting, key) == Some(Target(ns, col, id)))
  {
    SplitParts(key, ':');
    if key == before + [':'] + id && ':' !in before {
      SplitAt(before, ':', id);
      SplitParts(before, '/');
      assert '/' in key <==> '/' in before || '/' in id;
      if before == ns + ['/'] + col && '/' !in ns {
        assert before[|ns|] == '/';
        SplitAt(ns, '/', col);
      }
    }
  }

  // ----- reading -----

  ghost predicate IsCollection(s: Store, c: Collection) {
    exists k :: k in s && k.table == Collections && s[k] == CollectionItem(c)
  }

  /** The document is listed with the collection. */
  ghost predicate ListedIn(s: Store, c: Collection, d: Document) {
    exists k :: k in s && k.table == Table.Documents && StartsWith(k.name, c.namespace + ":" + c.name + ":") && s[k] == DocumentItem(d)
  }

  /** The pair puts the document's data under this key. */
  ghost predicate Offers(s: Store, requesting: string, c: Collection, d: Document, key: string) {
    IsCollection(s, c) && c.IsAccessibleFrom(requesting) && ListedIn(s, c, d) && key == KeyFor(requesting, c, d.id)
  }

  /** The map a module is given; of documents that share a key, one is kept. */
  ghost predicate Reads(s: Store, requesting: string, docs: map<string, string>) {
    && Sourced(s, requesting, docs)
    && (forall c, d, key :: Offers(s, requesting, c, d, key) ==> key in docs)
  }

  /** Everything in the map comes from a document. */
  ghost predicate Sourced(s: Store, requesting: string, docs: map<string, string>) {
    forall key {:trigger docs[key]} :: key in docs ==> exists c, d :: Offers(s, requesting, c, d, key) && docs[key] == d.data
  }

  /** Everything the collection offers has a key in the map. */
  ghost predicate Covered(s: Store, requesting: string, c: Collection, docs: map<string, string>) {
    forall d, key :: Offers(s, requesting, c, d, key) ==> key in docs
  }

  method GetDocuments(store: ProxyStore, requesting: string) returns (docs: map<string, string>)
    requires WellKept(store.View())
    ensures Reads(store.View(), requesting, docs)
  {
    var collections := store.storage.List(Collections, "");
    ListedCollections(store.View(), collections);
    docs := AddCollections(store, requesting, collections);
    CollectionsListed(store.View(), requesting, collections, docs);
  }

  method AddCollections(store: ProxyStore, requesting: string, collections: seq<(string, Item)>) returns (docs: map<string, string>)
    requires WellKept(store.View())
    requires forall r :: r in collections ==> r.1.CollectionItem? && IsCollection(store.View(), r.1.collection)
    ensures Sourced(store.View(), requesting, docs) && CoveredUpTo(store.View(), requesting, collections, |collections|, docs)
  {
    docs := map[];
    for i := 0 to |collections|
      invariant Sourced(store.View(), requesting, docs) && CoveredUpTo(store.View(), requesting, collections, i, docs)
    {
      assert collections[i] in collections;
      ghost var before := docs;
      docs := AddCollection(store, requesting, collections[i].1.collection, docs);
      CoveredOneMore(store.View(), requesting, collections, i, before, docs);
    }
  }

  ghost predicate CoveredUpTo(s: Store, requesting: string, rows: seq<(string, Item)>, n: nat, docs: map<string, string>) {
    forall j :: 0 <= j < n <= |rows| ==> rows[j].1.CollectionItem? && Covered(s, requesting, rows[j].1.collection, docs)
  }

  lemma CoveredOneMore(s: Store, requesting: string, rows: seq<(string, Item)>, i: nat,
                       before: map<string, string>, docs: map<string, string>)
    requires i < |rows| && CoveredUpTo(s, requesting, rows, i, before) && before.Keys <= docs.Keys
    requires rows[i].1.CollectionItem? && Covered(s, requesting, rows[i].1.collection, docs)
    ensures CoveredUpTo(s, requesting, rows, i + 1, docs)
  {
    forall j | 0 <= j < i ensures Covered(s, requesting, rows[j].1.collection, docs) {
      assert Covered(s, requesting, rows[j].1.collection, before);
    }
  }

  lemma ListedCollections(s: Store, rows: seq<(string, Item)>)
    requires WellKept(s) && IsListing(rows, s, Collections, "")
    ensures forall r :: r in rows ==> r.1.CollectionItem? && IsCollection(s, r.1.collection)
  {
    forall r | r in rows ensures r.1.CollectionItem? && IsCollection(s, r.1.collection) {
      var k := Key(Collections, r.0);
      assert k in s && s[k] == r.1 && KeyOf(r.1) == k;
    }
  }

  lemma CollectionsListed(s: Store, requesting: string, rows: seq<(string, Item)>, docs: map<string, string>)
    requires WellKept(s) && IsListing(rows, s, Collections, "")
    requires CoveredUpTo(s, requesting, rows, |rows|, docs)
    ensures forall c, d, key :: Offers(s, requesting, c, d, key) ==> key in docs
  {
    forall c, d, key | Offers(s, requesting, c, d, key) ensures key in docs {
      var k :| k in s && k.table == Collections && s[k] == CollectionItem(c);
      assert StartsWith(k.name, "");
      assert (k.name, s[k]) in rows;
      var j :| 0 <= j < |rows| && rows[j] == (k.name, s[k]);
      assert Covered(s, requesting, rows[j].1.collection, docs);
    }
  }

  /** One turn of the loop over the collections. */
  method AddCollection(store: ProxyStore, requesting: string, c: Collection, before: map<string, string>)
    returns (docs: map<string, string>)
    requires WellKept(store.View()) && IsCollection(store.View(), c) && Sourced(store.View(), requesting, before)
    ensures Sourced(store.View(), requesting, docs) && Covered(store.View(), requesting, c, docs)
    ensures before.Keys <= docs.Keys
  {
    docs := before;
    if c.IsAccessibleFrom(requesting) {
      var rows := store.storage.List(Table.Documents, c.namespace + ":" + c.name + ":");
      ListedDocuments(store.View(), c, rows);
      docs := AddRows(requesting, c, rows, before, store.View());
      DocumentsListed(store.View(), requesting, c, rows, docs);
    }
  }

  /** The rows of a listing are documents of the collection. */
  lemma ListedDocuments(s: Store, c: Collection, rows: seq<(string, Item)>)
    requires WellKept(s) && IsListing(rows, s, Table.Documents, c.namespace + ":" + c.name + ":")
    ensures forall r :: r in rows ==> r.1.DocumentItem? && ListedIn(s, c, r.1.document)
  {
    forall r | r in rows ensures r.1.DocumentItem? && ListedIn(s, c, r.1.document) {
      var k := Key(Table.Documents, r.0);
      assert k in s && s[k] == r.1 && KeyOf(r.1) == k;
    }
  }

  /** Inserts the data of the listed documents under their keys. */
  method AddRows(requesting: string, c: Collection, rows: seq<(string, Item)>, before: map<string, string>, ghost s: Store)
    returns (docs: map<string, string>)
    requires forall r :: r in rows ==> r.1.DocumentItem? && ListedIn(s, c, r.1.document)
    requires IsCollection(s, c) && c.IsAccessibleFrom(requesting) && Sourced(s, requesting, before)
    ensures Sourced(s, requesting, docs) && before.Keys <= docs.Keys
    ensures forall j :: 0 <= j < |rows| ==> rows[j] in rows && KeyFor(requesting, c, rows[j].1.document.id) in docs
  {
    docs := before;
    for i := 0 to |rows|
      invariant Sourced(s, requesting, docs) && before.Keys <= docs.Keys
      invariant forall j :: 0 <= j < i ==> rows[j] in rows && KeyFor(requesting, c, rows[j].1.document.id) in docs
    {
      assert rows[i] in rows;
      var d := rows[i].1.document;
      var key := if c.namespace == requesting then c.name + ":" + d.id else c.namespace + "/" + c.name + ":" + d.id;
      SourcedOn(s, requesting, c, d, key, docs);
      docs := docs[key := d.data];
    }
  }

  lemma SourcedOn(s: Store, requesting: string, c: Collection, d: Document, key: string, docs: map<string, string>)
    requires Sourced(s, requesting, docs) && Offers(s, requesting, c, d, key)
    ensures Sourced(s, requesting, docs[key := d.data])
  {
  }

  lemma DocumentsListed(s: Store, requesting: string, c: Collection, rows: seq<(string, Item)>, docs: map<string, string>)
    requires WellKept(s) && IsListing(rows, s, Table.Documents, c.namespace + ":" + c.name + ":")
    requires forall j :: 0 <= j < |rows| ==> rows[j].1.DocumentItem? && KeyFor(requesting, c, rows[j].1.document.id) in docs
    ensures Covered(s, requesting, c, docs)
  {
    forall d, key | Offers(s, requesting, c, d, key) ensures key in docs {
      var k :| k in s && k.table == Table.Documents && StartsWith(k.name, c.namespace + ":" + c.name + ":") && s[k] == DocumentItem(d);
      assert (k.name, s[k]) in rows;
      var j :| 0 <= j < |rows| && rows[j] == (k.name, s[k]);
    }
  }

  // ----- writing -----

  /** A module may write to a stored collection that is accessible to it, or create documents of a collection that
      is not stored in its own namespace. */
  predicate CanWrite(s: Store, requesting: string, t: Target) {
    var k := Key(Collections, ScopedKey(t.namespace, t.collection));
    if k in s && s[k].CollectionItem? then s[k].collection.IsAccessibleFrom(requesting) else t.namespace == requesting
  }

  /** The row that saving this key writes. */
  function WrittenRow(s: Store, requesting: string, key: string): Option<Key> {
    var t := ParseKey(requesting, key);
    if t.Some? && CanWrite(s, requesting, t.value) then Some(RowOf(t.value)) else None
  }

  function SavedItem(requesting: string, key: string, data: string, now: nat): Item
    requires ParseKey(requesting, key).Some?
  {
    var t := ParseKey(requesting, key).value;
    DocumentItem(Document(t.id, t.namespace, t.collection, data, now))
  }

  /** The store after saving a map: every row some key writes holds the data of one of the keys that write it, and all
      the others are as before. */
  ghost predicate Saves(s: Store, requesting: string, docs: map<string, string>, now: nat, s': Store) {
    && (forall key :: key in docs && WrittenRow(s, requesting, key).Some? ==>
          SavedRow(s, requesting, docs, now, WrittenRow(s, requesting, key).value, s'))
    && (forall k :: (forall key :: key in docs ==> WrittenRow(s, requesting, key) != Some(k)) ==> At(s', k) == At(s, k))
  }

  ghost predicate SavedRow(s: Store, requesting: string, docs: map<string, string>, now: nat, k: Key, s': Store) {
    exists key :: key in docs && WrittenRow(s, requesting, key) == Some(k)
                  && At(s', k) == Some(SavedItem(requesting, key, docs[key], now))
  }

  method SaveDocuments(store: ProxyStore, requesting: string, docs: map<string, string>, now: nat)
    requires WellKept(store.View())
    modifies store.storage
    ensures Saves(old(store.View()), requesting, docs, now, store.View())
  {
    ghost var s := store.View();
    var rest := docs.Keys;
    while rest != {}
      invariant rest <= docs.Keys
      invariant SavedSoFar(s, requesting, docs, docs.Keys - rest, now, store.View())
      decreases rest
    {
      var key :| key in rest;
      ghost var before, saved := store.View(), docs.Keys - rest;
      SaveOne(store, requesting, key, docs[key], now, s);
      SavedOneMore(s, requesting, docs, saved, key, now, before, store.View());
      rest := rest - {key};
      assert docs.Keys - rest == saved + {key};
    }
    assert docs.Keys - rest == docs.Keys;
  }

  /** The rows outside the documents table are as in `s`, and of the documents those keys have been saved. */
  ghost predicate SavedSoFar(s: Store, requesting: string, docs: map<string, string>, saved: set<string>, now: nat, s': Store)
    requires saved <= docs.Keys
  {
    && (forall k: Key :: k.table != Table.Documents ==> At(s', k) == At(s, k))
    && (forall key :: key in saved && WrittenRow(s, requesting, key).Some? ==>
          SavedRow(s, requesting, docs, now, WrittenRow(s, requesting, key).value, s'))
    && (forall k :: (forall key :: key in saved ==> WrittenRow(s, requesting, key) != Some(k)) ==> At(s', k) == At(s, k))
  }

  /** The parsing branches for one key. */
  method FindTarget(requesting: string, key: string) returns (t: Option<Target>)
    ensures t == ParseKey(requesting, key)
  {
    var parts := SplitOnce(key, ':');
    if parts.None? {
      return None;
    }
    if '/' in key {
      var scope := SplitOnce(parts.value.0, '/');
      if scope.None? {
        return None;
      }
      return Some(Target(scope.value.0, scope.value.1, parts.value.1));
    }
    t := Some(Target(requesting, parts.value.0, parts.value.1));
  }

  lemma CollectionRowKind(s: Store, k: Key)
    requires WellKept(s) && k.table == Collections
    ensures k in s ==> s[k].CollectionItem?
  {
    assert k in s ==> KeyOf(s[k]) == k;
  }

  method MayWrite(store: ProxyStore, requesting: string, t: Target, ghost s: Store) returns (can: bool)
    requires WellKept(s) && forall k: Key :: k.table != Table.Documents ==> At(store.View(), k) == At(s, k)
    ensures can == CanWrite(s, requesting, t)
  {
    var row := Key(Collections, ScopedKey(t.namespace, t.collection));
    assert At(store.View(), row) == At(s, row);
    CollectionRowKind(s, row);
    var col := store.GetItem(row);
    can := if col.Some? then col.value.collection.IsAccessibleFrom(requesting) else t.namespace == requesting;
  }

  /** One turn of the loop; saving documents never changes which collections are stored. */
  method SaveOne(store: ProxyStore, requesting: string, key: string, data: string, now: nat, ghost s: Store)
    requires WellKept(s) && forall k: Key :: k.table != Table.Documents ==> At(store.View(), k) == At(s, k)
    modifies store.storage
    ensures store.View() ==
            match WrittenRow(s, requesting, key)
            case None => old(store.View())
            case Some(k) => old(store.View())[k := SavedItem(requesting, key, data, now)]
  {
    var target := FindTarget(requesting, key);
    if target.None? {
      return;
    }
    var t := target.value;
    var canWrite := MayWrite(store, requesting, t, s);
    if canWrite {
      store.SetItem(DocumentItem(Document(t.id, t.namespace, t.collection, data, now)));
    }
  }

  lemma SavedOneMore(s: Store, requesting: string, docs: map<string, string>, saved: set<string>, key: string, now: nat,
                     before: Store, after: Store)
    requires saved <= docs.Keys && key in docs && SavedSoFar(s, requesting, docs, saved, now, before)
    requires after == match WrittenRow(s, requesting, key)
                      case None => before
                      case Some(k) => before[k := SavedItem(requesting, key, docs[key], now)]
    ensures SavedSoFar(s, requesting, docs, saved + {key}, now, after)
  {
    var row := WrittenRow(s, requesting, key);
    forall other | other in saved + {key} && WrittenRow(s, requesting, other).Some?
      ensures SavedRow(s, requesting, docs, now, WrittenRow(s, requesting, other).value, after)
    {
      var k := WrittenRow(s, requesting, other).value;
      if row == Some(k) {
        assert At(after, k) == Some(SavedItem(requesting, key, docs[key], now));
      } else {
        assert other in saved;
        var w :| w in docs && WrittenRow(s, requesting, w) == Some(k)
                 && At(before, k) == Some(SavedItem(requesting, w, docs[w], now));
        assert At(after, k) == At(before, k);
      }
    }
    forall k | forall x :: x in saved + {key} ==> WrittenRow(s, requesting, x) != Some(k)
      ensures At(after, k) == At(s, k)
    {
      assert key in saved + {key};
      assert forall x :: x in saved ==> x in saved + {key};
    }
  }

  // ----- the round trip -----

  /** Names that keys can carry: no separator in namespaces and collections, no slash in the ids of the
      requesting namespace's own documents. */
  ghost predicate Tidy(s: Store, requesting: string) {
    && ColonFree(requesting)
    && (forall c :: IsCollection(s, c) ==>
          ':' !in c.namespace && '/' !in c.namespace && ':' !in c.name && '/' !in c.name)
    && (forall k :: k in s && s[k].DocumentItem? ==>
          && ':' !in s[k].document.namespace && ':' !in s[k].document.collection
          && (s[k].document.namespace == requesting ==> '/' !in s[k].document.id))
  }

  /** The document is in a stored collection that is accessible. */
  ghost predicate Accessible(s: Store, requesting: string, k: Key, d: Document) {
    && k in s && s[k] == DocumentItem(d)
    && exists c :: IsCollection(s, c) && c.IsAccessibleFrom(requesting) && c.namespace == d.namespace && c.name == d.collection
  }

  /** With tidy names, what is listed with a collection belongs to it, and its key leads back to its row. */
  lemma OfferedLeadsBack(s: Store, requesting: string, c: Collection, d: Document, key: string)
    requires WellKept(s) && Tidy(s, requesting) && Offers(s, requesting, c, d, key)
    ensures d.namespace == c.namespace && d.collection == c.name
    ensures ParseKey(requesting, key) == Some(Target(d.namespace, d.collection, d.id))
    ensures WrittenRow(s, requesting, key) == Some(KeyOf(DocumentItem(d))) && At(s, KeyOf(DocumentItem(d))) == Some(DocumentItem(d))
  {
    var k :| k in s && k.table == Table.Documents && StartsWith(k.name, c.namespace + ":" + c.name + ":") && s[k] == DocumentItem(d);
    assert k == KeyOf(DocumentItem(d));
    DocumentPrefixIff(c.namespace, c.name, d.namespace, d.collection, d.id);
    if c.namespace == requesting {
      LocalKeyIff(requesting, c.name, d.id);
    } else {
      CrossKeyIff(requesting, c.namespace, c.name, d.id);
    }
    CollectionRow(s, c);
  }

  lemma CollectionRow(s: Store, c: Collection)
    requires WellKept(s) && IsCollection(s, c)
    ensures At(s, Key(Collections, ScopedKey(c.namespace, c.name))) == Some(CollectionItem(c))
  {
    var k :| k in s && k.table == Collections && s[k] == CollectionItem(c);
    assert KeyOf(s[k]) == k;
  }

  /** One key of the map that was read stands for one document with that data. */
  lemma ReadKeyIsDocument(s: Store, requesting: string, docs: map<string, string>, key: string) returns (d: Document)
    requires WellKept(s) && Tidy(s, requesting) && Reads(s, requesting, docs) && key in docs
    ensures d.data == docs[key] && WrittenRow(s, requesting, key) == Some(KeyOf(DocumentItem(d)))
    ensures ParseKey(requesting, key) == Some(Target(d.namespace, d.collection, d.id))
    ensures Accessible(s, requesting, KeyOf(DocumentItem(d)), d)
  {
    var c, found :| Offers(s, requesting, c, found, key) && docs[key] == found.data;
    d := found;
    OfferedLeadsBack(s, requesting, c, d, key);
  }

  /** Round trip: saving the map that was read, unchanged and in any order, writes every accessible document back
      to its own row with the same data and touches no other row. */
  lemma RoundTrip(s: Store, requesting: string, docs: map<string, string>, now: nat, s': Store, k: Key)
    requires WellKept(s) && Tidy(s, requesting)
    requires Reads(s, requesting, docs) && Saves(s, requesting, docs, now, s')
    ensures if exists d :: Accessible(s, requesting, k, d)
            then k in s' && s'[k] == DocumentItem(s[k].document.(updatedAt := now))
            else At(s', k) == At(s, k)
  {
    if d :| Accessible(s, requesting, k, d) {
      AccessibleSaved(s, requesting, docs, now, s', k, d);
    } else {
      forall key | key in docs ensures WrittenRow(s, requesting, key) != Some(k) {
        var d := ReadKeyIsDocument(s, requesting, docs, key);
        assert Accessible(s, requesting, KeyOf(DocumentItem(d)), d);
      }
    }
  }

  lemma AccessibleSaved(s: Store, requesting: string, docs: map<string, string>, now: nat, s': Store, k: Key, d: Document)
    requires WellKept(s) && Tidy(s, requesting) && Accessible(s, requesting, k, d)
    requires Reads(s, requesting, docs) && Saves(s, requesting, docs, now, s')
    ensures At(s', k) == Some(DocumentItem(d.(updatedAt := now)))
  {
    var c :| IsCollection(s, c) && c.IsAccessibleFrom(requesting) && c.namespace == d.namespace && c.name == d.collection;
    var key := KeyFor(requesting, c, d.id);
    assert k == KeyOf(DocumentItem(d));
    DocumentPrefixIff(c.namespace, c.name, d.namespace, d.collection, d.id);
    assert Offers(s, requesting, c, d, key);
    OfferedLeadsBack(s, requesting, c, d, key);
    assert SavedRow(s, requesting, docs, now, k, s');
    var w :| w in docs && WrittenRow(s, requesting, w) == Some(k)
             && At(s', k) == Some(SavedItem(requesting, w, docs[w], now));
    var e := ReadKeyIsDocument(s, requesting, docs, w);
    assert s[k] == DocumentItem(e) && s[k] == DocumentItem(d);
  }

  /** Whatever map a module returns, documents of another namespace change only in stored collections that are
      accessible to it. */
  lemma PrivateUntouched(s: Store, requesting: string, docs: map<string, string>, now: nat, s': Store,
                         ns: string, col: string, id: string)
    requires WellKept(s) && Saves(s, requesting, docs, now, s')
    requires ColonFree(requesting) && ColonFree(ns) && ColonFree(col) && ns != requesting
    requires var c := At(s, Key(Collections, ScopedKey(ns, col)));
             c.None? || (c.value.CollectionItem? && !c.value.collection.IsAccessibleFrom(requesting))
    ensures At(s', RowOf(Target(ns, col, id))) == At(s, RowOf(Target(ns, col, id)))
  {
    forall key | key in docs ensures WrittenRow(s, requesting, key) != Some(RowOf(Target(ns, col, id))) {
      if WrittenRow(s, requesting, key) == Some(RowOf(Target(ns, col, id))) {
        ParsedColonFree(requesting, key);
        var t := ParseKey(requesting, key).value;
        DocumentKeyInjective(t.namespace, t.collection, t.id, ns, col, id);
      }
    }
  }

  lemma ParsedColonFree(requesting: string, key: string)
    requires ColonFree(requesting) && ParseKey(requesting, key).Some?
    ensures ColonFree(ParseKey(requesting, key).value.namespace) && ColonFree(ParseKey(requesting, key).value.collection)
  {
    SplitParts(key, ':');
    var p := SplitOnce(key, ':').value;
    if '/' in key {
      SplitParts(p.0, '/');
    }
  }

  // ----- who sees and writes what, row by row -----

  /** A stored collection is open to the module: it is public, or of the module's own namespace. */
  ghost predicate OpenTo(s: Store, requesting: string, ns: string, col: string) {
    var row := At(s, Key(Collections, ns + ":" + col));
    row.Some? && row.value.CollectionItem? && (row.value.collection.visibility == Public || ns == requesting)
  }

  lemma OpenIff(s: Store, requesting: string, c: Collection)
    requires WellKept(s) && Tidy(s, requesting) && IsCollection(s, c)
    ensures c.IsAccessibleFrom(requesting) <==> OpenTo(s, requesting, c.namespace, c.name)
  {
    CollectionRow(s, c);
  }

  /** With tidy names a module sees exactly the stored documents of open collections, each under its short key if it is
      of the own namespace and under its full one if not, with its data. */
  lemma SeenIff(s: Store, requesting: string, docs: map<string, string>, ns: string, col: string, id: string)
    requires WellKept(s) && Tidy(s, requesting) && Reads(s, requesting, docs)
    requires ':' !in ns && '/' !in ns && ':' !in col && '/' !in col && (ns == requesting ==> '/' !in id)
    ensures var key, row := if ns == requesting then col + ":" + id else ns + "/" + col + ":" + id,
                            At(s, Key(Table.Documents, ns + ":" + col + ":" + id));
            && (key in docs <==> OpenTo(s, requesting, ns, col) && row.Some?)
            && (key in docs ==> row.value.DocumentItem? && docs[key] == row.value.document.data)
  {
    var key := if ns == requesting then LocalKey(col, id) else CrossKey(ns, col, id);
    if ns == requesting {
      LocalKeyIff(requesting, col, id);
    } else {
      CrossKeyIff(requesting, ns, col, id);
    }
    if key in docs {
      SeenIsStored(s, requesting, docs, key, ns, col, id);
    }
    if OpenTo(s, requesting, ns, col) && At(s, RowOf(Target(ns, col, id))).Some? {
      StoredIsSeen(s, requesting, docs, ns, col, id);
    }
  }

  lemma SeenIsStored(s: Store, requesting: string, docs: map<string, string>, key: string, ns: string, col: string, id: string)
    requires WellKept(s) && Tidy(s, requesting) && Reads(s, requesting, docs) && key in docs
    requires ParseKey(requesting, key) == Some(Target(ns, col, id))
    ensures OpenTo(s, requesting, ns, col)
    ensures var row := At(s, Key(Table.Documents, ns + ":" + col + ":" + id));
            row.Some? && row.value.DocumentItem? && docs[key] == row.value.document.data
  {
    var d := ReadKeyIsDocument(s, requesting, docs, key);
    var c :| IsCollection(s, c) && c.IsAccessibleFrom(requesting) && c.namespace == d.namespace && c.name == d.collection;
    OpenIff(s, requesting, c);
    assert KeyOf(DocumentItem(d)) == Key(Table.Documents, DocumentKey(ns, col, id));
  }

  lemma StoredIsSeen(s: Store, requesting: string, docs: map<string, string>, ns: string, col: string, id: string)
    requires WellKept(s) && Tidy(s, requesting) && Reads(s, requesting, docs) && OpenTo(s, requesting, ns, col)
    requires ColonFree(ns) && ColonFree(col) && At(s, RowOf(Target(ns, col, id))).Some?
    ensures (if ns == requesting then LocalKey(col, id) else CrossKey(ns, col, id)) in docs
  {
    var ck, dk := Key(Collections, ScopedKey(ns, col)), RowOf(Target(ns, col, id));
    assert KeyOf(s[ck]) == ck && KeyOf(s[dk]) == dk;
    var c, d := s[ck].collection, s[dk].document;
    assert IsCollection(s, c);
    ScopedKeyInjective(ns, col, c.namespace, c.name);
    DocumentKeyInjective(ns, col, id, d.namespace, d.collection, d.id);
    DocumentPrefixIff(ns, col, ns, col, id);
    OpenIff(s, requesting, c);
    assert Offers(s, requesting, c, d, KeyFor(requesting, c, id));
  }

  /** A key writes the row it names if and only if the collection is stored and open, or is not stored and of the
      module's own namespace. */
  lemma WrittenIff(s: Store, requesting: string, key: string, ns: string, col: string, id: string)
    requires WellKept(s) && Tidy(s, requesting) && ColonFree(ns) && ColonFree(col)
    requires ParseKey(requesting, key) == Some(Target(ns, col, id))
    ensures WrittenRow(s, requesting, key) ==
            if OpenTo(s, requesting, ns, col) || (ns == requesting && Key(Collections, ns + ":" + col) !in s)
            then Some(Key(Table.Documents, ns + ":" + col + ":" + id)) else None
  {
    var k := Key(Collections, ScopedKey(ns, col));
    if k in s {
      assert KeyOf(s[k]) == k;
      var c := s[k].collection;
      assert IsCollection(s, c);
      ScopedKeyInjective(ns, col, c.namespace, c.name);
    }
  }

  /** So a module may create documents of a collection of its own namespace that is not stored. */
  lemma OwnDocumentCreated(s: Store, requesting: string, col: string, id: string, data: string, now: nat, s': Store)
    requires WellKept(s) && Tidy(s, requesting) && Key(Collections, requesting + ":" + col) !in s
    requires ':' !in col && '/' !in col && '/' !in id && Saves(s, requesting, map[col + ":" + id := data], now, s')
    ensures At(s', Key(Table.Documents, requesting + ":" + col + ":" + id)) ==
            Some(DocumentItem(Document(id, requesting, col, data, now)))
  {
    var key, docs := col + ":" + id, map[col + ":" + id := data];
    LocalKeyIff(requesting, col, id);
    WrittenIff(s, requesting, key, requesting, col, id);
    assert SavedRow(s, requesting, docs, now, Key(Table.Documents, requesting + ":" + col + ":" + id), s');
  }
}
