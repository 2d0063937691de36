/** The key-value storage and the typed store over it (src/storage/mod.rs). */
module Storage {
  import opened Resources

  predicate StartsWith(s: string, prefix: string) {
    prefix <= s
  }

  predicate ColonFree(s: string) {
    ':' !in s
  }

  // ----- keys -----

  lemma FirstColon(a: string, x: string, b: string, y: string)
    requires ColonFree(a) && ColonFree(b) && a + ":" + x == b + ":" + y
    ensures a == b && x == y
  {
    var s, t := a + ":" + x, b + ":" + y;
    assert s[|a|] == ':' && t[|b|] == ':';
    assert forall i :: 0 <= i < |a| ==> s[i] == a[i] && a[i] in a;
    assert forall i :: 0 <= i < |b| ==> t[i] == b[i] && b[i] in b;
    assert |a| == |b|;
    assert a == s[..|a|] == t[..|a|] == b;
    assert x == s[|a| + 1..] == t[|a| + 1..] == y;
  }

  /** Scoped keys of colon-free namespaces are injective. */
  lemma ScopedKeyInjective(ns: string, name: string, ns': string, name': string)
    requires ColonFree(ns) && ColonFree(ns') && ScopedKey(ns, name) == ScopedKey(ns', name')
    ensures ns == ns' && name == name'
  {
    FirstColon(ns, name, ns', name');
  }

  /** Listing by the prefix of a colon-free namespace finds the keys of that namespace and no others. */
  lemma ScopedPrefixIff(ns: string, ns': string, name: string)
    requires ColonFree(ns) && ColonFree(ns')
    ensures StartsWith(ScopedKey(ns', name), ns + ":") <==> ns == ns'
  {
    var key := ScopedKey(ns', name);
    if StartsWith(key, ns + ":") {
      assert key == ns + ":" + key[|ns| + 1..];
      FirstColon(ns, key[|ns| + 1..], ns', name);
    }
  }

  /** One name continues the other with a colon. */
  predicate Extends(ns: string, ns': string) {
    ns + ":" <= ns' || ns' + ":" <= ns
  }

  /** The listing of one namespace can return a resource of another exactly when one of the two names continues
      the other with a colon. */
  lemma ColonLeaks(ns: string, ns': string)
    requires ns != ns'
    ensures (exists name :: StartsWith(ScopedKey(ns', name), ns + ":")) <==> Extends(ns, ns')
  {
    if name :| StartsWith(ScopedKey(ns', name), ns + ":") {
      OneExtends(ns, ns', name);
    }
    if ns + ":" <= ns' {
      assert ScopedKey(ns', "")[..|ns| + 1] == ns'[..|ns| + 1];
      assert StartsWith(ScopedKey(ns', ""), ns + ":");
    } else if ns' + ":" <= ns {
      var name := ns[|ns'| + 1..] + ":";
      assert ScopedKey(ns', name) == ns + ":";
      assert StartsWith(ScopedKey(ns', name), ns + ":");
    }
  }

  lemma OneExtends(ns: string, ns': string, name: string)
    requires ns != ns' && StartsWith(ScopedKey(ns', name), ns + ":")
    ensures Extends(ns, ns')
  {
    var key := ScopedKey(ns', name);
    assert key[..|ns| + 1] == ns + ":";
    assert key[..|ns|] == ns && key[..|ns'|] == ns';
    if |ns| < |ns'| {
      assert ns'[..|ns| + 1] == key[..|ns| + 1];
    } else if |ns'| < |ns| {
      assert (ns + ":")[..|ns'| + 1] == key[..|ns'| + 1] == ns' + ":";
      assert ns[..|ns'| + 1] == (ns + ":")[..|ns'| + 1];
    }
  }

  /** Resources of two namespaces can share a key under the same condition. */
  lemma KeysMeet(ns: string, ns': string)
    requires ns != ns'
    ensures (exists name, name' :: ScopedKey(ns, name) == ScopedKey(ns', name')) <==> Extends(ns, ns')
  {
    if name, name' :| ScopedKey(ns, name) == ScopedKey(ns', name') {
      assert ScopedKey(ns, name)[..|ns| + 1] == ns + ":";
      OneExtends(ns, ns', name');
    }
    if Extends(ns, ns') {
      ColonLeaks(ns, ns');
      var name' :| StartsWith(ScopedKey(ns', name'), ns + ":");
      var key := ScopedKey(ns', name');
      assert key == ScopedKey(ns, key[|ns| + 1..]);
    }
  }

  /** Documents of two collections can share a key exactly when their joined names are equal or one continues the
      other with a colon. */
  lemma DocumentKeysMeet(ns: string, col: string, ns': string, col': string)
    ensures (exists id, id' :: DocumentKey(ns, col, id) == DocumentKey(ns', col', id')) <==>
            ScopedKey(ns, col) == ScopedKey(ns', col') || Extends(ScopedKey(ns, col), ScopedKey(ns', col'))
  {
    var p, p' := ScopedKey(ns, col), ScopedKey(ns', col');
    assert forall id :: DocumentKey(ns, col, id) == ScopedKey(p, id);
    assert forall id :: DocumentKey(ns', col', id) == ScopedKey(p', id);
    if p == p' {
      assert DocumentKey(ns, col, "") == DocumentKey(ns', col', "");
    } else {
      KeysMeet(p, p');
      if id, id' :| DocumentKey(ns, col, id) == DocumentKey(ns', col', id') {
        assert ScopedKey(p, id) == ScopedKey(p', id');
      }
      if id, id' :| ScopedKey(p, id) == ScopedKey(p', id') {
        assert DocumentKey(ns, col, id) == DocumentKey(ns', col', id');
      }
    }
  }

  /** Document keys of colon-free namespaces and collections are injective, whatever the ids. */
  lemma DocumentKeyInjective(ns: string, col: string, id: string, ns': string, col': string, id': string)
    requires ColonFree(ns) && ColonFree(ns') && ColonFree(col) && ColonFree(col')
    requires DocumentKey(ns, col, id) == DocumentKey(ns', col', id')
    ensures ns == ns' && col == col' && id == id'
  {
    assert DocumentKey(ns, col, id) == ns + ":" + (col + ":" + id);
    assert DocumentKey(ns', col', id') == ns' + ":" + (col' + ":" + id');
    FirstColon(ns, col + ":" + id, ns', col' + ":" + id');
    FirstColon(col, id, col', id');
  }

  lemma DocumentPrefixIff(ns: string, col: string, ns': string, col': string, id: string)
    requires ColonFree(ns) && ColonFree(ns') && ColonFree(col) && ColonFree(col')
    ensures StartsWith(DocumentKey(ns', col', id), ns + ":" + col + ":") <==> ns == ns' && col == col'
  {
    var key := DocumentKey(ns', col', id);
    if StartsWith(key, ns + ":" + col + ":") {
      var rest := key[|ns + ":" + col + ":"|..];
      assert key == DocumentKey(ns, col, rest);
      DocumentKeyInjective(ns, col, rest, ns', col', id);
    }
  }

  // ----- the in-memory tables -----

  /** The nested tables read as one flat map. */
  function Flat<V>(tables: map<Table, map<string, V>>): map<Key, V> {
    map k | k in FlatKeys(tables) :: tables[k.table][k.name]
  }

  function FlatKeys<V>(tables: map<Table, map<string, V>>): (ks: set<Key>)
    ensures forall k :: k in ks <==> k.table in tables && k.name in tables[k.table]
  {
    set t, name | t in tables && name in tables[t] :: Key(t, name)
  }

  lemma FlatPut<V>(tables: map<Table, map<string, V>>, t: Table, rows: map<string, V>, name: string, v: V)
    requires rows == if t in tables then tables[t] else map[]
    ensures Flat(tables[t := rows[name := v]]) == Flat(tables)[Key(t, name) := v]
  {
    var l, r := Flat(tables[t := rows[name := v]]), Flat(tables)[Key(t, name) := v];
    forall k ensures (k in l <==> k in r) && (k in l ==> l[k] == r[k]) {
      assert k == Key(t, name) <==> k.table == t && k.name == name;
    }
  }

  lemma FlatCut<V>(tables: map<Table, map<string, V>>, t: Table, name: string)
    ensures if t in tables then Flat(tables[t := tables[t] - {name}]) == Flat(tables) - {Key(t, name)}
            else Flat(tables) - {Key(t, name)} == Flat(tables)
  {
    if t in tables {
      var l, r := Flat(tables[t := tables[t] - {name}]), Flat(tables) - {Key(t, name)};
      forall k ensures (k in l <==> k in r) && (k in l ==> l[k] == r[k]) {
        assert k == Key(t, name) <==> k.table == t && k.name == name;
      }
    } else {
      assert Key(t, name) !in Flat(tables);
    }
  }

  /** What a listing may return: the rows of the table under the prefix, each once, in any order. */
  ghost predicate IsListing<V>(rows: seq<(string, V)>, view: map<Key, V>, table: Table, prefix: string) {
    && (forall i, j :: 0 <= i < j < |rows| ==> rows[i].0 != rows[j].0)
    && (forall r :: r in rows ==> StartsWith(r.0, prefix) && Key(table, r.0) in view && view[Key(table, r.0)] == r.1)
    && (forall k :: k in view && k.table == table && StartsWith(k.name, prefix) ==> (k.name, view[k]) in rows)
  }

  class MemoryStorage<V> {
    var tables: map<Table, map<string, V>>

    function View(): map<Key, V>
      reads this
    {
      Flat(tables)
    }

    constructor ()
      ensures View() == map[]
    {
      tables := map[];
    }

    method Get(table: Table, key: string) returns (r: Option<V>)
      ensures r == if Key(table, key) in View() then Some(View()[Key(table, key)]) else None
    {
      if table in tables {
        r := if key in tables[table] then Some(tables[table][key]) else None;
      } else {
        r := None;
      }
    }

    method Set(table: Table, key: string, value: V)
      modifies this
      ensures View() == old(View())[Key(table, key) := value]
    {
      var rows := if table in tables then tables[table] else map[];
      FlatPut(tables, table, rows, key, value);
      tables := tables[table := rows[key := value]];
    }

    method Delete(table: Table, key: string)
      modifies this
      ensures View() == old(View()) - {Key(table, key)}
    {
      FlatCut(tables, table, key);
      if table in tables {
        tables := tables[table := tables[table] - {key}];
      }
    }

    method List(table: Table, prefix: string) returns (rows: seq<(string, V)>)
      ensures IsListing(rows, View(), table, prefix)
    {
      rows := [];
      if table in tables {
        var rest := tables[table].Keys;
        while rest != {}
          invariant rest <= tables[table].Keys
          invariant forall i, j :: 0 <= i < j < |rows| ==> rows[i].0 != rows[j].0
          invariant forall r :: r in rows ==>
            r.0 in tables[table] && r.0 !in rest && StartsWith(r.0, prefix) && tables[table][r.0] == r.1
          invariant forall name :: name in tables[table] && name !in rest && StartsWith(name, prefix) ==>
            (name, tables[table][name]) in rows
          decreases rest
        {
          var name :| name in rest;
          rest := rest - {name};
          if StartsWith(name, prefix) {
            rows := rows + [(name, tables[table][name])];
          }
        }
      }
    }

    method Clear(table: Table)
      modifies this
      ensures forall k :: k in View() <==> k in old(View()) && k.table != table
      ensures forall k :: k in View() ==> View()[k] == old(View())[k]
    {
      if table in tables {
        tables := tables[table := map[]];
      }
    }
  }

  /** The typed store: every setter writes a resource to the row its own names give it. */
  class ProxyStore {
    const storage: MemoryStorage<Item>

    function View(): Store
      reads storage
    {
      storage.View()
    }

    constructor ()
      ensures View() == map[] && fresh(storage)
    {
      storage := new MemoryStorage<Item>();
    }

    method SetItem(item: Item)
      requires item != Malformed
      modifies storage
      ensures View() == old(View())[KeyOf(item) := item]
    {
      var k := KeyOf(item);
      storage.Set(k.table, k.name, item);
    }

    method GetItem(k: Key) returns (item: Option<Item>)
      ensures item == if k in View() then Some(View()[k]) else None
    {
      item := storage.Get(k.table, k.name);
    }

    method DeleteScoped(table: Table, namespace: string, name: string)
      modifies storage
      ensures View() == old(View()) - {Key(table, ScopedKey(namespace, name))}
    {
      storage.Delete(table, ScopedKey(namespace, name));
    }

    method AddIf(fits: bool, item: Item) returns (ok: bool)
      requires fits ==> item != Malformed
      modifies storage
      ensures ok == fits
      ensures View() == if fits then old(View())[KeyOf(item) := item] else old(View())
    {
      if fits {
        SetItem(item);
      }
      ok := fits;
    }

    /** The command dispatch shared by the Raft state machine and Tempo: deserialize, then write or delete. */
    method ApplyChangelog(cl: ChangeLog) returns (ok: bool)
      modifies storage
      ensures View() == Apply(old(View()), cl)
      ensures ok == Effect(cl).Some?
    {
      ok := true;
      match cl.cmd
      case AddNamespace => ok := AddIf(cl.item.NamespaceItem?, cl.item);
      case DeleteNamespace => storage.Delete(Namespaces, cl.name);
      case AddRoute => ok := AddIf(cl.item.RouteItem?, cl.item);
      case DeleteRoute => DeleteScoped(Routes, cl.namespace, cl.name);
      case AddService => ok := AddIf(cl.item.ServiceItem?, cl.item);
      case DeleteService => DeleteScoped(Services, cl.namespace, cl.name);
      case AddModule => ok := AddIf(cl.item.ModuleItem?, cl.item);
      case DeleteModule => DeleteScoped(Modules, cl.namespace, cl.name);
      case AddDomain => ok := AddIf(cl.item.DomainItem?, cl.item);
      case DeleteDomain => DeleteScoped(Domains, cl.namespace, cl.name);
      case AddSecret => ok := AddIf(cl.item.SecretItem?, cl.item);
      case DeleteSecret => DeleteScoped(Secrets, cl.namespace, cl.name);
      case AddCollection => ok := AddIf(cl.item.CollectionItem?, cl.item);
      case DeleteCollection => DeleteScoped(Collections, cl.namespace, cl.name);
      case AddDocument => ok := AddIf(cl.item.DocumentItem?, cl.item);
      case DeleteDocument =>
        if cl.item.DocumentItem? {
          storage.Delete(Documents, DocumentKey(cl.namespace, cl.item.document.collection, cl.name));
        } else {
          ok := false;
        }
    }
  }
}
