/** The standalone proxy state (src/proxy/mod.rs): each changelog is written to the store, and the cached
    routers and the module executor are brought up to date with it at once. */
module Proxy {
  import opened Resources
  import opened Replay
  import opened Storage
  import opened RegularExpressions
  import opened PathPattern
  import opened Modules
  import opened Routing

  datatype Index = Index(store: Store, routers: map<string, Router>, executor: map<string, CompiledModule>)

  // ----- one changelog -----

  predicate Undecodable(cl: ChangeLog) {
    cl.cmd.AddModule? && cl.item.ModuleItem? && cl.item.mod.payload.None?
  }

  /** The executor's own update; a module whose payload does not decode leaves it alone. */
  function ExecutorStep(e: map<string, CompiledModule>, cl: ChangeLog): map<string, CompiledModule> {
    if cl.cmd.AddModule? && cl.item.ModuleItem? && cl.item.mod.payload.Some? then
      var m := cl.item.mod;
      e[ScopedKey(m.namespace, m.name) := CompiledOf(m).value]
    else if cl.cmd.DeleteModule? then e - {ScopedKey(cl.namespace, cl.name)}
    else e
  }

  /** The router of the changelog's namespace is rebuilt: the item was accepted and the namespace exists. */
  predicate Rebuilt(s: Store, cl: ChangeLog) {
    Rebuilds(cl.cmd) && Effect(cl).Some? && !Undecodable(cl) && Key(Namespaces, cl.namespace) in s
  }

  /** What becomes of the routers once the store is `s`. The order of a rebuilt router's routes is the listing's. */
  ghost predicate Rerouted(s: Store, routers: map<string, Router>, cl: ChangeLog, routers': map<string, Router>) {
    if cl.cmd.DeleteNamespace? then routers' == routers - {cl.name}
    else if Rebuilt(s, cl) then
      && cl.namespace in routers' && routers' == routers[cl.namespace := routers'[cl.namespace]]
      && Agrees(s, cl.namespace, routers'[cl.namespace])
    else routers' == routers
  }

  /** What processing a changelog does to the index. */
  ghost predicate Processed(a: Index, cl: ChangeLog, b: Index) {
    && b.store == Apply(a.store, cl)
    && b.executor == ExecutorStep(a.executor, cl)
    && Rerouted(b.store, a.routers, cl, b.routers)
  }

  /** The call succeeds. */
  predicate Succeeds(s: Store, cl: ChangeLog) {
    Effect(cl).Some? && (Rebuilds(cl.cmd) ==> Rebuilt(s, cl))
  }

  // ----- coherence -----

  /** Every cached router belongs to a stored namespace and is the one compiled from the store. */
  ghost predicate RoutersOk(s: Store, routers: map<string, Router>) {
    forall name :: name in routers ==>
      Key(Namespaces, name) in s && ColonFree(name) && Agrees(s, name, routers[name])
  }

  /** The executor holds exactly the stored modules, compiled. */
  ghost predicate ExecutorOk(s: Store, e: map<string, CompiledModule>) {
    && (forall key :: key in e <==> Key(Table.Modules, key) in s)
    && (forall key :: key in e ==>
          var item := s[Key(Table.Modules, key)];
          item.ModuleItem? && CompiledOf(item.mod) == Some(e[key]))
  }

  ghost predicate Coherent(x: Index) {
    WellKept(x.store) && RoutersOk(x.store, x.routers) && ExecutorOk(x.store, x.executor)
  }

  /** The routers stay right through every well-formed changelog, accepted or refused, except a module whose
      payload does not decode: it is stored, but its namespace is not rebuilt. */
  lemma {:induction false} RoutersStep(a: Index, cl: ChangeLog, b: Index)
    requires WellKept(a.store) && RoutersOk(a.store, a.routers) && Processed(a, cl, b)
    requires WellFormed(cl) && !Undecodable(cl)
    ensures WellKept(b.store) && RoutersOk(b.store, b.routers)
  {
    WellKeptStep(a.store, cl);
    forall name | name in b.routers
      ensures Key(Namespaces, name) in b.store && ColonFree(name) && Agrees(b.store, name, b.routers[name])
    {
      if !(Rebuilt(b.store, cl) && name == cl.namespace) {
        assert name in a.routers && b.routers[name] == a.routers[name];
        NamespaceStays(a, cl, b, name);
        if Rebuilds(cl.cmd) && name == cl.namespace {
          assert Effect(cl).None?;
        } else {
          OtherNamespaces(a.store, cl, name);
        }
        AgreesFrame(a.store, b.store, name, a.routers[name]);
      }
    }
  }

  lemma NamespaceStays(a: Index, cl: ChangeLog, b: Index, name: string)
    requires Processed(a, cl, b) && Key(Namespaces, name) in a.store
    requires cl.cmd.DeleteNamespace? ==> name != cl.name
    ensures Key(Namespaces, name) in b.store
  {
  }

  /** The executor keeps up with the stored modules under the same condition. */
  lemma ExecutorKeepsUp(s: Store, e: map<string, CompiledModule>, cl: ChangeLog)
    requires ExecutorOk(s, e) && !Undecodable(cl)
    ensures ExecutorOk(Apply(s, cl), ExecutorStep(e, cl))
  {
    var s', e' := Apply(s, cl), ExecutorStep(e, cl);
    forall key
      ensures key in e' <==> Key(Table.Modules, key) in s'
      ensures key in e' ==> s'[Key(Table.Modules, key)].ModuleItem? && CompiledOf(s'[Key(Table.Modules, key)].mod) == Some(e'[key])
    {
      ExecutorRow(s, e, cl, key);
    }
  }

  lemma ExecutorRow(s: Store, e: map<string, CompiledModule>, cl: ChangeLog, key: string)
    requires ExecutorOk(s, e) && !Undecodable(cl)
    ensures var s', e', k := Apply(s, cl), ExecutorStep(e, cl), Key(Table.Modules, key);
            && (key in e' <==> k in s')
            && (key in e' ==> s'[k].ModuleItem? && CompiledOf(s'[k].mod) == Some(e'[key]))
  {
  }

  /** A changelog keeps the whole index coherent if and only if it does not add a module whose payload does
      not decode. */
  lemma {:induction false} CoherentIff(a: Index, cl: ChangeLog, b: Index)
    requires Coherent(a) && WellFormed(cl) && Processed(a, cl, b)
    ensures Coherent(b) <==> !Undecodable(cl)
  {
    if !Undecodable(cl) {
      RoutersStep(a, cl, b);
      ExecutorKeepsUp(a.store, a.executor, cl);
    } else {
      var m := cl.item.mod;
      var key := ScopedKey(m.namespace, m.name);
      assert b.store[Key(Table.Modules, key)] == ModuleItem(m);
    }
  }

  /** A history of the index: each state follows from the one before by one changelog. */
  ghost predicate History(states: seq<Index>, log: seq<ChangeLog>) {
    |states| == |log| + 1 && forall i :: 0 <= i < |log| ==> Processed(states[i], log[i], states[i + 1])
  }

  // ----- any sequence of changelogs, decodable or not -----

  predicate Decodes(item: Item) {
    item.ModuleItem? && item.mod.payload.Some?
  }

  /** No stored module has a payload that does not decode. */
  ghost predicate AllDecodable(s: Store) {
    forall key :: Key(Table.Modules, key) in s ==> Decodes(s[Key(Table.Modules, key)])
  }

  ghost predicate BrokenIn(s: Store, name: string) {
    exists key :: Key(Table.Modules, key) in s && StartsWith(key, name + ":") && !Decodes(s[Key(Table.Modules, key)])
  }

  /** A cached router is right, or its namespace has a stored module that does not decode. */
  ghost predicate RouterNearly(s: Store, routers: map<string, Router>, name: string) {
    name in routers ==>
      Key(Namespaces, name) in s && ColonFree(name) && (Agrees(s, name, routers[name]) || BrokenIn(s, name))
  }

  /** The executor is right about every row but those of modules that do not decode. */
  predicate ExecutorNearly(s: Store, e: map<string, CompiledModule>, key: string) {
    var k := Key(Table.Modules, key);
    if k !in s then key !in e
    else Decodes(s[k]) ==> key in e && CompiledOf(s[k].mod) == Some(e[key])
  }

  ghost predicate Nearly(x: Index) {
    && WellKept(x.store)
    && (forall name :: RouterNearly(x.store, x.routers, name))
    && (forall key :: ExecutorNearly(x.store, x.executor, key))
  }

  lemma CoherentIsNearly(x: Index)
    ensures Coherent(x) <==> Nearly(x) && AllDecodable(x.store)
  {
    if Coherent(x) {
      forall name ensures RouterNearly(x.store, x.routers, name) {
      }
      forall key ensures ExecutorNearly(x.store, x.executor, key) {
      }
      forall key | Key(Table.Modules, key) in x.store ensures Decodes(x.store[Key(Table.Modules, key)]) {
        assert key in x.executor;
      }
    }
    if Nearly(x) && AllDecodable(x.store) {
      forall name | name in x.routers
        ensures Key(Namespaces, name) in x.store && ColonFree(name) && Agrees(x.store, name, x.routers[name])
      {
        assert RouterNearly(x.store, x.routers, name);
      }
      forall key ensures key in x.executor <==> Key(Table.Modules, key) in x.store {
        assert ExecutorNearly(x.store, x.executor, key);
      }
      forall key | key in x.executor ensures CompiledOf(x.store[Key(Table.Modules, key)].mod) == Some(x.executor[key]) {
        assert ExecutorNearly(x.store, x.executor, key);
      }
    }
  }

  lemma ExecutorNearlyStep(s: Store, e: map<string, CompiledModule>, cl: ChangeLog, key: string)
    requires ExecutorNearly(s, e, key)
    ensures ExecutorNearly(Apply(s, cl), ExecutorStep(e, cl), key)
  {
  }

  lemma RouterNearlyStep(a: Index, cl: ChangeLog, b: Index, name: string)
    requires WellKept(a.store) && RouterNearly(a.store, a.routers, name) && Processed(a, cl, b) && WellFormed(cl)
    ensures RouterNearly(b.store, b.routers, name)
  {
    if name in b.routers && !(Rebuilt(b.store, cl) && name == cl.namespace) {
      assert name in a.routers && b.routers[name] == a.routers[name];
      NamespaceStays(a, cl, b, name);
      if Rebuilds(cl.cmd) && name == cl.namespace {
        NotRebuilt(a, cl, b);
      } else {
        OtherNamespaces(a.store, cl, name);
        SameAgain(a.store, b.store, name, a.routers[name]);
      }
    }
  }

  /** A rebuild that did not happen although the namespace is there: nothing was written, or a module that does not
      decode. */
  lemma NotRebuilt(a: Index, cl: ChangeLog, b: Index)
    requires Processed(a, cl, b) && WellFormed(cl) && Rebuilds(cl.cmd) && !Rebuilt(b.store, cl)
    requires Key(Namespaces, cl.namespace) in b.store
    ensures b.store == a.store || BrokenIn(b.store, cl.namespace)
  {
    if Effect(cl).Some? {
      var key := ScopedKey(cl.namespace, cl.name);
      assert key[..|cl.namespace + ":"|] == cl.namespace + ":";
      assert b.store[Key(Table.Modules, key)] == cl.item;
    }
  }

  lemma SameAgain(s: Store, s': Store, name: string, router: Router)
    requires SameFor(s, s', name) && (Agrees(s, name, router) || BrokenIn(s, name))
    ensures Agrees(s', name, router) || BrokenIn(s', name)
  {
    if Agrees(s, name, router) {
      AgreesFrame(s, s', name, router);
    } else {
      var key :| Key(Table.Modules, key) in s && StartsWith(key, name + ":") && !Decodes(s[Key(Table.Modules, key)]);
      var k := Key(Table.Modules, key);
      assert Concerns(k, name) && At(s, k) == At(s', k);
    }
  }

  lemma NearlyStep(a: Index, cl: ChangeLog, b: Index)
    requires Nearly(a) && Processed(a, cl, b) && WellFormed(cl)
    ensures Nearly(b)
  {
    WellKeptStep(a.store, cl);
    forall name ensures RouterNearly(b.store, b.routers, name) {
      assert RouterNearly(a.store, a.routers, name);
      RouterNearlyStep(a, cl, b, name);
    }
    forall key ensures ExecutorNearly(b.store, b.executor, key) {
      assert ExecutorNearly(a.store, a.executor, key);
      ExecutorNearlyStep(a.store, a.executor, cl, key);
    }
  }

  lemma {:induction false} NearlyAlways(states: seq<Index>, log: seq<ChangeLog>)
    requires History(states, log) && Nearly(states[0]) && forall cl :: cl in log ==> WellFormed(cl)
    ensures Nearly(states[|log|])
    decreases |log|
  {
    if log != [] {
      HistoryFront(states, log);
      NearlyAlways(states[..|log|], log[..|log| - 1]);
      NearlyStep(states[|log| - 1], log[|log| - 1], states[|log|]);
    }
  }

  /** After every sequence of well-formed changelogs, accepted or refused, decodable or not, the store is their fold,
      and the index is coherent if and only if no stored module has a payload that does not decode. */
  lemma {:induction false} CoherentAlways(states: seq<Index>, log: seq<ChangeLog>)
    requires History(states, log) && Coherent(states[0]) && forall cl :: cl in log ==> WellFormed(cl)
    ensures states[|log|].store == Fold(states[0].store, log)
    ensures Coherent(states[|log|]) <==> AllDecodable(states[|log|].store)
  {
    HistoryFolds(states, log);
    CoherentIsNearly(states[0]);
    NearlyAlways(states, log);
    CoherentIsNearly(states[|log|]);
  }

  lemma HistoryFront(states: seq<Index>, log: seq<ChangeLog>)
    requires History(states, log) && log != []
    ensures History(states[..|log|], log[..|log| - 1])
  {
  }

  /** Requests through a coherent index see the stored routes: a cached router finds a route exactly when a stored
      route of the namespace serves the request. */
  lemma {:induction false} CoherentFinds(x: Index, namespace: string, path: string, verb: string)
    requires Coherent(x) && namespace in x.routers
    ensures (exists c :: c in x.routers[namespace].routes && Matches(c, path, verb)) <==>
            (exists r :: IsRouteOf(x.store, namespace, r) && Serves(r, path, verb))
  {
    FoundIffStored(x.store, namespace, x.routers[namespace], path, verb);
  }

  // ----- which namespaces have a router, and what it serves -----

  /** The call succeeds if and only if the changelog is accepted and, when it concerns routes, services or modules,
      its namespace is stored and its payload decodes. */
  lemma SucceedsIff(s: Store, cl: ChangeLog)
    ensures Succeeds(Apply(s, cl), cl) <==>
            && Effect(cl).Some?
            && (cl.cmd in {AddRoute, DeleteRoute, AddService, DeleteService, AddModule, DeleteModule} ==>
                  Key(Namespaces, cl.namespace) in s)
            && (cl.cmd.AddModule? ==> cl.item.mod.payload.Some?)
  {
  }

  /** Changelog `i` concerns the routes, services or modules of a stored namespace and is processed to its end. */
  predicate RebuildsAt(states: seq<Index>, log: seq<ChangeLog>, i: nat, name: string)
    requires i < |log| <= |states|
  {
    var cl := log[i];
    && cl.cmd in {AddRoute, DeleteRoute, AddService, DeleteService, AddModule, DeleteModule}
    && cl.namespace == name && Key(Namespaces, name) in states[i].store && Effect(cl).Some?
    && (cl.cmd.AddModule? ==> cl.item.mod.payload.Some?)
  }

  predicate NotDeletedFrom(log: seq<ChangeLog>, i: nat, name: string) {
    forall j :: i <= j < |log| && log[j].cmd.DeleteNamespace? ==> log[j].name != name
  }

  /** A namespace has a cached router if and only if a changelog made one, or there was one at first, and the namespace
      has not been deleted since. */
  lemma {:induction false} CachedIff(states: seq<Index>, log: seq<ChangeLog>, name: string)
    requires History(states, log)
    ensures name in states[|log|].routers <==>
            || (name in states[0].routers && NotDeletedFrom(log, 0, name))
            || exists i :: 0 <= i < |log| && RebuildsAt(states, log, i, name) && NotDeletedFrom(log, i + 1, name)
    decreases |log|
  {
    if log != [] {
      var front, last := log[..|log| - 1], |log| - 1;
      HistoryFront(states, log);
      CachedIff(states[..|log|], front, name);
      CachedStep(states[last], log[last], states[|log|], name);
      forall i | 0 <= i < last
        ensures RebuildsAt(states, log, i, name) <==> RebuildsAt(states[..|log|], front, i, name)
      {
      }
      forall i | 0 <= i <= last
        ensures NotDeletedFrom(log, i, name) <==>
                NotDeletedFrom(front, i, name) && !(log[last].cmd.DeleteNamespace? && log[last].name == name)
      {
        assert forall j :: i <= j < |front| ==> front[j] == log[j];
      }
      CachedSplit(states, log, name);
    }
  }

  /** Only the last changelog differs from what was known before it. */
  lemma CachedSplit(states: seq<Index>, log: seq<ChangeLog>, name: string)
    requires |log| > 0 && |states| == |log| + 1
    ensures (exists i :: 0 <= i < |log| && RebuildsAt(states, log, i, name) && NotDeletedFrom(log, i + 1, name)) <==>
            || (exists i :: 0 <= i < |log| - 1 && RebuildsAt(states, log, i, name) && NotDeletedFrom(log, i + 1, name))
            || RebuildsAt(states, log, |log| - 1, name)
  {
    assert NotDeletedFrom(log, |log| - 1 + 1, name);
  }

  lemma CachedStep(a: Index, cl: ChangeLog, b: Index, name: string)
    requires Processed(a, cl, b)
    ensures name in b.routers <==>
            || (name in a.routers && !(cl.cmd.DeleteNamespace? && cl.name == name))
            || RebuildsAt([a], [cl], 0, name)
  {
    if RebuildsAt([a], [cl], 0, name) || (Rebuilt(b.store, cl) && cl.namespace == name) {
      assert Key(Namespaces, name) in a.store <==> Key(Namespaces, name) in b.store;
    }
  }

  lemma {:induction false} ColonFreeAlways(states: seq<Index>, log: seq<ChangeLog>)
    requires History(states, log) && RoutesColonFree(states[0].store) && forall cl :: cl in log ==> WellFormed(cl)
    ensures RoutesColonFree(states[|log|].store)
    decreases |log|
  {
    if log != [] {
      HistoryFront(states, log);
      ColonFreeAlways(states[..|log|], log[..|log| - 1]);
      RoutesColonFreeStep(states[|log| - 1].store, log[|log| - 1]);
    }
  }

  /** Once a changelog about a stored namespace has been processed, and as long as the namespace is not deleted and no
      stored module fails to decode, a request for it finds a route if and only if a stored row serves it. */
  lemma ServedSince(states: seq<Index>, log: seq<ChangeLog>, i: nat, name: string, path: string, verb: string)
    requires History(states, log) && Coherent(states[0]) && RoutesColonFree(states[0].store)
    requires (forall cl :: cl in log ==> WellFormed(cl)) && AllDecodable(states[|log|].store)
    requires i < |log| && RebuildsAt(states, log, i, name) && NotDeletedFrom(log, i + 1, name)
    ensures var x := states[|log|];
            && name in x.routers
            && ((exists c :: c in x.routers[name].routes && Matches(c, path, verb)) <==>
                exists row :: RowServes(x.store, name, row, path, verb))
  {
    CachedIff(states, log, name);
    CoherentAlways(states, log);
    ColonFreeAlways(states, log);
    FoundIffRow(states[|log|].store, name, states[|log|].routers[name], path, verb);
  }

  function Payloads(modules: seq<Module>): seq<Option<string>> {
    seq(|modules|, i requires 0 <= i < |modules| => modules[i].payload)
  }

  function AllSome(sources: seq<string>): seq<Option<string>> {
    seq(|sources|, i requires 0 <= i < |sources| => Some(sources[i]))
  }

  /** The two copies of a module agree: the scripts the executor runs for a cached route are the payloads of the
      modules copied into the route, in the same order. */
  lemma SameScripts(x: Index, namespace: string, c: CompiledRoute)
    requires Coherent(x) && namespace in x.routers && c in x.routers[namespace].routes
    ensures AllSome(SourcesOf(x.executor, c.route.modules, namespace)) == Payloads(c.modules)
  {
    assert RouteAgrees(x.store, namespace, c);
    SourcesArePayloads(x, namespace, c.route.modules);
  }

  lemma {:induction false} SourcesArePayloads(x: Index, namespace: string, names: seq<string>)
    requires ExecutorOk(x.store, x.executor)
    ensures AllSome(SourcesOf(x.executor, names, namespace)) == Payloads(ModulesOf(x.store, namespace, names))
    decreases |names|
  {
    if names != [] {
      var front, key := names[..|names| - 1], ScopedKey(namespace, names[|names| - 1]);
      SourcesArePayloads(x, namespace, front);
      if key in x.executor {
        var m := x.store[Key(Table.Modules, key)].mod;
        assert AllSome(SourcesOf(x.executor, front, namespace) + [x.executor[key].source])
            == AllSome(SourcesOf(x.executor, front, namespace)) + [m.payload];
        assert Payloads(ModulesOf(x.store, namespace, front) + [m])
            == Payloads(ModulesOf(x.store, namespace, front)) + [m.payload];
      }
    }
  }

  // ----- restart -----

  /** Stable insertion by time stamp: the new element goes in front of the first later one. */
  function InsertByTime(cl: ChangeLog, log: seq<ChangeLog>): seq<ChangeLog> {
    if log == [] then [cl]
    else if log[|log| - 1].timestamp <= cl.timestamp then log + [cl]
    else InsertByTime(cl, log[..|log| - 1]) + [log[|log| - 1]]
  }

  function SortByTime(log: seq<ChangeLog>): seq<ChangeLog> {
    if log == [] then [] else InsertByTime(log[|log| - 1], SortByTime(log[..|log| - 1]))
  }

  predicate TimeOrdered(log: seq<ChangeLog>) {
    forall i, j :: 0 <= i < j < |log| ==> log[i].timestamp <= log[j].timestamp
  }

  predicate StrictlyTimed(log: seq<ChangeLog>) {
    forall i, j :: 0 <= i < j < |log| ==> log[i].timestamp < log[j].timestamp
  }

  lemma {:induction false} InsertByTimeSorts(cl: ChangeLog, log: seq<ChangeLog>)
    requires TimeOrdered(log)
    ensures TimeOrdered(InsertByTime(cl, log)) && multiset(InsertByTime(cl, log)) == multiset(log) + multiset{cl}
    decreases |log|
  {
    if log != [] && log[|log| - 1].timestamp > cl.timestamp {
      var front, last := log[..|log| - 1], log[|log| - 1];
      InsertByTimeSorts(cl, front);
      CutLast(log);
      BelowLast(cl, front, last, InsertByTime(cl, front));
      AtTheEnd(InsertByTime(cl, front), last);
      Regrouped(multiset(front), multiset(log), cl, last);
    } else {
      AtTheEnd(log, cl);
    }
  }

  lemma AtTheEnd(log: seq<ChangeLog>, last: ChangeLog)
    requires TimeOrdered(log) && forall x :: x in log ==> x.timestamp <= last.timestamp
    ensures TimeOrdered(log + [last]) && multiset(log + [last]) == multiset(log) + multiset{last}
  {
  }

  lemma Regrouped(front: multiset<ChangeLog>, all: multiset<ChangeLog>, cl: ChangeLog, last: ChangeLog)
    requires front == all - multiset{last} && last in all
    ensures front + multiset{cl} + multiset{last} == all + multiset{cl}
  {
  }

  lemma BelowLast(cl: ChangeLog, front: seq<ChangeLog>, last: ChangeLog, longer: seq<ChangeLog>)
    requires multiset(longer) == multiset(front) + multiset{cl}
    requires cl.timestamp <= last.timestamp && forall x :: x in front ==> x.timestamp <= last.timestamp
    ensures forall x :: x in longer ==> x.timestamp <= last.timestamp
  {
    forall x | x in longer ensures x.timestamp <= last.timestamp {
      assert x in multiset(longer);
      assert x == cl || x in multiset(front);
    }
  }

  lemma {:induction false} SortByTimeSorts(log: seq<ChangeLog>)
    ensures TimeOrdered(SortByTime(log)) && multiset(SortByTime(log)) == multiset(log)
    decreases |log|
  {
    if log != [] {
      assert log == log[..|log| - 1] + [log[|log| - 1]];
      SortByTimeSorts(log[..|log| - 1]);
      InsertByTimeSorts(log[|log| - 1], SortByTime(log[..|log| - 1]));
    }
  }

  /** The sort brings any listing of a log back to the order of application when its time stamps increase strictly. */
  lemma SortRecovers(log: seq<ChangeLog>, listing: seq<ChangeLog>)
    requires StrictlyTimed(log) && multiset(listing) == multiset(log)
    ensures SortByTime(listing) == log
  {
    SortByTimeSorts(listing);
    OneOrder(log, SortByTime(listing));
  }

  lemma {:induction false} OneOrder(log: seq<ChangeLog>, sorted: seq<ChangeLog>)
    requires StrictlyTimed(log) && TimeOrdered(sorted) && multiset(sorted) == multiset(log)
    ensures sorted == log
    decreases |log|
  {
    SameSize(log, sorted);
    if log != [] {
      SameLast(log, sorted);
      CutLast(log);
      CutLast(sorted);
      OneOrder(log[..|log| - 1], sorted[..|sorted| - 1]);
      SameFrontAndLast(log, sorted);
    }
  }

  lemma SameSize(a: seq<ChangeLog>, b: seq<ChangeLog>)
    requires multiset(a) == multiset(b)
    ensures |a| == |b|
  {
    assert |multiset(a)| == |a| && |multiset(b)| == |b|;
  }

  lemma SameFrontAndLast(a: seq<ChangeLog>, b: seq<ChangeLog>)
    requires |a| == |b| > 0 && a[..|a| - 1] == b[..|b| - 1] && a[|a| - 1] == b[|b| - 1]
    ensures a == b
  {
    assert a == a[..|a| - 1] + [a[|a| - 1]];
    assert b == b[..|b| - 1] + [b[|b| - 1]];
  }

  lemma CutLast(log: seq<ChangeLog>)
    requires log != []
    ensures multiset(log[..|log| - 1]) == multiset(log) - multiset{log[|log| - 1]}
  {
    assert log == log[..|log| - 1] + [log[|log| - 1]];
  }

  lemma SameLast(log: seq<ChangeLog>, sorted: seq<ChangeLog>)
    requires StrictlyTimed(log) && TimeOrdered(sorted) && multiset(sorted) == multiset(log)
    requires |log| == |sorted| > 0
    ensures sorted[|sorted| - 1] == log[|log| - 1]
  {
    var l, s := log[|log| - 1], sorted[|sorted| - 1];
    assert s in multiset(sorted) && l in multiset(log);
    var i :| 0 <= i < |log| && log[i] == s;
    var j :| 0 <= j < |sorted| && sorted[j] == l;
  }

  /** The executor after a log, from empty. */
  function ExecutorFold(log: seq<ChangeLog>): map<string, CompiledModule> {
    if log == [] then map[] else ExecutorStep(ExecutorFold(log[..|log| - 1]), log[|log| - 1])
  }

  lemma {:induction false} ExecutorOfLog(log: seq<ChangeLog>, key: string)
    ensures ExecutorNearly(Fold(map[], log), ExecutorFold(log), key)
    decreases |log|
  {
    if log != [] {
      ExecutorOfLog(log[..|log| - 1], key);
      ExecutorNearlyStep(Fold(map[], log[..|log| - 1]), ExecutorFold(log[..|log| - 1]), log[|log| - 1], key);
    }
  }

  /** The routers and the executor along a history that starts with nothing in memory. */
  lemma {:induction false} RestoredParts(states: seq<Index>, log: seq<ChangeLog>)
    requires History(states, log) && forall cl :: cl in log ==> WellFormed(cl)
    requires WellKept(states[0].store) && states[0].routers == map[] && states[0].executor == map[]
    ensures WellKept(states[|log|].store) && states[|log|].executor == ExecutorFold(log)
    ensures forall name :: RouterNearly(states[|log|].store, states[|log|].routers, name)
    decreases |log|
  {
    if log != [] {
      HistoryFront(states, log);
      RestoredParts(states[..|log|], log[..|log| - 1]);
      var a, cl, b := states[|log| - 1], log[|log| - 1], states[|log|];
      WellKeptStep(a.store, cl);
      forall name ensures RouterNearly(b.store, b.routers, name) {
        RouterNearlyStep(a, cl, b, name);
      }
    }
  }

  lemma {:induction false} WellKeptFold(s: Store, log: seq<ChangeLog>)
    requires WellKept(s)
    ensures WellKept(Fold(s, log))
    decreases |log|
  {
    if log != [] {
      WellKeptFold(s, log[..|log| - 1]);
      WellKeptStep(Fold(s, log[..|log| - 1]), log[|log| - 1]);
    }
  }

  lemma {:induction false} HistoryFolds(states: seq<Index>, log: seq<ChangeLog>)
    requires History(states, log)
    ensures states[|log|].store == Fold(states[0].store, log)
    decreases |log|
  {
    if log != [] {
      HistoryFront(states, log);
      HistoryFolds(states[..|log|], log[..|log| - 1]);
    }
  }

  /** A restart in the middle of a log: a changelog is kept before it is processed, so the tables may hold any
      prefix of what the log says. Whatever the changelogs are, replaying the log ends with its store. */
  lemma RestartStore(log: seq<ChangeLog>, n: nat, states: seq<Index>)
    requires n <= |log| && History(states, log) && states[0].store == Fold(map[], log[..n])
    ensures states[|log|].store == Fold(map[], log)
  {
    HistoryFolds(states, log);
    PrefixThenWhole(map[], log, n);
  }

  /** And with nothing in memory it ends with a coherent index if and only if no stored module has a payload that does
      not decode, although the index need not be coherent on the way. */
  lemma {:induction false} RestartRestores(log: seq<ChangeLog>, n: nat, states: seq<Index>)
    requires n <= |log| && History(states, log) && forall cl :: cl in log ==> WellFormed(cl)
    requires states[0] == Index(Fold(map[], log[..n]), map[], map[])
    ensures states[|log|].store == Fold(map[], log)
    ensures Coherent(states[|log|]) <==> AllDecodable(states[|log|].store)
  {
    WellKeptFold(map[], log[..n]);
    RestoredParts(states, log);
    RestartStore(log, n, states);
    forall key ensures ExecutorNearly(states[|log|].store, states[|log|].executor, key) {
      ExecutorOfLog(log, key);
    }
    CoherentIsNearly(states[|log|]);
  }

  // ----- the object -----

  class ProxyState {
    const store: ProxyStore
    const executor: ModuleExecutor
    var routers: map<string, Router>
    var changelogs: map<string, ChangeLog>

    ghost function View(): Index
      reads this, store.storage, executor
    {
      Index(store.View(), routers, executor.modules)
    }

    constructor (store: ProxyStore)
      ensures this.store == store && View() == Index(store.View(), map[], map[]) && changelogs == map[] && fresh(executor)
    {
      this.store := store;
      executor := new ModuleExecutor();
      routers, changelogs := map[], map[];
    }

    method GatherModules(namespace: string, names: seq<string>) returns (modules: seq<Module>)
      requires WellKept(store.View())
      ensures modules == ModulesOf(store.View(), namespace, names)
    {
      modules := [];
      for i := 0 to |names|
        invariant modules == ModulesOf(store.View(), namespace, names[..i])
      {
        assert names[..i + 1][..i] == names[..i];
        var m := store.GetItem(Key(Table.Modules, ScopedKey(namespace, names[i])));
        if m.Some? {
          modules := modules + [m.value.mod];
        }
      }
      assert names[..|names|] == names;
    }

    method CompilePatterns(paths: seq<string>) returns (patterns: seq<Regex>)
      ensures patterns == PatternsOf(paths)
    {
      patterns := [];
      for i := 0 to |paths|
        invariant patterns == PatternsOf(paths[..i])
      {
        assert paths[..i + 1][..i] == paths[..i];
        var text := CompilePathPattern(paths[i]);
        var r := ParseRegex(text);
        if r.Some? {
          patterns := patterns + [r.value];
        }
      }
      assert paths[..|paths|] == paths;
    }

    method CompileOne(ns: Namespace, namespace: string, route: Route) returns (c: CompiledRoute)
      requires WellKept(store.View())
      ensures c == CompileRoute(store.View(), ns, namespace, route)
    {
      var service := None;
      if route.service.Some? {
        var item := store.GetItem(Key(Services, ScopedKey(namespace, route.service.value)));
        if item.Some? {
          service := Some(item.value.service);
        }
      }
      var modules := GatherModules(namespace, route.modules);
      var patterns := CompilePatterns(route.paths);
      c := CompiledRoute(route, ns, service, modules, patterns, route.methods);
    }

    method CompileRows(ns: Namespace, namespace: string, rows: seq<(string, Item)>) returns (compiled: seq<CompiledRoute>)
      requires WellKept(store.View()) && forall r :: r in rows ==> r.1.RouteItem?
      ensures |compiled| == |rows|
      ensures forall j :: 0 <= j < |rows| ==>
                rows[j] in rows && compiled[j] == CompileRoute(store.View(), ns, namespace, rows[j].1.route)
    {
      compiled := [];
      for i := 0 to |rows|
        invariant |compiled| == i
        invariant forall j :: 0 <= j < i ==>
                    rows[j] in rows && compiled[j] == CompileRoute(store.View(), ns, namespace, rows[j].1.route)
      {
        assert rows[i] in rows;
        var c := CompileOne(ns, namespace, rows[i].1.route);
        compiled := compiled + [c];
      }
    }

    method RebuildRouter(namespace: string) returns (ok: bool)
      requires WellKept(store.View())
      modifies this`routers
      ensures ok == (Key(Namespaces, namespace) in store.View())
      ensures !ok ==> routers == old(routers)
      ensures ok ==> namespace in routers && routers == old(routers)[namespace := routers[namespace]]
                     && Agrees(store.View(), namespace, routers[namespace])
                     && store.View()[Key(Namespaces, namespace)] == NamespaceItem(routers[namespace].namespace)
    {
      var row := store.GetItem(Key(Namespaces, namespace));
      if row.None? {
        return false;
      }
      var ns := row.value.ns;
      var rows := store.storage.List(Routes, namespace + ":");
      ListedRoutes(store.View(), namespace, rows);
      var compiled := CompileRows(ns, namespace, rows);
      RowsAgree(store.View(), namespace, ns, rows, compiled);
      routers := routers[namespace := Router(ns, compiled)];
      ok := true;
    }

    method ProcessChangelog(cl: ChangeLog) returns (ok: bool)
      requires WellKept(store.View())
      modifies this`routers, store.storage, executor
      ensures Processed(old(View()), cl, View()) && WellKept(store.View())
      ensures ok == Succeeds(store.View(), cl)
    {
      WellKeptStep(store.View(), cl);
      ok := store.ApplyChangelog(cl);
      if ok {
        ok := Refresh(cl);
      }
    }

    /** The index follows a changelog the store has taken. */
    method Refresh(cl: ChangeLog) returns (ok: bool)
      requires WellKept(store.View()) && Effect(cl).Some?
      modifies this`routers, executor
      ensures Rerouted(store.View(), old(routers), cl, routers) && ok == Succeeds(store.View(), cl)
      ensures executor.modules == ExecutorStep(old(executor.modules), cl)
    {
      ok := true;
      match cl.cmd
      case DeleteNamespace => routers := routers - {cl.name};
      case AddRoute => ok := RebuildRouter(cl.namespace);
      case DeleteRoute => ok := RebuildRouter(cl.namespace);
      case AddService => ok := RebuildRouter(cl.namespace);
      case DeleteService => ok := RebuildRouter(cl.namespace);
      case AddModule =>
        ok := executor.AddModule(cl.item.mod);
        if ok {
          ok := RebuildRouter(cl.namespace);
        }
      case DeleteModule =>
        executor.RemoveModule(cl.namespace, cl.name);
        ok := RebuildRouter(cl.namespace);
      case _ =>
    }

    /** Standalone mode: the changelog is kept for the next start before it is processed, and stays when that fails. */
    method ApplyChangelog(cl: ChangeLog) returns (ok: bool)
      requires WellKept(store.View())
      modifies this, store.storage, executor
      ensures Processed(old(View()), cl, View()) && WellKept(store.View())
      ensures ok == Succeeds(store.View(), cl)
      ensures changelogs == old(changelogs)[cl.id := cl]
    {
      changelogs := changelogs[cl.id := cl];
      ok := ProcessChangelog(cl);
    }

    /** All kept changelogs in the table's arbitrary order. */
    method ListChangelogs() returns (listing: seq<ChangeLog>)
      ensures multiset(listing) == Values(changelogs)
    {
      listing := [];
      var rest := changelogs.Keys;
      assert Among(changelogs, rest) == changelogs;
      while rest != {}
        invariant rest <= changelogs.Keys
        invariant multiset(listing) + Values(Among(changelogs, rest)) == Values(changelogs)
        decreases rest
      {
        var id :| id in rest;
        ValuesStep(Among(changelogs, rest), id);
        assert Among(changelogs, rest) - {id} == Among(changelogs, rest - {id});
        listing, rest := listing + [changelogs[id]], rest - {id};
      }
    }

    /** Start-up: every kept changelog again, by time stamp, whether or not it succeeds. */
    method RestoreFromChangelogs() returns (ghost log: seq<ChangeLog>, ghost states: seq<Index>)
      requires WellKept(store.View())
      modifies this`routers, store.storage, executor
      ensures TimeOrdered(log) && multiset(log) == Values(changelogs)
      ensures History(states, log) && states[0] == old(View()) && states[|log|] == View()
    {
      var listing := ListChangelogs();
      log := SortByTime(listing);
      SortByTimeSorts(listing);
      states := ReplayAll(SortByTime(listing));
    }

    method ReplayAll(log: seq<ChangeLog>) returns (ghost states: seq<Index>)
      requires WellKept(store.View())
      modifies this`routers, store.storage, executor
      ensures History(states, log) && states[0] == old(View()) && states[|log|] == View()
    {
      states := [View()];
      for i := 0 to |log|
        invariant WellKept(store.View())
        invariant History(states, log[..i]) && states[0] == old(View()) && states[i] == View()
      {
        var _ := ProcessChangelog(log[i]);
        HistoryOn(states, log[..i], log[i], View());
        assert log[..i] + [log[i]] == log[..i + 1];
        states := states + [View()];
      }
      assert log[..|log|] == log;
    }
  }

  lemma HistoryOn(states: seq<Index>, log: seq<ChangeLog>, cl: ChangeLog, x: Index)
    requires History(states, log) && Processed(states[|log|], cl, x)
    ensures History(states + [x], log + [cl])
  {
  }

  lemma ListedRoutes(s: Store, namespace: string, rows: seq<(string, Item)>)
    requires WellKept(s) && IsListing(rows, s, Routes, namespace + ":")
    ensures forall r :: r in rows ==> r.1.RouteItem?
  {
    forall r | r in rows ensures r.1.RouteItem? {
      assert KeyOf(s[Key(Routes, r.0)]) == Key(Routes, r.0);
    }
  }

  /** The rows compiled one by one make a router that agrees with the store. */
  lemma RowsAgree(s: Store, namespace: string, ns: Namespace, rows: seq<(string, Item)>, compiled: seq<CompiledRoute>)
    requires WellKept(s) && ns.name == namespace && IsListing(rows, s, Routes, namespace + ":")
    requires |compiled| == |rows|
    requires forall r :: r in rows ==> r.1.RouteItem?
    requires forall j :: 0 <= j < |rows| ==> compiled[j] == CompileRoute(s, ns, namespace, rows[j].1.route)
    ensures Agrees(s, namespace, Router(ns, compiled))
  {
    forall c | c in compiled ensures RouteAgrees(s, namespace, c) {
      var j :| 0 <= j < |compiled| && compiled[j] == c;
      assert rows[j] in rows;
      assert s[Key(Routes, rows[j].0)] == RouteItem(c.route);
    }
    forall r | IsRouteOf(s, namespace, r) ensures exists c :: c in compiled && c.route == r {
      var k :| k in s && k.table == Routes && StartsWith(k.name, namespace + ":") && s[k] == RouteItem(r);
      assert (k.name, s[k]) in rows;
      var j :| 0 <= j < |rows| && rows[j] == (k.name, s[k]);
      assert compiled[j] in compiled;
    }
    forall i, j | 0 <= i < j < |compiled| ensures compiled[i].route != compiled[j].route {
      assert rows[i] in rows && rows[j] in rows;
      assert KeyOf(rows[i].1) == Key(Routes, rows[i].0) && KeyOf(rows[j].1) == Key(Routes, rows[j].0);
    }
  }

  /** The part of a table under these keys. */
  function Among(m: map<string, ChangeLog>, ids: set<string>): (r: map<string, ChangeLog>)
    requires ids <= m.Keys
    ensures r.Keys == ids && (ids == {} ==> r == map[])
  {
    map id | id in ids :: m[id]
  }

  /** The values of a table with their multiplicities. */
  ghost function Values(m: map<string, ChangeLog>): multiset<ChangeLog> {
    if m == map[] then multiset{}
    else
      var id :| id in m;
      multiset{m[id]} + Values(m - {id})
  }

  lemma {:induction false} ValuesStep(m: map<string, ChangeLog>, id: string)
    requires id in m
    ensures Values(m) == multiset{m[id]} + Values(m - {id})
    decreases |m|
  {
    var first :| first in m && Values(m) == multiset{m[first]} + Values(m - {first});
    if first != id {
      Smaller(m, first);
      Smaller(m, id);
      ValuesStep(m - {first}, id);
      ValuesStep(m - {id}, first);
      SwapRemovals(m, first, id);
    }
  }

  lemma SwapRemovals(m: map<string, ChangeLog>, a: string, b: string)
    ensures m - {a} - {b} == m - {b} - {a}
  {
  }

  lemma Smaller(m: map<string, ChangeLog>, id: string)
    requires id in m
    ensures |m - {id}| < |m|
  {
    assert (m - {id}).Keys == m.Keys - {id};
    assert |m - {id}| == |(m - {id}).Keys| && |m| == |m.Keys|;
  }

  predicate DifferentIds(log: seq<ChangeLog>) {
    forall i, j :: 0 <= i < j < |log| ==> log[i].id != log[j].id
  }

  /** The table after keeping a log. */
  function KeptTable(log: seq<ChangeLog>): map<string, ChangeLog> {
    if log == [] then map[] else KeptTable(log[..|log| - 1])[log[|log| - 1].id := log[|log| - 1]]
  }

  lemma {:induction false} KeptIds(log: seq<ChangeLog>, id: string)
    ensures id in KeptTable(log) <==> exists cl :: cl in log && cl.id == id
    decreases |log|
  {
    if log != [] {
      KeptIds(log[..|log| - 1], id);
      assert log == log[..|log| - 1] + [log[|log| - 1]];
    }
  }

  lemma {:induction false} KeptValues(log: seq<ChangeLog>)
    requires DifferentIds(log)
    ensures Values(KeptTable(log)) == multiset(log)
    decreases |log|
  {
    if log != [] {
      var front, last := log[..|log| - 1], log[|log| - 1];
      assert log == front + [last];
      KeptValues(front);
      KeptIds(front, last.id);
      assert KeptTable(log) - {last.id} == KeptTable(front);
      ValuesStep(KeptTable(log), last.id);
    }
  }

  /** What a start-up replays is the log in its order of application, when ids differ and time stamps increase. */
  lemma RestoresInOrder(log: seq<ChangeLog>, replayed: seq<ChangeLog>)
    requires DifferentIds(log) && StrictlyTimed(log)
    requires TimeOrdered(replayed) && multiset(replayed) == Values(KeptTable(log))
    ensures replayed == log
  {
    KeptValues(log);
    OneOrder(log, replayed);
  }
}
