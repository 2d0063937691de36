/** The cached routers and what it means that they agree with the store (src/proxy/mod.rs). */
module Routing {
  import opened Resources
  import opened Replay
  import opened Storage
  import opened RegularExpressions
  import opened PathPattern

  datatype CompiledRoute = CompiledRoute(
    route: Route, namespace: Namespace, service: Option<Service>, modules: seq<Module>,
    patterns: seq<Regex>, methods: seq<string>)

  datatype Router = Router(namespace: Namespace, routes: seq<CompiledRoute>)

  // ----- what the store says -----

  /** Every row is of the resource type of its table and stored under its own name. */
  ghost predicate WellKept(s: Store) {
    forall k :: k in s ==> s[k] != Malformed && KeyOf(s[k]) == k
  }

  function StoredService(s: Store, namespace: string, name: string): Option<Service> {
    var k := Key(Services, ScopedKey(namespace, name));
    if k in s && s[k].ServiceItem? then Some(s[k].service) else None
  }

  function StoredModule(s: Store, namespace: string, name: string): Option<Module> {
    var k := Key(Table.Modules, ScopedKey(namespace, name));
    if k in s && s[k].ModuleItem? then Some(s[k].mod) else None
  }

  ghost predicate IsRouteOf(s: Store, namespace: string, r: Route) {
    exists k :: k in s && k.table == Routes && StartsWith(k.name, namespace + ":") && s[k] == RouteItem(r)
  }

  /** The service a route names, if it is stored. */
  function ServiceOf(s: Store, namespace: string, r: Route): Option<Service> {
    match r.service
    case None => None
    case Some(name) => StoredService(s, namespace, name)
  }

  /** Those of the named modules that are stored, in order. */
  function ModulesOf(s: Store, namespace: string, names: seq<string>): seq<Module> {
    if names == [] then []
    else
      var front, m := ModulesOf(s, namespace, names[..|names| - 1]), StoredModule(s, namespace, names[|names| - 1]);
      if m.Some? then front + [m.value] else front
  }

  /** The patterns that compile, in order. */
  function PatternsOf(paths: seq<string>): seq<Regex> {
    if paths == [] then []
    else
      var front, r := PatternsOf(paths[..|paths| - 1]), Compile(paths[|paths| - 1]);
      if r.Some? then front + [r.value] else front
  }

  function CompileRoute(s: Store, ns: Namespace, namespace: string, r: Route): CompiledRoute {
    CompiledRoute(r, ns, ServiceOf(s, namespace, r), ModulesOf(s, namespace, r.modules), PatternsOf(r.paths), r.methods)
  }

  /** One cached route is what compiling it from the store gives, tags of the namespace aside. */
  ghost predicate RouteAgrees(s: Store, namespace: string, c: CompiledRoute) {
    && c.namespace.name == namespace && IsRouteOf(s, namespace, c.route)
    && c == CompileRoute(s, c.namespace, namespace, c.route)
  }

  /** A cached router is the compiled form of exactly the stored routes of its namespace, each once. Namespaces are
      compared by name: adding a namespace again with other tags rebuilds nothing. */
  ghost predicate Agrees(s: Store, namespace: string, router: Router) {
    && router.namespace.name == namespace
    && (forall c :: c in router.routes ==> RouteAgrees(s, namespace, c))
    && (forall r :: IsRouteOf(s, namespace, r) ==> exists c :: c in router.routes && c.route == r)
    && (forall i, j :: 0 <= i < j < |router.routes| ==> router.routes[i].route != router.routes[j].route)
  }

  // ----- lookups -----

  function AsciiLower(c: char): char {
    if 'A' <= c <= 'Z' then c - 'A' + 'a' else c
  }

  predicate EqIgnoreAsciiCase(a: string, b: string) {
    |a| == |b| && forall i :: 0 <= i < |a| ==> AsciiLower(a[i]) == AsciiLower(b[i])
  }

  predicate MethodMatches(methods: seq<string>, verb: string) {
    exists m :: m in methods && (m == "*" || EqIgnoreAsciiCase(m, verb))
  }

  /** The stored route serves the request: one of its methods and one of its compilable patterns match. */
  ghost predicate Serves(r: Route, path: string, verb: string) {
    MethodMatches(r.methods, verb) && exists p :: p in r.paths && Compile(p).Some? && IsMatch(Compile(p).value, path)
  }

  predicate Matches(c: CompiledRoute, path: string, verb: string) {
    MethodMatches(c.methods, verb) && exists r :: r in c.patterns && IsMatch(r, path)
  }

  /** The first route of the router, in its own order, that matches. */
  method FindRoute(router: Router, path: string, verb: string) returns (found: Option<CompiledRoute>)
    ensures found.None? ==> forall c :: c in router.routes ==> !Matches(c, path, verb)
    ensures found.Some? ==> exists i :: 0 <= i < |router.routes| && found.value == router.routes[i]
                              && Matches(router.routes[i], path, verb)
                              && forall j :: 0 <= j < i ==> !Matches(router.routes[j], path, verb)
  {
    for i := 0 to |router.routes|
      invariant forall j :: 0 <= j < i ==> !Matches(router.routes[j], path, verb)
    {
      if Matches(router.routes[i], path, verb) {
        return Some(router.routes[i]);
      }
    }
    found := None;
  }

  lemma {:induction false} PatternsComplete(paths: seq<string>, r: Regex)
    ensures r in PatternsOf(paths) <==> exists p :: p in paths && Compile(p) == Some(r)
    decreases |paths|
  {
    if paths != [] {
      var front, last := paths[..|paths| - 1], paths[|paths| - 1];
      PatternsComplete(front, r);
      assert forall p :: p in paths <==> p in front || p == last;
    }
  }

  lemma CompiledServes(s: Store, ns: Namespace, namespace: string, r: Route, path: string, verb: string)
    ensures Matches(CompileRoute(s, ns, namespace, r), path, verb) <==> Serves(r, path, verb)
  {
    forall x ensures x in PatternsOf(r.paths) <==> exists p :: p in r.paths && Compile(p) == Some(x) {
      PatternsComplete(r.paths, x);
    }
  }

  /** A router that agrees with the store finds a route exactly when a stored route of the namespace serves the
      request. */
  lemma FoundIffStored(s: Store, namespace: string, router: Router, path: string, verb: string)
    requires Agrees(s, namespace, router)
    ensures (exists c :: c in router.routes && Matches(c, path, verb)) <==>
            (exists r :: IsRouteOf(s, namespace, r) && Serves(r, path, verb))
  {
    if c :| c in router.routes && Matches(c, path, verb) {
      assert RouteAgrees(s, namespace, c);
      CompiledServes(s, c.namespace, namespace, c.route, path, verb);
    }
    if r :| IsRouteOf(s, namespace, r) && Serves(r, path, verb) {
      var c :| c in router.routes && c.route == r;
      assert RouteAgrees(s, namespace, c);
      CompiledServes(s, c.namespace, namespace, r, path, verb);
    }
  }

  // ----- which writes concern which router -----

  /** The row is one that compiling the namespace's routes reads. */
  predicate Concerns(k: Key, namespace: string) {
    (k.table == Routes || k.table == Services || k.table == Table.Modules) && StartsWith(k.name, namespace + ":")
  }

  /** The stores hold the same in every row of the namespace. */
  ghost predicate SameFor(s: Store, s': Store, namespace: string) {
    forall k :: Concerns(k, namespace) ==> At(s, k) == At(s', k)
  }

  lemma {:induction false} SameModules(s: Store, s': Store, namespace: string, names: seq<string>)
    requires SameFor(s, s', namespace)
    ensures ModulesOf(s, namespace, names) == ModulesOf(s', namespace, names)
    decreases |names|
  {
    if names != [] {
      SameModules(s, s', namespace, names[..|names| - 1]);
      SameRow(s, s', Table.Modules, namespace, names[|names| - 1]);
    }
  }

  lemma SameRow(s: Store, s': Store, t: Table, namespace: string, name: string)
    requires SameFor(s, s', namespace) && (t == Routes || t == Services || t == Table.Modules)
    ensures At(s, Key(t, ScopedKey(namespace, name))) == At(s', Key(t, ScopedKey(namespace, name)))
  {
    var key := ScopedKey(namespace, name);
    assert key[..|namespace + ":"|] == namespace + ":";
    assert Concerns(Key(t, key), namespace);
  }

  lemma SameCompiled(s: Store, s': Store, ns: Namespace, namespace: string, r: Route)
    requires SameFor(s, s', namespace)
    ensures CompileRoute(s, ns, namespace, r) == CompileRoute(s', ns, namespace, r)
  {
    SameModules(s, s', namespace, r.modules);
    if r.service.Some? {
      SameRow(s, s', Services, namespace, r.service.value);
    }
  }

  lemma SameRoutes(s: Store, s': Store, namespace: string, r: Route)
    requires SameFor(s, s', namespace) && IsRouteOf(s, namespace, r)
    ensures IsRouteOf(s', namespace, r)
  {
    var k :| k in s && k.table == Routes && StartsWith(k.name, namespace + ":") && s[k] == RouteItem(r);
    assert Concerns(k, namespace) && At(s, k) == At(s', k);
    assert k in s' && s'[k] == RouteItem(r);
  }

  /** A cached router stays right while the rows of its namespace stay the same. */
  lemma AgreesFrame(s: Store, s': Store, namespace: string, router: Router)
    requires Agrees(s, namespace, router) && SameFor(s, s', namespace)
    ensures Agrees(s', namespace, router)
  {
    forall c | c in router.routes ensures RouteAgrees(s', namespace, c) {
      SameRoutes(s, s', namespace, c.route);
      SameCompiled(s, s', c.namespace, namespace, c.route);
    }
    forall r | IsRouteOf(s', namespace, r) ensures exists c :: c in router.routes && c.route == r {
      SameRoutes(s', s, namespace, r);
    }
  }

  predicate Rebuilds(cmd: ChangeCommand) {
    cmd.AddRoute? || cmd.DeleteRoute? || cmd.AddService? || cmd.DeleteService? || cmd.AddModule? || cmd.DeleteModule?
  }

  /** The item matches and the namespace can be listed by prefix. */
  predicate WellFormed(cl: ChangeLog) {
    ItemMatches(cl) && ColonFree(cl.namespace)
  }

  lemma WellKeptStep(s: Store, cl: ChangeLog)
    requires WellKept(s)
    ensures WellKept(Apply(s, cl))
  {
  }

  /** The only rows a well-formed changelog writes that concern a router are those of its own namespace, and
      only if it is of a kind that rebuilds. */
  lemma OtherNamespaces(s: Store, cl: ChangeLog, namespace: string)
    requires WellFormed(cl) && ColonFree(namespace) && (cl.namespace != namespace || !Rebuilds(cl.cmd))
    ensures SameFor(s, Apply(s, cl), namespace)
  {
    if Effect(cl).Some? && Rebuilds(cl.cmd) {
      ScopedPrefixIff(namespace, cl.namespace, cl.name);
      assert Effect(cl).value.key.name == ScopedKey(cl.namespace, cl.name);
    }
    forall k | Concerns(k, namespace) ensures At(s, k) == At(Apply(s, cl), k) {
      assert !Touches(cl, k);
      OneRow(s, cl, k);
    }
  }

  // ----- the same on rows -----

  /** Equal, or the two cases of one ASCII letter. */
  predicate SameLetter(a: char, b: char) {
    || a == b
    || ('a' <= a <= 'z' && b as int == a as int - 32)
    || ('A' <= a <= 'Z' && b as int == a as int + 32)
  }

  lemma LowerIffSame(a: char, b: char)
    ensures AsciiLower(a) == AsciiLower(b) <==> SameLetter(a, b)
  {
    assert 'a' as int == 97 && 'z' as int == 122 && 'A' as int == 65 && 'Z' as int == 90;
  }

  predicate NamesVerb(m: string, verb: string) {
    m == "*" || (|m| == |verb| && forall i :: 0 <= i < |m| ==> SameLetter(m[i], verb[i]))
  }

  /** A method of a route is the wildcard or the request's verb, up to the case of ASCII letters. */
  lemma MethodRule(methods: seq<string>, verb: string)
    ensures MethodMatches(methods, verb) <==> exists m :: m in methods && NamesVerb(m, verb)
  {
    forall m ensures (m == "*" || EqIgnoreAsciiCase(m, verb)) <==> NamesVerb(m, verb) {
      if |m| == |verb| {
        forall i | 0 <= i < |m| ensures AsciiLower(m[i]) == AsciiLower(verb[i]) <==> SameLetter(m[i], verb[i]) {
          LowerIffSame(m[i], verb[i]);
        }
      }
    }
  }

  /** Stored routes have names that prefixes can tell apart. */
  ghost predicate RoutesColonFree(s: Store) {
    forall k :: k in s && s[k].RouteItem? ==> ColonFree(s[k].route.namespace)
  }

  /** The routes of a namespace are those stored under its name and their own. */
  lemma StoredRouteIff(s: Store, namespace: string, r: Route)
    requires WellKept(s) && RoutesColonFree(s) && ColonFree(namespace)
    ensures IsRouteOf(s, namespace, r) <==>
            r.namespace == namespace && At(s, Key(Routes, namespace + ":" + r.name)) == Some(RouteItem(r))
  {
    if IsRouteOf(s, namespace, r) {
      var k :| k in s && k.table == Routes && StartsWith(k.name, namespace + ":") && s[k] == RouteItem(r);
      assert KeyOf(s[k]) == k;
      ScopedPrefixIff(namespace, r.namespace, r.name);
    }
    if r.namespace == namespace && At(s, Key(Routes, namespace + ":" + r.name)) == Some(RouteItem(r)) {
      ScopedPrefixIff(namespace, namespace, r.name);
      var k := Key(Routes, namespace + ":" + r.name);
      assert k in s && StartsWith(k.name, namespace + ":");
    }
  }

  /** The row of a stored route that serves the request: one of its methods names the verb and one of its patterns
      matches the path. */
  ghost predicate RowServes(s: Store, namespace: string, name: string, path: string, verb: string) {
    var row := At(s, Key(Routes, namespace + ":" + name));
    && row.Some? && row.value.RouteItem?
    && (exists m :: m in row.value.route.methods && NamesVerb(m, verb))
    && (exists p :: p in row.value.route.paths && Compile(p).Some? && IsMatch(Compile(p).value, path))
  }

  /** A router that agrees with the store finds a route if and only if the store has a row that serves the request. */
  lemma FoundIffRow(s: Store, namespace: string, router: Router, path: string, verb: string)
    requires Agrees(s, namespace, router) && WellKept(s) && RoutesColonFree(s) && ColonFree(namespace)
    ensures (exists c :: c in router.routes && Matches(c, path, verb)) <==> exists name :: RowServes(s, namespace, name, path, verb)
  {
    FoundIffStored(s, namespace, router, path, verb);
    if r :| IsRouteOf(s, namespace, r) && Serves(r, path, verb) {
      StoredRouteIff(s, namespace, r);
      MethodRule(r.methods, verb);
      assert RowServes(s, namespace, r.name, path, verb);
    }
    if name :| RowServes(s, namespace, name, path, verb) {
      var k := Key(Routes, namespace + ":" + name);
      var r := s[k].route;
      assert KeyOf(s[k]) == k;
      ScopedKeyInjective(namespace, name, r.namespace, r.name);
      StoredRouteIff(s, namespace, r);
      MethodRule(r.methods, verb);
      assert IsRouteOf(s, namespace, r) && Serves(r, path, verb);
    }
  }

  /** A cached route carries exactly the service its route names, if that is stored under the namespace. */
  lemma ServiceCarried(s: Store, namespace: string, router: Router, c: CompiledRoute, x: Service)
    requires Agrees(s, namespace, router) && WellKept(s) && c in router.routes
    ensures c.service == Some(x) <==>
            c.route.service.Some? && At(s, Key(Services, namespace + ":" + c.route.service.value)) == Some(ServiceItem(x))
  {
    assert RouteAgrees(s, namespace, c);
  }

  /** The modules are those of the names at these positions, each from its row, and no stored name is left out. */
  ghost predicate Placed(s: Store, namespace: string, names: seq<string>, at: seq<nat>, modules: seq<Module>) {
    && |at| == |modules|
    && (forall i, j :: 0 <= i < j < |at| ==> at[i] < at[j])
    && (forall j :: 0 <= j < |at| ==>
          at[j] < |names| && At(s, Key(Table.Modules, namespace + ":" + names[at[j]])) == Some(ModuleItem(modules[j])))
    && (forall i :: 0 <= i < |names| && Key(Table.Modules, namespace + ":" + names[i]) in s ==> i in at)
  }

  /** A cached route carries exactly those of the modules its route names that are stored under the namespace, in the
      order of the names. */
  lemma ModulesCarried(s: Store, namespace: string, router: Router, c: CompiledRoute)
    requires Agrees(s, namespace, router) && WellKept(s) && c in router.routes
    ensures exists at :: Placed(s, namespace, c.route.modules, at, c.modules)
  {
    assert RouteAgrees(s, namespace, c);
    var at := ModulePositions(s, namespace, c.route.modules);
  }

  lemma {:induction false} ModulePositions(s: Store, namespace: string, names: seq<string>) returns (at: seq<nat>)
    requires WellKept(s)
    ensures Placed(s, namespace, names, at, ModulesOf(s, namespace, names))
    decreases |names|
  {
    at := [];
    if names != [] {
      var front, last := names[..|names| - 1], names[|names| - 1];
      at := ModulePositions(s, namespace, front);
      assert names == front + [last];
      var k, modules := Key(Table.Modules, ScopedKey(namespace, last)), ModulesOf(s, namespace, front);
      if k in s {
        assert KeyOf(s[k]) == k;
        PlacedOn(s, namespace, front, last, at, modules, s[k].mod);
        at := at + [|front|];
      } else {
        PlacedStays(s, namespace, front, last, at, modules);
      }
    }
  }

  lemma PlacedOn(s: Store, namespace: string, front: seq<string>, last: string, at: seq<nat>, modules: seq<Module>, m: Module)
    requires Placed(s, namespace, front, at, modules)
    requires At(s, Key(Table.Modules, namespace + ":" + last)) == Some(ModuleItem(m))
    ensures Placed(s, namespace, front + [last], at + [|front|], modules + [m])
  {
    var longer := at + [|front|];
    forall i | 0 <= i < |front + [last]| && Key(Table.Modules, namespace + ":" + (front + [last])[i]) in s ensures i in longer {
      if i == |front| {
        assert longer[|at|] == i;
      } else {
        assert i in at;
      }
    }
  }

  lemma PlacedStays(s: Store, namespace: string, front: seq<string>, last: string, at: seq<nat>, modules: seq<Module>)
    requires Placed(s, namespace, front, at, modules) && Key(Table.Modules, namespace + ":" + last) !in s
    ensures Placed(s, namespace, front + [last], at, modules)
  {
  }

  lemma RoutesColonFreeStep(s: Store, cl: ChangeLog)
    requires RoutesColonFree(s) && WellFormed(cl)
    ensures RoutesColonFree(Apply(s, cl))
  {
  }
}
