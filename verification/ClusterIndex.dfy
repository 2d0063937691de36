/** The routing index in cluster mode (src/proxy/mod.rs with src/cluster/tempo/mod.rs and
    src/cluster/raft/state_machine.rs): any number of writers change the store and then send a
    notification, and one consumer takes the notifications from a queue and rebuilds routers, reading the
    store row by row while the writers go on. Every step below is the access to one row, one send or one
    access to the cache; a listing too visits one row at a time. */
module ClusterIndex {
  import opened Resources
  import opened Replay
  import opened Storage
  import opened Routing

  /** Where the consumer is; each state names what it does next. A listing has still to visit the keys `due` of the
      rows that were there when it started, and has visited `seen`; rows added meanwhile may be visited or not. */
  datatype Consumer =
    | Idle
    | ReadNamespace(cl: ChangeLog)
    | StartListing(cl: ChangeLog, ns: Namespace)
    | ListRoutes(cl: ChangeLog, ns: Namespace, due: set<string>, seen: set<string>, routes: seq<Route>)
    | ReadService(cl: ChangeLog, ns: Namespace, routes: seq<Route>, done: seq<CompiledRoute>)
    | ReadModule(cl: ChangeLog, ns: Namespace, routes: seq<Route>, done: seq<CompiledRoute>,
                 service: Option<Service>, modules: seq<Module>, read: nat)
    | DropRouter(cl: ChangeLog)

  /** `sending` holds the writers between their store write and their send. */
  datatype Sys = Sys(
    store: Store, sending: map<nat, ChangeLog>, queue: seq<ChangeLog>,
    routers: map<string, Router>, consumer: Consumer)

  /** A listing step names the key it visits; every other step of the consumer names none. */
  datatype Event = Write(writer: nat, cl: ChangeLog) | Send(writer: nat) | Consume(visit: Option<string>)

  /** The keys a listing of the namespace's routes goes through. */
  function Under(s: Store, name: string): set<string> {
    set k | k in s && k.table == Routes && StartsWith(k.name, name + ":") :: k.name
  }

  predicate Shape(c: Consumer) {
    match c
    case Idle => true
    case ReadNamespace(cl) => Rebuilds(cl.cmd)
    case StartListing(cl, ns) => Rebuilds(cl.cmd) && ns.name == cl.namespace
    case ListRoutes(cl, ns, due, seen, _) =>
      && Rebuilds(cl.cmd) && ns.name == cl.namespace && due !! seen
      && forall key :: key in due + seen ==> StartsWith(key, cl.namespace + ":")
    case ReadService(cl, ns, routes, done) => Rebuilds(cl.cmd) && ns.name == cl.namespace && |done| <= |routes|
    case ReadModule(cl, ns, routes, done, _, _, read) =>
      Rebuilds(cl.cmd) && ns.name == cl.namespace && |done| < |routes| && read <= |routes[|done|].modules|
    case DropRouter(cl) => cl.cmd.DeleteNamespace?
  }

  predicate CanStep(s: Sys, e: Event) {
    && Shape(s.consumer)
    && match e
       case Write(w, cl) => w !in s.sending && WellFormed(cl)
       case Send(w) => w in s.sending
       case Consume(visit) =>
         && (s.consumer.Idle? ==> s.queue != [])
         && if s.consumer.ListRoutes? then
              match visit
              case None => s.consumer.due == {}
              case Some(key) =>
                key !in s.consumer.seen && (key in s.consumer.due || key in Under(s.store, s.consumer.cl.namespace))
            else visit.None?
  }

  function Received(cl: ChangeLog): Consumer {
    if Rebuilds(cl.cmd) then ReadNamespace(cl)
    else if cl.cmd.DeleteNamespace? then DropRouter(cl)
    else Idle
  }

  function NamespaceRow(s: Store, name: string): Option<Namespace> {
    var k := Key(Namespaces, name);
    if k in s && s[k].NamespaceItem? && s[k].ns.name == name then Some(s[k].ns) else None
  }

  function RouteRow(s: Store, key: string): Option<Route> {
    var k := Key(Routes, key);
    if k in s && s[k].RouteItem? then Some(s[k].route) else None
  }

  /** One step of the consumer. */
  function Consumed(s: Sys, visit: Option<string>): Sys
    requires CanStep(s, Consume(visit))
  {
    match s.consumer
    case Idle => s.(queue := s.queue[1..], consumer := Received(s.queue[0]))
    case ReadNamespace(cl) =>
      var ns := NamespaceRow(s.store, cl.namespace);
      s.(consumer := if ns.None? then Idle else StartListing(cl, ns.value))
    case StartListing(cl, ns) => s.(consumer := ListRoutes(cl, ns, Under(s.store, cl.namespace), {}, []))
    case ListRoutes(cl, ns, due, seen, routes) =>
      if visit.None? then s.(consumer := ReadService(cl, ns, routes, []))
      else
        var key, r := visit.value, RouteRow(s.store, visit.value);
        s.(consumer := ListRoutes(cl, ns, due - {key}, seen + {key}, if r.Some? then routes + [r.value] else routes))
    case ReadService(cl, ns, routes, done) =>
      if |done| == |routes| then s.(routers := s.routers[cl.namespace := Router(ns, done)], consumer := Idle)
      else s.(consumer := ReadModule(cl, ns, routes, done, ServiceOf(s.store, cl.namespace, routes[|done|]), [], 0))
    case ReadModule(cl, ns, routes, done, service, modules, read) =>
      var r := routes[|done|];
      if read == |r.modules| then
        s.(consumer := ReadService(cl, ns, routes, done + [CompiledRoute(r, ns, service, modules, PatternsOf(r.paths), r.methods)]))
      else
        var m := StoredModule(s.store, cl.namespace, r.modules[read]);
        s.(consumer := ReadModule(cl, ns, routes, done, service, if m.Some? then modules + [m.value] else modules, read + 1))
    case DropRouter(cl) => s.(routers := s.routers - {cl.name}, consumer := Idle)
  }

  function Step(s: Sys, e: Event): Sys
    requires CanStep(s, e)
  {
    match e
    case Write(w, cl) =>
      if Effect(cl).Some? then s.(store := Apply(s.store, cl), sending := s.sending[w := cl]) else s
    case Send(w) => s.(queue := s.queue + [s.sending[w]], sending := s.sending - {w})
    case Consume(visit) => Consumed(s, visit)
  }

  /** The consumer starts with nothing cached, over whatever the store holds. */
  ghost predicate Init(s: Sys) {
    WellKept(s.store) && s == Sys(s.store, map[], [], map[], Idle)
  }

  predicate Runs(s: Sys, run: seq<Event>)
    decreases |run|, 0
  {
    run == [] || (Runs(s, run[..|run| - 1]) && CanStep(Exec(s, run[..|run| - 1]), run[|run| - 1]))
  }

  function Exec(s: Sys, run: seq<Event>): Sys
    requires Runs(s, run)
    decreases |run|, 1
  {
    if run == [] then s else Step(Exec(s, run[..|run| - 1]), run[|run| - 1])
  }

  // ----- the invariant -----

  /** The notification will make the consumer look at this namespace's router. */
  predicate About(cl: ChangeLog, name: string) {
    (Rebuilds(cl.cmd) && cl.namespace == name) || Deletes(cl, name)
  }

  predicate Deletes(cl: ChangeLog, name: string) {
    cl.cmd.DeleteNamespace? && cl.name == name
  }

  /** The notification is still to be received. */
  predicate Underway(s: Sys, cl: ChangeLog) {
    cl in s.queue || cl in s.sending.Values
  }

  ghost predicate Pending(s: Sys, name: string) {
    exists cl :: Underway(s, cl) && About(cl, name)
  }

  ghost predicate PendingDelete(s: Sys, name: string) {
    exists cl :: Underway(s, cl) && Deletes(cl, name)
  }

  predicate Stored(s: Store, name: string) {
    Key(Namespaces, name) in s
  }

  /** What the consumer has read so far is what the store still says. */
  ghost predicate UpToDate(s: Store, c: Consumer)
    requires Shape(c)
  {
    match c
    case ListRoutes(cl, _, due, seen, routes) => Listed(s, cl.namespace, due, seen, routes)
    case ReadService(cl, ns, routes, done) => Progress(s, cl.namespace, ns, routes, done)
    case ReadModule(cl, ns, routes, done, service, modules, read) =>
      && Progress(s, cl.namespace, ns, routes, done)
      && service == ServiceOf(s, cl.namespace, routes[|done|])
      && modules == ModulesOf(s, cl.namespace, routes[|done|].modules[..read])
    case _ => true
  }

  /** The listing so far has the routes of the keys it has seen, each once, and has passed no key for good. */
  ghost predicate Listed(s: Store, name: string, due: set<string>, seen: set<string>, routes: seq<Route>) {
    && (forall r :: r in routes <==> exists key :: key in seen && RouteRow(s, key) == Some(r))
    && (forall i, j :: 0 <= i < j < |routes| ==> routes[i] != routes[j])
    && (forall key :: key in Under(s, name) ==> key in due || key in seen)
  }

  ghost predicate Progress(s: Store, name: string, ns: Namespace, routes: seq<Route>, done: seq<CompiledRoute>) {
    && |done| <= |routes|
    && (forall r :: IsRouteOf(s, name, r) <==> r in routes)
    && (forall i, j :: 0 <= i < j < |routes| ==> routes[i] != routes[j])
    && (forall i :: 0 <= i < |done| ==> done[i] == CompileRoute(s, ns, name, routes[i]))
  }

  /** The consumer has read the namespace and works on its router. */
  predicate Rebuilding(c: Consumer) {
    c.StartListing? || c.ListRoutes? || c.ReadService? || c.ReadModule?
  }

  /** Every cached router agrees with the store, or a notification about its namespace is in flight, queued or
      being handled; and if its namespace is gone, the deletion is still to be handled. */
  ghost predicate CachedOk(s: Sys, name: string) {
    name in s.routers ==>
      && ColonFree(name)
      && ((Stored(s.store, name) && Agrees(s.store, name, s.routers[name])) || Pending(s, name)
          || (!s.consumer.Idle? && About(s.consumer.cl, name)))
      && (Stored(s.store, name) || PendingDelete(s, name) || (s.consumer.DropRouter? && s.consumer.cl.name == name))
  }

  /** A rebuild under way has read nothing that changed since, or will be made again. */
  ghost predicate RebuildOk(s: Sys) {
    && Shape(s.consumer)
    && (!s.consumer.Idle? ==> WellFormed(s.consumer.cl))
    && (Rebuilding(s.consumer) ==>
          var name := s.consumer.cl.namespace;
          && (UpToDate(s.store, s.consumer) || Pending(s, name))
          && (Stored(s.store, name) || PendingDelete(s, name)))
  }

  ghost predicate Inv(s: Sys) {
    && WellKept(s.store)
    && (forall cl :: Underway(s, cl) ==> WellFormed(cl))
    && RebuildOk(s)
    && forall name :: CachedOk(s, name)
  }

  // ----- writers -----

  lemma ProgressFrame(s: Store, s': Store, name: string, ns: Namespace, routes: seq<Route>, done: seq<CompiledRoute>)
    requires Progress(s, name, ns, routes, done) && SameFor(s, s', name)
    ensures Progress(s', name, ns, routes, done)
  {
    forall r ensures IsRouteOf(s', name, r) <==> r in routes {
      if IsRouteOf(s', name, r) { SameRoutes(s', s, name, r); }
      if r in routes { SameRoutes(s, s', name, r); }
    }
    forall i | 0 <= i < |done| ensures done[i] == CompileRoute(s', ns, name, routes[i]) {
      SameCompiled(s, s', ns, name, routes[i]);
    }
  }

  lemma ListedFrame(s: Store, s': Store, name: string, due: set<string>, seen: set<string>, routes: seq<Route>)
    requires Listed(s, name, due, seen, routes) && SameFor(s, s', name)
    requires forall key :: key in due + seen ==> StartsWith(key, name + ":")
    ensures Listed(s', name, due, seen, routes)
  {
    forall key | StartsWith(key, name + ":")
      ensures RouteRow(s, key) == RouteRow(s', key) && (key in Under(s, name) <==> key in Under(s', name))
    {
      var k := Key(Routes, key);
      assert Concerns(k, name) && At(s, k) == At(s', k);
      assert key in Under(s, name) <==> k in s;
      assert key in Under(s', name) <==> k in s';
    }
    forall r ensures r in routes <==> exists key :: key in seen && RouteRow(s', key) == Some(r) {
      if r in routes {
        var key :| key in seen && RouteRow(s, key) == Some(r);
        assert key in due + seen && RouteRow(s', key) == Some(r);
      }
      if key :| key in seen && RouteRow(s', key) == Some(r) {
        assert key in due + seen && RouteRow(s, key) == Some(r);
      }
    }
    forall key | key in Under(s', name) ensures key in due || key in seen {
      assert key in Under(s, name);
    }
  }

  lemma UpToDateFrame(s: Store, s': Store, c: Consumer)
    requires Shape(c) && UpToDate(s, c) && (!c.Idle? ==> SameFor(s, s', c.cl.namespace))
    ensures UpToDate(s', c)
  {
    match c
    case ListRoutes(cl, _, due, seen, routes) => ListedFrame(s, s', cl.namespace, due, seen, routes);
    case ReadService(cl, ns, routes, done) => ProgressFrame(s, s', cl.namespace, ns, routes, done);
    case ReadModule(cl, ns, routes, done, _, _, read) =>
      ProgressFrame(s, s', cl.namespace, ns, routes, done);
      var r := routes[|done|];
      SameCompiled(s, s', ns, cl.namespace, r);
      SameModules(s, s', cl.namespace, r.modules[..read]);
    case _ =>
  }

  /** A write that is not about the namespace leaves its rows, and its namespace row, alone. */
  lemma UnrelatedWrite(s: Store, cl: ChangeLog, name: string)
    requires WellFormed(cl) && ColonFree(name) && !About(cl, name)
    ensures SameFor(s, Apply(s, cl), name)
    ensures Stored(s, name) ==> Stored(Apply(s, cl), name)
  {
    OtherNamespaces(s, cl, name);
  }

  lemma NamespaceStays(s: Store, cl: ChangeLog, name: string)
    requires Stored(s, name) && !Deletes(cl, name)
    ensures Stored(Apply(s, cl), name)
  {
  }

  lemma WriteNotices(s: Sys, w: nat, cl: ChangeLog)
    requires w !in s.sending
    ensures var s' := s.(store := Apply(s.store, cl), sending := s.sending[w := cl]);
            && (forall x :: Underway(s', x) <==> Underway(s, x) || x == cl)
  {
    var sending' := s.sending[w := cl];
    assert sending'[w] == cl;
    forall x | x in s.sending.Values ensures x in sending'.Values {
      var v :| v in s.sending && s.sending[v] == x;
      assert sending'[v] == x;
    }
  }

  lemma WriteKeeps(s: Sys, w: nat, cl: ChangeLog)
    requires Inv(s) && CanStep(s, Write(w, cl)) && Effect(cl).Some?
    ensures Inv(Step(s, Write(w, cl)))
  {
    var s' := Step(s, Write(w, cl));
    WellKeptStep(s.store, cl);
    WriteNotices(s, w, cl);
    assert Underway(s', cl);
    forall name ensures CachedOk(s', name) {
      assert CachedOk(s, name);
      WriteCached(s, s', cl, name);
    }
    WriteRebuild(s, s', cl);
  }

  lemma WriteCached(s: Sys, s': Sys, cl: ChangeLog, name: string)
    requires CachedOk(s, name) && WellFormed(cl)
    requires s'.store == Apply(s.store, cl) && s'.routers == s.routers && s'.consumer == s.consumer
    requires Underway(s', cl) && forall x :: Underway(s, x) ==> Underway(s', x)
    ensures CachedOk(s', name)
  {
    if name in s.routers {
      if !About(cl, name) {
        UnrelatedWrite(s.store, cl, name);
        if Agrees(s.store, name, s.routers[name]) {
          AgreesFrame(s.store, s'.store, name, s.routers[name]);
        }
      } else if !Deletes(cl, name) && Stored(s.store, name) {
        NamespaceStays(s.store, cl, name);
      }
    }
  }

  lemma WriteRebuild(s: Sys, s': Sys, cl: ChangeLog)
    requires RebuildOk(s) && WellFormed(cl)
    requires s'.store == Apply(s.store, cl) && s'.consumer == s.consumer
    requires Underway(s', cl) && forall x :: Underway(s, x) ==> Underway(s', x)
    ensures RebuildOk(s')
  {
    if Rebuilding(s.consumer) {
      var name := s.consumer.cl.namespace;
      if !About(cl, name) {
        UnrelatedWrite(s.store, cl, name);
        if UpToDate(s.store, s.consumer) {
          UpToDateFrame(s.store, s'.store, s.consumer);
        }
      } else if !Deletes(cl, name) && Stored(s.store, name) {
        NamespaceStays(s.store, cl, name);
      }
    }
  }

  lemma SendKeeps(s: Sys, w: nat)
    requires Inv(s) && CanStep(s, Send(w))
    ensures Inv(Step(s, Send(w)))
  {
    var s' := Step(s, Send(w));
    SendNotices(s, w);
    SameNotices(s, s');
  }

  lemma SendNotices(s: Sys, w: nat)
    requires w in s.sending
    ensures var s' := s.(queue := s.queue + [s.sending[w]], sending := s.sending - {w});
            forall x :: Underway(s', x) <==> Underway(s, x)
  {
    var s' := s.(queue := s.queue + [s.sending[w]], sending := s.sending - {w});
    forall x ensures Underway(s', x) <==> Underway(s, x) {
      if x in s.sending.Values {
        var v :| v in s.sending && s.sending[v] == x;
        if v != w { assert s'.sending[v] == x; }
      }
    }
  }

  lemma SameNotices(s: Sys, s': Sys)
    requires Inv(s) && s'.store == s.store && s'.routers == s.routers && s'.consumer == s.consumer
    requires forall x :: Underway(s', x) <==> Underway(s, x)
    ensures Inv(s')
  {
    forall name ensures Pending(s', name) <==> Pending(s, name)
                ensures PendingDelete(s', name) <==> PendingDelete(s, name) {
    }
    forall name ensures CachedOk(s', name) {
      assert CachedOk(s, name);
    }
  }

  // ----- the consumer -----

  lemma ReceiveKeeps(s: Sys, visit: Option<string>)
    requires Inv(s) && CanStep(s, Consume(visit)) && s.consumer.Idle?
    ensures Inv(Consumed(s, visit))
  {
    var s', cl := Consumed(s, visit), s.queue[0];
    assert Underway(s, cl);
    forall x ensures Underway(s', x) ==> Underway(s, x)
             ensures Underway(s, x) ==> Underway(s', x) || x == cl {
      if x in s.queue && x != cl {
        var i :| 0 <= i < |s.queue| && s.queue[i] == x;
        assert s.queue[1..][i - 1] == x;
      }
    }
    forall name ensures CachedOk(s', name) {
      assert CachedOk(s, name);
      ReceiveCached(s, s', cl, name);
    }
  }

  lemma ReceiveCached(s: Sys, s': Sys, cl: ChangeLog, name: string)
    requires CachedOk(s, name) && s.consumer.Idle? && s'.consumer == Received(cl)
    requires s'.store == s.store && s'.routers == s.routers
    requires forall x :: Underway(s, x) ==> Underway(s', x) || x == cl
    ensures CachedOk(s', name)
  {
    if name in s.routers {
      if Pending(s, name) {
        var x :| Underway(s, x) && About(x, name);
        assert x == cl || Underway(s', x);
      }
      if PendingDelete(s, name) {
        var x :| Underway(s, x) && Deletes(x, name);
        assert x == cl || Underway(s', x);
      }
    }
  }

  /** A consumer step that only moves the consumer on inside a rebuild of `name`, or ends it without a router. */
  lemma MovesOn(s: Sys, s': Sys)
    requires Inv(s) && !s.consumer.Idle? && !s.consumer.DropRouter?
    requires s' == s.(consumer := s'.consumer) && RebuildOk(s')
    requires if s'.consumer.Idle? then !Stored(s.store, s.consumer.cl.namespace)
             else Rebuilding(s'.consumer) && s'.consumer.cl == s.consumer.cl
    ensures Inv(s')
  {
    forall x ensures Underway(s', x) <==> Underway(s, x) {
    }
    forall name ensures CachedOk(s', name) {
      assert CachedOk(s, name);
      MovesOnCached(s, s', name);
    }
  }

  lemma MovesOnCached(s: Sys, s': Sys, name: string)
    requires CachedOk(s, name) && Shape(s.consumer) && !s.consumer.Idle? && !s.consumer.DropRouter?
    requires s' == s.(consumer := s'.consumer)
    requires if s'.consumer.Idle? then !Stored(s.store, s.consumer.cl.namespace)
             else Rebuilding(s'.consumer) && s'.consumer.cl == s.consumer.cl
    ensures CachedOk(s', name)
  {
    if name in s.routers {
      if Pending(s, name) {
        var x :| Underway(s, x) && About(x, name);
        assert Underway(s', x);
      }
      if PendingDelete(s, name) {
        var x :| Underway(s, x) && Deletes(x, name);
        assert Underway(s', x) && About(x, name);
      }
    }
  }

  /** The pending notifications are the same when only the consumer moves. */
  lemma PendingKept(s: Sys, s': Sys, name: string)
    requires s'.queue == s.queue && s'.sending == s.sending
    ensures Pending(s, name) ==> Pending(s', name)
    ensures PendingDelete(s, name) ==> PendingDelete(s', name)
  {
    if Pending(s, name) {
      var x :| Underway(s, x) && About(x, name);
      assert Underway(s', x);
    }
    if PendingDelete(s, name) {
      var x :| Underway(s, x) && Deletes(x, name);
      assert Underway(s', x);
    }
  }

  lemma NamespaceKeeps(s: Sys, visit: Option<string>)
    requires Inv(s) && CanStep(s, Consume(visit)) && s.consumer.ReadNamespace?
    ensures Inv(Consumed(s, visit))
  {
    var name := s.consumer.cl.namespace;
    if Stored(s.store, name) {
      assert KeyOf(s.store[Key(Namespaces, name)]) == Key(Namespaces, name);
    }
    MovesOn(s, Consumed(s, visit));
  }

  lemma StartKeeps(s: Sys, visit: Option<string>)
    requires Inv(s) && CanStep(s, Consume(visit)) && s.consumer.StartListing?
    ensures Inv(Consumed(s, visit))
  {
    var s', name := Consumed(s, visit), s.consumer.cl.namespace;
    assert forall key :: key in Under(s.store, name) ==> StartsWith(key, name + ":");
    assert UpToDate(s.store, s'.consumer);
    PendingKept(s, s', name);
    MovesOn(s, s');
  }

  lemma ListKeeps(s: Sys, visit: Option<string>)
    requires Inv(s) && CanStep(s, Consume(visit)) && s.consumer.ListRoutes?
    ensures Inv(Consumed(s, visit))
  {
    var s', name, c := Consumed(s, visit), s.consumer.cl.namespace, s.consumer;
    ListShape(s, visit);
    if UpToDate(s.store, c) {
      if visit.None? {
        ListedAll(s.store, name, c.ns, c.seen, c.routes);
      } else {
        ListedOneMore(s.store, name, c.due, c.seen, c.routes, visit.value);
      }
    }
    PendingKept(s, s', name);
    MovesOn(s, s');
  }

  lemma ListShape(s: Sys, visit: Option<string>)
    requires CanStep(s, Consume(visit)) && s.consumer.ListRoutes?
    ensures Shape(Consumed(s, visit).consumer)
  {
    if visit.Some? {
      var name := s.consumer.cl.namespace;
      assert visit.value in s.consumer.due ==> visit.value in s.consumer.due + s.consumer.seen;
      assert visit.value in Under(s.store, name) ==> StartsWith(visit.value, name + ":");
      forall key | key in (s.consumer.due - {visit.value}) + (s.consumer.seen + {visit.value})
        ensures StartsWith(key, name + ":")
      {
        assert key == visit.value || key in s.consumer.due + s.consumer.seen;
      }
    }
  }

  lemma ListedOneMore(s: Store, name: string, due: set<string>, seen: set<string>, routes: seq<Route>, key: string)
    requires WellKept(s) && Listed(s, name, due, seen, routes) && key !in seen
    ensures var r := RouteRow(s, key);
            Listed(s, name, due - {key}, seen + {key}, if r.Some? then routes + [r.value] else routes)
  {
    var row := RouteRow(s, key);
    var longer := if row.Some? then routes + [row.value] else routes;
    forall r ensures r in longer <==> exists x :: x in seen + {key} && RouteRow(s, x) == Some(r) {
      if r in longer {
        if r in routes {
          var x :| x in seen && RouteRow(s, x) == Some(r);
          assert x in seen + {key};
        } else {
          assert key in seen + {key} && RouteRow(s, key) == Some(r);
        }
      }
    }
    forall x | x in seen && row.Some? ensures RouteRow(s, x) != row {
      if RouteRow(s, x).Some? { SameRouteSameKey(s, x, key); }
    }
  }

  lemma SameRouteSameKey(s: Store, x: string, y: string)
    requires WellKept(s) && RouteRow(s, x).Some? && x != y
    ensures RouteRow(s, x) != RouteRow(s, y)
  {
    assert KeyOf(s[Key(Routes, x)]) == Key(Routes, x);
    assert RouteRow(s, y).Some? ==> KeyOf(s[Key(Routes, y)]) == Key(Routes, y);
  }

  /** A finished listing that nothing interfered with is the stored routes, each once. */
  lemma ListedAll(s: Store, name: string, ns: Namespace, seen: set<string>, routes: seq<Route>)
    requires WellKept(s) && Listed(s, name, {}, seen, routes) && forall key :: key in seen ==> StartsWith(key, name + ":")
    ensures Progress(s, name, ns, routes, [])
  {
    forall r ensures IsRouteOf(s, name, r) <==> r in routes {
      if IsRouteOf(s, name, r) {
        var k :| k in s && k.table == Routes && StartsWith(k.name, name + ":") && s[k] == RouteItem(r);
        assert k == Key(Routes, k.name) && k.name in Under(s, name);
        assert k.name in seen && RouteRow(s, k.name) == Some(r);
      }
      if r in routes {
        var key :| key in seen && RouteRow(s, key) == Some(r);
        assert Key(Routes, key) in s && s[Key(Routes, key)] == RouteItem(r);
      }
    }
  }

  lemma {:induction false} CompileKeeps(s: Sys, visit: Option<string>)
    requires Inv(s) && CanStep(s, Consume(visit))
    requires s.consumer.ReadModule? || (s.consumer.ReadService? && |s.consumer.done| < |s.consumer.routes|)
    ensures Inv(Consumed(s, visit))
  {
    var s', name := Consumed(s, visit), s.consumer.cl.namespace;
    if UpToDate(s.store, s.consumer) {
      StaysUpToDate(s, visit);
    }
    PendingKept(s, s', name);
    MovesOn(s, s');
  }

  lemma StaysUpToDate(s: Sys, visit: Option<string>)
    requires CanStep(s, Consume(visit)) && UpToDate(s.store, s.consumer)
    requires s.consumer.ReadModule? || (s.consumer.ReadService? && |s.consumer.done| < |s.consumer.routes|)
    ensures Shape(Consumed(s, visit).consumer) && UpToDate(s.store, Consumed(s, visit).consumer)
  {
    if s.consumer.ReadModule? {
      if s.consumer.read == |s.consumer.routes[|s.consumer.done|].modules| {
        RouteCompiled(s, visit);
      } else {
        ModuleRead(s, visit);
      }
    }
  }

  /** After its last module a route has been compiled as the store has it. */
  lemma RouteCompiled(s: Sys, visit: Option<string>)
    requires CanStep(s, Consume(visit)) && s.consumer.ReadModule? && UpToDate(s.store, s.consumer)
    requires s.consumer.read == |s.consumer.routes[|s.consumer.done|].modules|
    ensures Shape(Consumed(s, visit).consumer) && UpToDate(s.store, Consumed(s, visit).consumer)
  {
    var r := s.consumer.routes[|s.consumer.done|];
    assert r.modules[..s.consumer.read] == r.modules;
  }

  lemma ModuleRead(s: Sys, visit: Option<string>)
    requires CanStep(s, Consume(visit)) && s.consumer.ReadModule? && UpToDate(s.store, s.consumer)
    requires s.consumer.read < |s.consumer.routes[|s.consumer.done|].modules|
    ensures Shape(Consumed(s, visit).consumer) && UpToDate(s.store, Consumed(s, visit).consumer)
  {
    var r := s.consumer.routes[|s.consumer.done|];
    assert r.modules[..s.consumer.read + 1][..s.consumer.read] == r.modules[..s.consumer.read];
  }

  /** The finished router agrees with the store, or it will be rebuilt. */
  lemma {:induction false} InsertKeeps(s: Sys, visit: Option<string>)
    requires Inv(s) && CanStep(s, Consume(visit)) && s.consumer.ReadService? && |s.consumer.done| == |s.consumer.routes|
    ensures Inv(Consumed(s, visit))
  {
    var s', c := Consumed(s, visit), s.consumer;
    var router := Router(c.ns, c.done);
    if UpToDate(s.store, c) {
      FinishedAgrees(s.store, c.cl.namespace, c.ns, c.routes, c.done);
    }
    forall name ensures CachedOk(s', name) {
      assert CachedOk(s, name);
      PendingKept(s, s', name);
    }
    assert forall x :: Underway(s', x) <==> Underway(s, x);
  }

  lemma FinishedAgrees(s: Store, name: string, ns: Namespace, routes: seq<Route>, done: seq<CompiledRoute>)
    requires Progress(s, name, ns, routes, done) && |done| == |routes| && ns.name == name
    ensures Agrees(s, name, Router(ns, done))
  {
    forall c | c in done ensures RouteAgrees(s, name, c) {
      var i :| 0 <= i < |done| && done[i] == c;
    }
    forall r | IsRouteOf(s, name, r) ensures exists c :: c in done && c.route == r {
      var i :| 0 <= i < |routes| && routes[i] == r;
      assert done[i] in done;
    }
  }

  lemma {:induction false} DropKeeps(s: Sys, visit: Option<string>)
    requires Inv(s) && CanStep(s, Consume(visit)) && s.consumer.DropRouter?
    ensures Inv(Consumed(s, visit))
  {
    var s' := Consumed(s, visit);
    forall name ensures CachedOk(s', name) {
      assert CachedOk(s, name);
      PendingKept(s, s', name);
    }
    assert forall x :: Underway(s', x) <==> Underway(s, x);
  }

  /** Every step keeps the invariant. */
  lemma {:induction false} StepKeeps(s: Sys, e: Event)
    requires Inv(s) && CanStep(s, e)
    ensures Inv(Step(s, e))
  {
    match e
    case Write(w, cl) => if Effect(cl).Some? { WriteKeeps(s, w, cl); }
    case Send(w) => SendKeeps(s, w);
    case Consume(visit) =>
      match s.consumer {
        case Idle => ReceiveKeeps(s, visit);
        case ReadNamespace(_) => NamespaceKeeps(s, visit);
        case StartListing(_, _) => StartKeeps(s, visit);
        case ListRoutes(_, _, _, _, _) => ListKeeps(s, visit);
        case ReadService(_, _, routes, done) =>
          if |done| == |routes| { InsertKeeps(s, visit); } else { CompileKeeps(s, visit); }
        case ReadModule(_, _, _, _, _, _, _) => CompileKeeps(s, visit);
        case DropRouter(_) => DropKeeps(s, visit);
      }
  }

  lemma {:induction false} EveryRun(s: Sys, run: seq<Event>)
    requires Init(s) && Runs(s, run)
    ensures Inv(Exec(s, run))
    decreases |run|
  {
    if run != [] {
      EveryRun(s, run[..|run| - 1]);
      StepKeeps(Exec(s, run[..|run| - 1]), run[|run| - 1]);
    }
  }

  // ----- what it means -----

  /** In every interleaving, each cached router agrees with the store or a notification about its namespace is in
      flight, queued or being handled; and a cached router whose namespace is gone has its deletion still to
      be handled. */
  lemma {:induction false} CachedRouters(s: Sys, run: seq<Event>, name: string)
    requires Init(s) && Runs(s, run) && name in Exec(s, run).routers
    ensures var t := Exec(s, run);
            && ((Stored(t.store, name) && Agrees(t.store, name, t.routers[name])) || Pending(t, name)
                || (!t.consumer.Idle? && About(t.consumer.cl, name)))
            && (!Stored(t.store, name) ==>
                  PendingDelete(t, name) || (t.consumer.DropRouter? && t.consumer.cl.name == name))
  {
    EveryRun(s, run);
    assert CachedOk(Exec(s, run), name);
  }

  /** Once every notification has been handled, every cached router is the compiled form of its stored routes. */
  lemma {:induction false} QuietAgrees(s: Sys, run: seq<Event>, name: string)
    requires Init(s) && Runs(s, run) && name in Exec(s, run).routers
    requires Exec(s, run).queue == [] && Exec(s, run).sending == map[] && Exec(s, run).consumer.Idle?
    ensures Stored(Exec(s, run).store, name) && Agrees(Exec(s, run).store, name, Exec(s, run).routers[name])
  {
    CachedRouters(s, run, name);
    assert forall cl :: !Underway(Exec(s, run), cl);
  }

  // ----- the queue drains -----

  /** The steps one row of a listing can cost: the visit, and if it is a route the reads that compile it. */
  function RowCost(s: Store, key: string): nat {
    var r := RouteRow(s, key);
    if r.Some? then 3 + |r.value.modules| else 1
  }

  ghost function RowCosts(s: Store, keys: set<string>): nat {
    if keys == {} then 0
    else
      var key :| key in keys;
      RowCost(s, key) + RowCosts(s, keys - {key})
  }

  lemma {:induction false} RowCostsStep(s: Store, keys: set<string>, key: string)
    requires key in keys
    ensures RowCosts(s, keys) == RowCost(s, key) + RowCosts(s, keys - {key})
    decreases |keys|
  {
    var first :| first in keys && RowCosts(s, keys) == RowCost(s, first) + RowCosts(s, keys - {first});
    if first != key {
      RowCostsStep(s, keys - {first}, key);
      RowCostsStep(s, keys - {key}, first);
      assert keys - {first} - {key} == keys - {key} - {first};
    }
  }

  function WorkFrom(routes: seq<Route>, i: nat): nat
    decreases |routes| - i
  {
    if i >= |routes| then 0 else 2 + |routes[i].modules| + WorkFrom(routes, i + 1)
  }

  lemma {:induction false} WorkOn(routes: seq<Route>, r: Route, i: nat)
    requires i <= |routes|
    ensures WorkFrom(routes + [r], i) == WorkFrom(routes, i) + 2 + |r.modules|
    decreases |routes| - i
  {
    if i < |routes| {
      WorkOn(routes, r, i + 1);
      assert (routes + [r])[i] == routes[i];
    } else {
      assert (routes + [r])[i] == r && WorkFrom(routes + [r], i + 1) == 0;
    }
  }

  /** The keys a listing may still visit. */
  function ToVisit(s: Store, c: Consumer): set<string>
    requires c.ListRoutes?
  {
    (c.due + Under(s, c.cl.namespace)) - c.seen
  }

  /** The most steps the consumer takes before it is idle, if nobody writes. */
  ghost function Remaining(s: Store, c: Consumer): nat
    requires Shape(c)
  {
    match c
    case Idle => 0
    case ReadNamespace(cl) => 4 + RowCosts(s, Under(s, cl.namespace))
    case StartListing(cl, _) => 3 + RowCosts(s, Under(s, cl.namespace))
    case ListRoutes(_, _, _, _, routes) => 2 + RowCosts(s, ToVisit(s, c)) + WorkFrom(routes, 0)
    case ReadService(_, _, routes, done) => 1 + WorkFrom(routes, |done|)
    case ReadModule(_, _, routes, done, _, _, read) => 2 + WorkFrom(routes, |done| + 1) + |routes[|done|].modules| - read
    case DropRouter(_) => 1
  }

  /** The most steps a notification takes from its receipt on. */
  ghost function Handling(s: Store, cl: ChangeLog): nat {
    1 + Remaining(s, Received(cl))
  }

  ghost function QueueCost(s: Store, queue: seq<ChangeLog>): nat {
    if queue == [] then 0 else Handling(s, queue[0]) + QueueCost(s, queue[1..])
  }

  ghost function SendingCost(s: Store, sending: map<nat, ChangeLog>): nat {
    if sending == map[] then 0
    else
      var w :| w in sending;
      1 + Handling(s, sending[w]) + SendingCost(s, sending - {w})
  }

  /** The most steps until everything is handled, if nobody writes. */
  ghost function Fuel(s: Sys): nat
    requires Shape(s.consumer)
  {
    SendingCost(s.store, s.sending) + QueueCost(s.store, s.queue) + Remaining(s.store, s.consumer)
  }

  lemma {:induction false} QueueOn(s: Store, queue: seq<ChangeLog>, cl: ChangeLog)
    ensures QueueCost(s, queue + [cl]) == QueueCost(s, queue) + Handling(s, cl)
    decreases |queue|
  {
    if queue == [] {
      assert queue + [cl] == [cl] && [cl][1..] == [];
    } else {
      QueueOn(s, queue[1..], cl);
      assert (queue + [cl])[1..] == queue[1..] + [cl];
    }
  }

  lemma SmallerMap(m: map<nat, ChangeLog>, w: nat)
    requires w in m
    ensures |m - {w}| < |m|
  {
    assert (m - {w}).Keys == m.Keys - {w};
    assert |m - {w}| == |(m - {w}).Keys| && |m| == |m.Keys|;
  }

  lemma {:induction false} SendingStep(s: Store, m: map<nat, ChangeLog>, w: nat)
    requires w in m
    ensures SendingCost(s, m) == 1 + Handling(s, m[w]) + SendingCost(s, m - {w})
    decreases |m|
  {
    var first :| first in m && SendingCost(s, m) == 1 + Handling(s, m[first]) + SendingCost(s, m - {first});
    if first != w {
      SmallerMap(m, first);
      SmallerMap(m, w);
      SendingStep(s, m - {first}, w);
      SendingStep(s, m - {w}, first);
      SwapKeys(m, first, w);
    }
  }

  lemma SwapKeys(m: map<nat, ChangeLog>, a: nat, b: nat)
    ensures m - {a} - {b} == m - {b} - {a}
  {
  }

  predicate Quiet(s: Sys) {
    s.queue == [] && s.sending == map[] && s.consumer.Idle?
  }

  predicate WithoutWrites(run: seq<Event>) {
    forall e :: e in run ==> !e.Write?
  }

  /** Every step but a write takes the system nearer to quiet, and leaves the store alone. */
  lemma StepBurns(s: Sys, e: Event)
    requires Inv(s) && CanStep(s, e) && !e.Write?
    ensures Shape(Step(s, e).consumer) && Step(s, e).store == s.store && Fuel(Step(s, e)) < Fuel(s)
  {
    StepKeeps(s, e);
    if e.Send? {
      SendingStep(s.store, s.sending, e.writer);
      QueueOn(s.store, s.queue, s.sending[e.writer]);
    } else {
      ConsumeBurns(s, e.visit);
    }
  }

  lemma ConsumeBurns(s: Sys, visit: Option<string>)
    requires CanStep(s, Consume(visit)) && Shape(Consumed(s, visit).consumer)
    ensures var s' := Consumed(s, visit);
            && s'.store == s.store && s'.sending == s.sending
            && QueueCost(s.store, s'.queue) + Remaining(s.store, s'.consumer) < QueueCost(s.store, s.queue) + Remaining(s.store, s.consumer)
  {
    match s.consumer
    case Idle =>
    case ReadNamespace(_) =>
    case StartListing(_, _) => StartBurns(s, visit);
    case ListRoutes(_, _, _, _, _) => ListBurns(s, visit);
    case ReadService(_, _, _, _) => ServiceBurns(s, visit);
    case ReadModule(_, _, _, _, _, _, _) => ModuleBurns(s, visit);
    case DropRouter(_) =>
  }

  lemma StartBurns(s: Sys, visit: Option<string>)
    requires CanStep(s, Consume(visit)) && s.consumer.StartListing?
    ensures var s' := Consumed(s, visit);
            && Shape(s'.consumer) && s' == s.(consumer := s'.consumer)
            && Remaining(s.store, s'.consumer) < Remaining(s.store, s.consumer)
  {
    var keys := Under(s.store, s.consumer.cl.namespace);
    assert keys + keys - {} == keys;
    assert ToVisit(s.store, Consumed(s, visit).consumer) == keys;
  }

  lemma ListBurns(s: Sys, visit: Option<string>)
    requires CanStep(s, Consume(visit)) && s.consumer.ListRoutes?
    ensures var s' := Consumed(s, visit);
            && Shape(s'.consumer) && s' == s.(consumer := s'.consumer)
            && Remaining(s.store, s'.consumer) < Remaining(s.store, s.consumer)
  {
    ListShape(s, visit);
    if visit.Some? {
      var key, c, c' := visit.value, s.consumer, Consumed(s, visit).consumer;
      assert key in ToVisit(s.store, c) && ToVisit(s.store, c') == ToVisit(s.store, c) - {key};
      RowCostsStep(s.store, ToVisit(s.store, c), key);
      var r := RouteRow(s.store, key);
      if r.Some? {
        WorkOn(c.routes, r.value, 0);
      }
    }
  }

  lemma ServiceBurns(s: Sys, visit: Option<string>)
    requires CanStep(s, Consume(visit)) && s.consumer.ReadService?
    ensures var s' := Consumed(s, visit);
            && Shape(s'.consumer) && s'.store == s.store && s'.sending == s.sending && s'.queue == s.queue
            && Remaining(s.store, s'.consumer) < Remaining(s.store, s.consumer)
  {
  }

  lemma ModuleBurns(s: Sys, visit: Option<string>)
    requires CanStep(s, Consume(visit)) && s.consumer.ReadModule?
    ensures var s' := Consumed(s, visit);
            && Shape(s'.consumer) && s'.store == s.store && s'.sending == s.sending && s'.queue == s.queue
            && Remaining(s.store, s'.consumer) < Remaining(s.store, s.consumer)
  {
  }

  /** A step that writes nothing is possible in every state that is not quiet. */
  lemma NextStep(s: Sys) returns (e: Event)
    requires Inv(s) && !Quiet(s)
    ensures CanStep(s, e) && !e.Write?
  {
    if s.sending != map[] {
      var w :| w in s.sending;
      e := Send(w);
    } else if s.consumer.ListRoutes? && s.consumer.due != {} {
      var key :| key in s.consumer.due;
      e := Consume(Some(key));
    } else {
      e := Consume(None);
    }
  }

  /** Once writing stops, every way to go on has a bounded length, and leaves the store as it is. */
  lemma {:induction false} WriteFreeEnds(s: Sys, run: seq<Event>, tail: seq<Event>)
    requires Init(s) && Runs(s, run) && Runs(s, run + tail) && WithoutWrites(tail)
    ensures Shape(Exec(s, run).consumer) && Shape(Exec(s, run + tail).consumer)
    ensures |tail| + Fuel(Exec(s, run + tail)) <= Fuel(Exec(s, run))
    ensures Exec(s, run + tail).store == Exec(s, run).store
    decreases |tail|
  {
    EveryRun(s, run);
    if tail == [] {
      assert run + tail == run;
    } else {
      var front, e := tail[..|tail| - 1], tail[|tail| - 1];
      assert (run + tail)[..|run + tail| - 1] == run + front && (run + tail)[|run + tail| - 1] == e;
      assert forall x :: x in front ==> x in tail;
      WriteFreeEnds(s, run, front);
      EveryRun(s, run + front);
      StepBurns(Exec(s, run + front), e);
    }
  }

  /** And it can only stop when every notification has been handled; then every cached router agrees with the store
      as it is. So whatever has happened and however the steps are ordered, the index becomes right. */
  lemma EventuallyAgrees(s: Sys, run: seq<Event>, tail: seq<Event>)
    requires Init(s) && Runs(s, run) && Runs(s, run + tail) && WithoutWrites(tail)
    requires forall e :: CanStep(Exec(s, run + tail), e) ==> e.Write?
    ensures Quiet(Exec(s, run + tail)) && Exec(s, run + tail).store == Exec(s, run).store
    ensures var t := Exec(s, run + tail);
            forall name :: name in t.routers ==> Stored(t.store, name) && Agrees(t.store, name, t.routers[name])
  {
    WriteFreeEnds(s, run, tail);
    EveryRun(s, run + tail);
    var t := Exec(s, run + tail);
    if !Quiet(t) {
      var e := NextStep(t);
      assert false;
    }
    forall name | name in t.routers ensures Stored(t.store, name) && Agrees(t.store, name, t.routers[name]) {
      QuietAgrees(s, run + tail, name);
    }
  }

  // ----- routers come into being -----

  /** Finishing a rebuild caches the router of its namespace, with the routes compiled, and leaves all the others. */
  lemma FinishCaches(s: Sys, visit: Option<string>)
    requires CanStep(s, Consume(visit)) && s.consumer.ReadService? && |s.consumer.done| == |s.consumer.routes|
    ensures var name, routers := s.consumer.cl.namespace, Step(s, Consume(visit)).routers;
            && name in routers && routers[name].routes == s.consumer.done && routers[name].namespace == s.consumer.ns
            && forall other :: other != name ==>
                 (other in routers <==> other in s.routers) && (other in routers ==> routers[other] == s.routers[other])
  {
  }

  /** Nothing else ever changes a cached router, but that handling a deletion removes the one of its namespace. */
  lemma OthersLeaveRouters(s: Sys, e: Event)
    requires CanStep(s, e)
    requires !(e.Consume? && s.consumer.ReadService? && |s.consumer.done| == |s.consumer.routes|)
    ensures Step(s, e).routers == if e.Consume? && s.consumer.DropRouter? then s.routers - {s.consumer.cl.name} else s.routers
  {
  }

  /** A notification that the router of this namespace has to be rebuilt is underway or being handled. */
  ghost predicate Coming(s: Sys, name: string) {
    || (exists cl :: Underway(s, cl) && Rebuilds(cl.cmd) && cl.namespace == name)
    || ((s.consumer.ReadNamespace? || Rebuilding(s.consumer)) && s.consumer.cl.namespace == name)
  }

  /** The namespace is stored and no deletion of it is underway or being handled. */
  ghost predicate Settled(s: Sys, name: string) {
    && Stored(s.store, name) && !PendingDelete(s, name)
    && !(s.consumer.DropRouter? && s.consumer.cl.name == name)
  }

  /** The namespace has a router, or will get one. */
  ghost predicate Promised(s: Sys, name: string) {
    Settled(s, name) && (name in s.routers || Coming(s, name))
  }

  /** Only a deletion of the namespace breaks the promise. */
  lemma {:induction false} PromiseKept(s: Sys, e: Event, name: string)
    requires Inv(s) && CanStep(s, e) && Promised(s, name) && (e.Write? ==> !Deletes(e.cl, name))
    ensures Promised(Step(s, e), name)
  {
    match e
    case Write(w, cl) =>
      if Effect(cl).Some? {
        WriteNotices(s, w, cl);
        NamespaceStays(s.store, cl, name);
      }
    case Send(w) =>
      SendNotices(s, w);
    case Consume(visit) => PromiseConsumed(s, visit, name);
  }

  lemma PromiseConsumed(s: Sys, visit: Option<string>, name: string)
    requires Inv(s) && CanStep(s, Consume(visit)) && Promised(s, name)
    ensures Promised(Consumed(s, visit), name)
  {
    if s.consumer.Idle? {
      PromiseReceived(s, visit, name);
    } else {
      var s' := Consumed(s, visit);
      assert forall cl :: Underway(s', cl) <==> Underway(s, cl);
      if s.consumer.ReadNamespace? && s.consumer.cl.namespace == name {
        NamespaceFound(s.store, name);
      }
    }
  }

  /** The row of a stored namespace is the namespace. */
  lemma NamespaceFound(s: Store, name: string)
    requires WellKept(s) && Stored(s, name)
    ensures NamespaceRow(s, name).Some?
  {
    assert KeyOf(s[Key(Namespaces, name)]) == Key(Namespaces, name);
  }

  lemma PromiseReceived(s: Sys, visit: Option<string>, name: string)
    requires Inv(s) && CanStep(s, Consume(visit)) && Promised(s, name) && s.consumer.Idle?
    ensures Promised(Consumed(s, visit), name)
  {
    var s', first := Consumed(s, visit), s.queue[0];
    assert forall cl :: Underway(s', cl) ==> Underway(s, cl);
    assert Underway(s, first);
    if cl :| Underway(s, cl) && Rebuilds(cl.cmd) && cl.namespace == name && cl != first {
      assert Underway(s', cl) by {
        if cl in s.queue { QueueRest(s.queue, cl); }
      }
    }
  }

  lemma QueueRest(queue: seq<ChangeLog>, cl: ChangeLog)
    requires cl in queue && cl != queue[0]
    ensures cl in queue[1..]
  {
  }

  lemma {:induction false} PromiseLasts(s: Sys, run: seq<Event>, tail: seq<Event>, name: string)
    requires Init(s) && Runs(s, run) && Runs(s, run + tail) && Promised(Exec(s, run), name)
    requires forall e :: e in tail && e.Write? ==> !Deletes(e.cl, name)
    ensures Promised(Exec(s, run + tail), name)
    decreases |tail|
  {
    if tail == [] {
      assert run + tail == run;
    } else {
      var front, e := tail[..|tail| - 1], tail[|tail| - 1];
      assert (run + tail)[..|run + tail| - 1] == run + front && (run + tail)[|run + tail| - 1] == e;
      assert forall x :: x in front ==> x in tail;
      PromiseLasts(s, run, front, name);
      EveryRun(s, run + front);
      assert e in tail;
      PromiseKept(Exec(s, run + front), e, name);
    }
  }

  /** An accepted write about the routes, services or modules of a stored namespace promises a router. */
  lemma WritePromises(s: Sys, w: nat, cl: ChangeLog, name: string)
    requires Inv(s) && CanStep(s, Write(w, cl)) && Settled(s, name)
    requires Effect(cl).Some? && cl.namespace == name
    requires cl.cmd in {AddRoute, DeleteRoute, AddService, DeleteService, AddModule, DeleteModule}
    ensures Promised(Step(s, Write(w, cl)), name)
  {
    WriteNotices(s, w, cl);
    NamespaceStays(s.store, cl, name);
    assert Underway(Step(s, Write(w, cl)), cl);
  }

  /** After a write about a stored namespace whose deletion nobody is after, and none since, the namespace has a router
      as soon as everything is handled, and a request for it finds a route if and only if a stored row serves it. */
  lemma ServedAfterWrite(s: Sys, run: seq<Event>, w: nat, cl: ChangeLog, tail: seq<Event>, path: string, verb: string)
    requires Init(s) && RoutesColonFree(s.store)
    requires Runs(s, run) && Runs(s, run + [Write(w, cl)]) && Runs(s, run + [Write(w, cl)] + tail)
    requires Settled(Exec(s, run), cl.namespace) && Effect(cl).Some?
    requires cl.cmd in {AddRoute, DeleteRoute, AddService, DeleteService, AddModule, DeleteModule}
    requires forall e :: e in tail && e.Write? ==> !Deletes(e.cl, cl.namespace)
    requires Quiet(Exec(s, run + [Write(w, cl)] + tail))
    ensures var t, name := Exec(s, run + [Write(w, cl)] + tail), cl.namespace;
            && name in t.routers
            && ((exists c :: c in t.routers[name].routes && Matches(c, path, verb)) <==>
                exists row :: RowServes(t.store, name, row, path, verb))
  {
    var all := run + [Write(w, cl)];
    assert all[..|all| - 1] == run;
    EveryRun(s, run);
    WritePromises(Exec(s, run), w, cl, cl.namespace);
    PromiseLasts(s, all, tail, cl.namespace);
    var t := Exec(s, all + tail);
    assert forall x :: !Underway(t, x);
    QuietAgrees(s, all + tail, cl.namespace);
    EveryRun(s, all + tail);
    ColonFreeRun(s, all + tail);
    FoundIffRow(t.store, cl.namespace, t.routers[cl.namespace], path, verb);
  }

  lemma {:induction false} ColonFreeRun(s: Sys, run: seq<Event>)
    requires Init(s) && RoutesColonFree(s.store) && Runs(s, run)
    ensures RoutesColonFree(Exec(s, run).store)
    decreases |run|
  {
    if run != [] {
      var front, e := run[..|run| - 1], run[|run| - 1];
      ColonFreeRun(s, front);
      if e.Write? {
        RoutesColonFreeStep(Exec(s, front).store, e.cl);
      }
    }
  }
}
