/** How far convergence reaches: when a state is quiet under every reading, and what one cycle cannot do. */
module Limits {
  import opened Strings
  import opened Types
  import opened Serve
  import opened ServeStatus
  import opened Desired
  import opened AddPhase
  import opened Reconcile
  import opened Cycle
  import opened Client
  import opened Convergence
  import Declarations

  // ---- readings ----

  ghost function SomeMount(handlers: map<string, string>): (r: (string, string))
    ensures MountRead(handlers, r.0, r.1)
  {
    if p :| Proxied(handlers, p) then (p, handlers[p]) else ("", "")
  }

  /** One of the ways an endpoint may be read. */
  ghost function SomeReading(serve: ServeMap, e: Endpoint): (view: ServiceEndpoint)
    requires e in serve
    ensures ReadingOf(serve, e, view)
  {
    if serve[e].Tcp? then ViewOf(e, serve[e])
    else
      assert Overlaps(serve, e, e);
      var (path, destination) := SomeMount(serve[e].handlers);
      ServiceEndpoint(e.name, e.port, KindOf(serve[e]), path, destination, 0)
  }

  /** Any reading of one endpoint is part of a reading of the whole configuration. */
  lemma ReadableWith(serve: ServeMap, e: Endpoint, view: ServiceEndpoint) returns (current: Current)
    requires ColonFree(serve) && e in serve && IsManaged(e.name) && ReadingOf(serve, e, view)
    ensures Readable(serve, current) && KeyOf(e) in current && current[KeyOf(e)] == view
  {
    hide ReadingOf, IsManaged, ColonFree;
    current := map key | key in ManagedKeys(serve) ::
      if key == KeyOf(e) then view else SomeReading(serve, EndpointAt(serve, key));
    forall b | b in serve && IsManaged(b.name) ensures KeyOf(b) in current && ReadingOf(serve, b, current[KeyOf(b)]) {
      ViewAt(serve, b);
      ViewAt(serve, e);
    }
  }

  // ---- quiet under every reading ----

  lemma LegibleIsQuiet(desired: Services, serve: ServeMap)
    requires ValidDesired(desired) && ColonFree(serve)
    requires forall e | IsDesired(desired, e) :: AsDeclared(desired, serve, e) && LegibleAt(serve, e)
    ensures NothingToAdd(desired, serve)
  {
    hide ColonFree, AsDeclared, LegibleAt, Readable, NeedsAdd, DesiredMap, ValidDesired;
    forall current | Readable(serve, current) ensures ToAdd(current, DesiredMap(desired)) == map[] {
      forall key | key in DesiredMap(desired) ensures !NeedsAdd(current, key, DesiredMap(desired)[key]) {
        EndpointIsDesired(desired, key);
        var e := EndpointOf(DesiredMap(desired)[key]);
        NeedsAddMeansDifferent(desired, serve, current, e);
      }
    }
  }

  lemma QuietIsLegible(desired: Services, serve: ServeMap, e: Endpoint)
    requires ValidDesired(desired) && ColonFree(serve) && NothingToAdd(desired, serve)
    requires IsDesired(desired, e) && AsDeclared(desired, serve, e)
    requires forall b | b in serve && b.name == e.name :: Canonical(serve[b])
    ensures LegibleAt(serve, e)
  {
    DesiredIsPlain(desired, e);
    var svc := DesiredMap(desired)[KeyOf(e)];
    hide ColonFree, Canonical, ConfigOf, ValidService, DesiredMap, ServiceConfigChanged, ReadingOf, Readable;
    FlapsIff(serve, e, svc);
    forall view | ReadingOf(serve, e, view) ensures !ServiceConfigChanged(view, svc) {
      var current := ReadableWith(serve, e, view);
      assert KeyOf(e) !in ToAdd(current, DesiredMap(desired));
    }
  }

  /** Every desired endpoint that is served can be read in one way. */
  ghost predicate DesiredLegible(desired: Services, serve: ServeMap) {
    forall e | e in serve && IsDesired(desired, e) :: LegibleAt(serve, e)
  }

  /**
   * Legibility is what quiet means: with everything desired served as declared in canonical form, no reading makes a
   * cycle add anything if and only if every desired endpoint can be read in one way. Otherwise some cycle rewrites
   * an endpoint that was in order.
   */
  lemma QuietIffLegible(desired: Services, serve: ServeMap)
    requires ValidDesired(desired) && ColonFree(serve)
    requires forall e | e in serve && IsManaged(e.name) :: Canonical(serve[e])
    requires forall e | IsDesired(desired, e) :: AsDeclared(desired, serve, e)
    ensures NothingToAdd(desired, serve) <==> DesiredLegible(desired, serve)
  {
    hide ColonFree, Canonical, LegibleAt, NothingToAdd, IsDesired, ValidDesired, IsManaged, DesiredConfig;
    if NothingToAdd(desired, serve) {
      forall e | e in serve && IsDesired(desired, e) ensures LegibleAt(serve, e) {
        DesiredIsPlain(desired, e);
        QuietIsLegible(desired, serve, e);
      }
    }
    if DesiredLegible(desired, serve) {
      LegibleIsQuiet(desired, serve);
    }
  }

  // ---- what may stay ----

  /** A web port that has the declared mount, and perhaps others. */
  ghost predicate HasDeclaredMount(serve: ServeMap, e: Endpoint, svc: ContainerService) {
    && e in serve && serve[e].Web? && KindOf(serve[e]) == svc.serviceProtocol
    && var path := NormalizeServicePath(svc.servicePath);
       path in serve[e].handlers && serve[e].handlers[path] == BuildDestination(svc)
  }

  lemma DeclaredMountReads(serve: ServeMap, e: Endpoint, svc: ContainerService) returns (view: ServiceEndpoint)
    requires HasDeclaredMount(serve, e, svc) && ValidService(svc)
    ensures ReadingOf(serve, e, view) && !ServiceConfigChanged(view, svc)
    ensures view.serviceName == e.name
  {
    var path := NormalizeServicePath(svc.servicePath);
    view := ServiceEndpoint(e.name, e.port, KindOf(serve[e]), path, BuildDestination(svc), 0);
    assert Overlaps(serve, e, e) && Proxied(serve[e].handlers, path);
    assert MountRead(serve[e].handlers, view.path, view.destination);
  }

  lemma EmptyCycle(desired: Services, ignored: set<string>, current: Current, m: Moment)
    requires Readable(m.host.serve, current)
    requires ToAdd(current, DesiredMap(desired)) == map[]
    requires ToRemove(current, DesiredMap(desired), ConflictedNames(desired), ignored) == map[]
    requires var dm, frozen := DesiredMap(desired), ConflictedNames(desired);
             ToAdvertise(current, dm, Some(m.host.advertised), frozen, ignored) == {}
    ensures IsCycle(desired, ignored, m, m)
  {
    hide DesiredMap, ConflictedNames, ToAdd, ToRemove, ToAdvertise, Readable, Progress, PathsToRemove;
    var toAdd, paths := ToAdd(current, DesiredMap(desired)), PathsToRemove(current, DesiredMap(desired));
    NothingRemoved(m.host);
    assert RemoveNames(map[]) == {} && toAdd.Keys == {};
    StartProgress(m.host.serve, toAdd, paths);
    NobodyAdvertised(m.host, toAdd);
    assert m.host.advertised + {} == m.host.advertised;
    assert OnlyAdvertises(m.log, m.log, {});
    assert CycleFrom(desired, ignored, current, m, m);
  }

  lemma NobodyMissing(
    desired: Services, ignored: set<string>, serve: ServeMap, current: Current, advertised: set<string>)
    requires ValidDesired(desired) && ColonFree(serve) && Readable(serve, current)
    requires AllAdvertised(desired, ignored, advertised)
    ensures ToAdvertise(current, DesiredMap(desired), Some(advertised), ConflictedNames(desired), ignored) == {}
  {
    hide DesiredMap, ConflictedNames, NormalizeServiceName, ReadingOf, ServiceConfigChanged, ValidDesired, ColonFree;
    forall key | key in DesiredMap(desired) && key in current
      ensures !LacksAdvertisement(current, Some(advertised), ConflictedNames(desired), ignored, key)
    {
      EndpointIsDesired(desired, key);
      var e := EndpointOf(DesiredMap(desired)[key]);
      DesiredIsPlain(desired, e);
      ReadingHasKey(serve, current, e);
    }
  }

  /**
   * One mount per web port is needed as well: next to the declared mount any number of others may stay for ever,
   * since a cycle that happens to read the declared one finds nothing to do.
   */
  lemma ExtraMountsMayStay(desired: Services, ignored: set<string>, m: Moment, e: Endpoint)
    requires ValidDesired(desired) && ColonFree(m.host.serve) && AllAdvertised(desired, ignored, m.host.advertised)
    requires forall name :: !StaleName(desired, ignored, m.host.serve, name)
    requires IsDesired(desired, e) && HasDeclaredMount(m.host.serve, e, DesiredMap(desired)[KeyOf(e)])
    requires forall b | IsDesired(desired, b) && b != e ::
               AsDeclared(desired, m.host.serve, b) && LegibleAt(m.host.serve, b)
    ensures IsCycle(desired, ignored, m, m)
  {
    var serve := m.host.serve;
    DesiredIsPlain(desired, e);
    hide ValidDesired, ColonFree, AllAdvertised, StaleName, HasDeclaredMount, LegibleAt, IsManaged, Readable,
         DesiredMap, ServiceConfigChanged, ReadingOf, ConflictedNames, ToRemove, RemoveNames, DesiredConfig;
    var view := DeclaredMountReads(serve, e, DesiredMap(desired)[KeyOf(e)]);
    var current := ReadableWith(serve, e, view);
    NobodyMissing(desired, ignored, serve, current, m.host.advertised);
    forall key | key in DesiredMap(desired) ensures !NeedsAdd(current, key, DesiredMap(desired)[key]) {
      EndpointIsDesired(desired, key);
      var b := EndpointOf(DesiredMap(desired)[key]);
      if b != e {
        NeedsAddMeansDifferent(desired, serve, current, b);
      }
    }
    forall name
      ensures name !in RemoveNames(ToRemove(current, DesiredMap(desired), ConflictedNames(desired), ignored))
    {
      RemovedIffStale(desired, ignored, serve, current, name);
    }
    NothingNamed(ToRemove(current, DesiredMap(desired), ConflictedNames(desired), ignored));
    EmptyCycle(desired, ignored, current, m);
  }

  lemma NothingNamed(toRemove: Current)
    requires forall name :: name !in RemoveNames(toRemove)
    ensures toRemove == map[]
  {
    forall key ensures key !in toRemove {
      assert key in toRemove ==> toRemove[key].serviceName in RemoveNames(toRemove);
    }
  }

  // ---- one cycle is not enough ----

  /** A port of the service "web" of one container, forwarded to the same port of the container. */
  function WebPort(port: string, kind: string): ContainerService {
    ContainerService(
      "app", true, "web", "", port, port, kind, "", "http", [], "10.0.0.1", 0, false, "", "", "", "", "")
  }

  function WebEndpoint(port: string): Endpoint {
    EndpointOf(WebPort(port, "http"))
  }

  /** Two ports such as 80 and 81, which cannot be taken for each other. */
  ghost predicate Apart(p: string, q: string) {
    && ':' !in p && ':' !in q && '/' !in p && '/' !in q
    && !(p <= q) && !(q <= p)
  }

  lemma NoScheme(host: string, port: string)
    requires ':' !in host && ':' !in port && '/' !in port
    ensures !Contains(host + ":" + port, "://")
  {
    var s := host + ":" + port;
    forall i: nat ensures !OccursAt(s, "://", i) {
      if i + 3 <= |s| {
        assert s[i..i + 3][0] == s[i] && s[i..i + 3][1] == s[i + 1];
        assert i < |host| ==> s[i] == host[i];
        assert i == |host| ==> s[i + 1] == port[0];
        assert i > |host| ==> s[i] == port[i - |host| - 1];
      }
    }
  }

  lemma WebPortIsValid(port: string, kind: string)
    requires ':' !in port && '/' !in port && kind in {"http", "tcp"}
    ensures ValidService(WebPort(port, kind)) && EndpointOf(WebPort(port, kind)) == WebEndpoint(port)
    ensures IsManaged(WebEndpoint(port).name) && ServeAddArgs(WebPort(port, kind)).Success?
  {
    NoScheme("10.0.0.1", port);
  }

  lemma WebConfig(port: string)
    requires ServeAddArgs(WebPort(port, "http")).Success?
    ensures var c := ConfigOf(WebPort(port, "http"));
            c.Web? && KindOf(c) == "http" && PathOf(c.handlers) == NormalizeServicePath("")
  {
    var c := ConfigOf(WebPort(port, "http"));
    var d := BuildDestination(WebPort(port, "http"));
    assert c.handlers == map["/" := d];
    assert |map["/" := d]| == 1;
    OneMount(c.handlers, "/");
  }

  lemma PortsMakeKeys(a: ContainerService, b: ContainerService)
    requires a.serviceName == b.serviceName
    ensures Declarations.OwnKey(a) == Declarations.OwnKey(b) <==> a.port == b.port
  {
    var prefix := a.serviceName + ":";
    assert Declarations.OwnKey(a) == prefix + a.port && Declarations.OwnKey(b) == prefix + b.port;
    if prefix + a.port == prefix + b.port {
      PrefixCancels(prefix, a.port, b.port);
    }
  }

  lemma EndpointsApart(p: string, q: string)
    requires Apart(p, q)
    ensures KeyOf(WebEndpoint(p)) != KeyOf(WebEndpoint(q))
  {
    if KeyOf(WebEndpoint(p)) == KeyOf(WebEndpoint(q)) {
      KeyInjective(WebEndpoint(p), WebEndpoint(q));
    }
  }

  /** What a list of one or two such ports makes desired. */
  lemma WebPortsAreDesired(desired: Services)
    requires forall i, j | 0 <= i < j < |desired| :: desired[i].port != desired[j].port
    requires forall svc | svc in desired ::
               ValidService(svc) && svc.serviceName == "web" && svc.serviceEnabled
                 && EndpointOf(svc) == WebEndpoint(svc.port)
    ensures ValidDesired(desired) && ConflictedNames(desired) == {}
    ensures forall svc | svc in desired ::
              IsDesired(desired, WebEndpoint(svc.port)) && DesiredMap(desired)[KeyOf(WebEndpoint(svc.port))] == svc
    ensures forall key | key in DesiredMap(desired) ::
              exists svc :: svc in desired && key == KeyOf(WebEndpoint(svc.port))
  {
    hide ValidService, DesiredMap, ConflictedNames, WebEndpoint;
    forall i, j | 0 <= i < j < |desired| ensures Declarations.OwnKey(desired[i]) != Declarations.OwnKey(desired[j]) {
      PortsMakeKeys(desired[i], desired[j]);
    }
    Declarations.DistinctAreServed(desired);
    forall svc | svc in desired ensures DesiredServiceKey(svc) == KeyOf(EndpointOf(svc)) {
      KeyOfService(svc);
    }
    forall key | key in DesiredMap(desired)
      ensures DesiredMap(desired)[key] in desired && key == KeyOf(EndpointOf(DesiredMap(desired)[key]))
    {
      DesiredMapFacts(desired, key);
    }
  }

  lemma SameService(p: string, q: string)
    ensures WebEndpoint(p).name == WebEndpoint(q).name && WebEndpoint(p).port == p
  {
  }

  ghost predicate Records(serve: ServeMap, svc: ContainerService) {
    ServeAddArgs(svc).Success? && EndpointOf(svc) in serve && serve[EndpointOf(svc)] == ConfigOf(svc)
  }

  /** Exactly the two ports of the service are served, both over HTTP. */
  ghost predicate ServesBoth(serve: ServeMap, p: string, q: string) {
    && serve.Keys == {WebEndpoint(p), WebEndpoint(q)}
    && Records(serve, WebPort(p, "http")) && Records(serve, WebPort(q, "http"))
  }

  lemma RecordedIsLegible(serve: ServeMap, p: string, q: string, port: string)
    requires Apart(p, q) && ServesBoth(serve, p, q) && port in {p, q}
    ensures LegibleAt(serve, WebEndpoint(port))
  {
    hide Records, WebPort, WebEndpoint, ConfigOf, Canonical, ValidService;
    SameService(p, q);
    SameService(q, p);
    WebPortIsValid(port, "http");
    RecordsCanonical(serve, WebPort(port, "http"));
  }

  lemma RecordsCanonical(serve: ServeMap, svc: ContainerService)
    requires Records(serve, svc) && ValidService(svc)
    ensures Canonical(serve[EndpointOf(svc)])
  {
    ConfigOfIsCanonical(svc);
  }

  lemma BothAreLegible(serve: ServeMap, p: string, q: string)
    requires Apart(p, q) && ServesBoth(serve, p, q)
    ensures ColonFree(serve) && forall e | e in serve :: LegibleAt(serve, e)
  {
    hide Records, WebPort, WebEndpoint, LegibleAt;
    SameService(p, q);
    SameService(q, p);
    RecordedIsLegible(serve, p, q, p);
    RecordedIsLegible(serve, p, q, q);
  }

  lemma RecordedIsDeclared(desired: Services, serve: ServeMap, svc: ContainerService)
    requires ValidDesired(desired) && IsDesired(desired, EndpointOf(svc)) && Records(serve, svc)
    requires DesiredMap(desired)[KeyOf(EndpointOf(svc))] == svc
    ensures AsDeclared(desired, serve, EndpointOf(svc))
  {
    hide DesiredMap, ConfigOf, EndpointOf, KeyOf;
  }

  lemma StaleByOther(desired: Services, serve: ServeMap, e: Endpoint, other: Endpoint)
    requires IsManaged(e.name) && ConflictedNames(desired) == {} && other in serve && other.name == e.name
    requires KeyOf(other) !in DesiredMap(desired)
    ensures StaleName(desired, {}, serve, e.name)
  {
    hide DesiredMap, ConflictedNames, KeyOf, IsManaged;
  }

  /** With only one of the ports still declared, the stale one takes it along: one cycle leaves nothing served. */
  lemma StalePortTakesSibling(p: string, q: string, start: Moment, next: Moment)
    requires Apart(p, q) && ServesBoth(start.host.serve, p, q)
    requires IsCycle([WebPort(p, "http")], {}, start, next)
    ensures var desired := [WebPort(p, "http")];
            && ValidDesired(desired) && IsDesired(desired, WebEndpoint(p))
            && AsDeclared(desired, start.host.serve, WebEndpoint(p)) && WebEndpoint(p) !in next.host.serve
  {
    hide ValidService, WebEndpoint, WebPort, ConfigOf, IsManaged, DesiredMap, ConflictedNames, LegibleAt, ColonFree,
         ValidDesired, StaleName, SiblingClash, IsCycle, Records, IsDesired, AsDeclared, KeyOf, EndpointOf;
    var svc, serve := WebPort(p, "http"), start.host.serve;
    var desired, e := [svc], WebEndpoint(p);
    WebPortIsValid(p, "http");
    SameService(p, q);
    PartsOf(p, "http");
    BothAreLegible(serve, p, q);
    WebPortsAreDesired(desired);
    assert svc in desired;
    RecordedIsDeclared(desired, serve, svc);
    EndpointsApart(p, q);
    StaleByOther(desired, serve, e, WebEndpoint(q));
    AllLegible(desired, {}, serve);
    UnchangedKeptIff(desired, {}, start, next, e);
  }

  lemma PartsOf(port: string, kind: string)
    ensures var svc := WebPort(port, kind);
            svc.serviceName == "web" && svc.serviceEnabled && svc.port == port && EndpointOf(svc) == WebEndpoint(port)
  {
  }

  lemma AllLegible(desired: Services, ignored: set<string>, serve: ServeMap)
    requires ColonFree(serve) && forall e | e in serve :: LegibleAt(serve, e)
    ensures LegibleWhereKept(desired, ignored, serve)
  {
    hide LegibleAt, StaleName;
  }

  lemma HttpMeetsTcp(serve: ServeMap, port: string)
    requires Records(serve, WebPort(port, "http"))
    ensures KindClash(serve, WebPort(port, "tcp"))
  {
    WebConfig(port);
    hide ConfigOf, NormalizeServicePath, PathOf, KindOf;
  }

  lemma ClashOfSibling(desired: Services, serve: ServeMap, key: string)
    requires key in DesiredMap(desired) && KindClash(serve, DesiredMap(desired)[key])
    ensures SiblingClash(desired, serve, EndpointOf(DesiredMap(desired)[key]).name)
  {
    hide KindClash, DesiredMap, EndpointOf;
  }

  /** With one port now declared over TCP, re-adding it clears the service and takes the unchanged other one along. */
  lemma KindClashTakesSibling(p: string, q: string, start: Moment, next: Moment)
    requires Apart(p, q) && ServesBoth(start.host.serve, p, q)
    requires IsCycle([WebPort(p, "http"), WebPort(q, "tcp")], {}, start, next)
    ensures var desired := [WebPort(p, "http"), WebPort(q, "tcp")];
            && ValidDesired(desired) && IsDesired(desired, WebEndpoint(p))
            && AsDeclared(desired, start.host.serve, WebEndpoint(p)) && WebEndpoint(p) !in next.host.serve
  {
    hide ValidService, WebEndpoint, WebPort, ConfigOf, IsManaged, DesiredMap, ConflictedNames, LegibleAt, ColonFree,
         ValidDesired, StaleName, SiblingClash, IsCycle, Records, AsDeclared, KeyOf, EndpointOf, KindClash;
    var svc, other, serve := WebPort(p, "http"), WebPort(q, "tcp"), start.host.serve;
    var desired, e := [svc, other], WebEndpoint(p);
    WebPortIsValid(p, "http");
    WebPortIsValid(q, "tcp");
    SameService(p, q);
    PartsOf(p, "http");
    PartsOf(q, "tcp");
    BothAreLegible(serve, p, q);
    WebPortsAreDesired(desired);
    assert svc in desired && other in desired;
    RecordedIsDeclared(desired, serve, svc);
    HttpMeetsTcp(serve, q);
    ClashOfSibling(desired, serve, KeyOf(WebEndpoint(q)));
    AllLegible(desired, {}, serve);
    UnchangedKeptIff(desired, {}, start, next, e);
  }
}
