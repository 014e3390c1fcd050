/** Reading the daemon's Serve configuration back through `tailscale serve status --json`. */
module ServeStatus {
  import opened Strings
  import opened Types
  import opened Serve

  datatype TcpConfig = TcpConfig(
    http: bool, https: bool, terminateTLS: string, tcpForward: string, proxyProtocol: int)

  /** Web maps a "host:port" key to the handlers mounted there, each path with its proxy target ("" if it has none). */
  datatype ServiceConfig = ServiceConfig(tcp: map<string, TcpConfig>, web: map<string, map<string, string>>)

  type Status = map<string, ServiceConfig>

  function ServiceProtocol(tcp: TcpConfig): string {
    if tcp.terminateTLS != "" then "tls-terminated-tcp"
    else if tcp.https then "https"
    else if tcp.http then "http"
    else "tcp"
  }

  predicate Proxied(handlers: map<string, string>, path: string) {
    path in handlers && handlers[path] != ""
  }

  /**
   * The answers ServiceHandler may give: whichever web key contains ":port" is met first
   * decides, and any of its proxied mounts may be the one returned.
   */
  ghost predicate HandlerOf(svc: ServiceConfig, port: string, tcp: TcpConfig, path: string, destination: string) {
    if !tcp.http && !tcp.https then path == "" && destination == tcp.tcpForward
    else
      || (path == destination == "" && forall key | key in svc.web :: !Contains(key, ":" + port))
      || exists key | key in svc.web && Contains(key, ":" + port) ::
           if exists p :: Proxied(svc.web[key], p)
           then Proxied(svc.web[key], path) && destination == svc.web[key][path]
           else path == destination == ""
  }

  /** Map iteration takes any key next, so every iteration order is covered. */
  method ServiceHandler(svc: ServiceConfig, port: string, tcp: TcpConfig) returns (path: string, destination: string)
    ensures HandlerOf(svc, port, tcp, path, destination)
  {
    if !tcp.http && !tcp.https {
      return "", tcp.tcpForward;
    }
    var keys := svc.web.Keys;
    while keys != {}
      invariant keys <= svc.web.Keys
      invariant forall key | key in svc.web && key !in keys :: !Contains(key, ":" + port)
    {
      var key :| key in keys;
      keys := keys - {key};
      if Contains(key, ":" + port) {
        path, destination := FirstProxied(svc.web[key]);
        return;
      }
    }
    return "", "";
  }

  method FirstProxied(handlers: map<string, string>) returns (path: string, destination: string)
    ensures if exists p :: Proxied(handlers, p)
            then Proxied(handlers, path) && destination == handlers[path]
            else path == destination == ""
  {
    var paths := handlers.Keys;
    while paths != {}
      invariant paths <= handlers.Keys
      invariant forall p | p in handlers && p !in paths :: handlers[p] == ""
    {
      var p :| p in paths;
      paths := paths - {p};
      if handlers[p] != "" {
        assert Proxied(handlers, p);
        return p, handlers[p];
      }
    }
    return "", "";
  }

  ghost predicate Listed(status: Status, name: string, port: string) {
    name in status && IsManaged(name) && port in status[name].tcp
  }

  ghost predicate ReadsAs(status: Status, name: string, port: string, view: ServiceEndpoint)
    requires Listed(status, name, port)
  {
    var tcp := status[name].tcp[port];
    && view.serviceName == name && view.port == port
    && view.protocol == ServiceProtocol(tcp)
    && view.proxyProtocol == tcp.proxyProtocol
    && HandlerOf(status[name], port, tcp, view.path, view.destination)
  }

  /** Everything found at a key is a reading of an endpoint with that key. */
  ghost predicate Sound(status: Status, services: map<string, ServiceEndpoint>) {
    forall key | key in services ::
      var view := services[key];
      && key == KeyOf(Endpoint(view.serviceName, view.port))
      && Listed(status, view.serviceName, view.port)
      && ReadsAs(status, view.serviceName, view.port, view)
  }

  ghost predicate ParsedFrom(status: Status, services: map<string, ServiceEndpoint>) {
    && Sound(status, services)
    && forall name, port | Listed(status, name, port) :: KeyOf(Endpoint(name, port)) in services
  }

  method ParseManagedServices(status: Status) returns (services: map<string, ServiceEndpoint>)
    ensures ParsedFrom(status, services)
  {
    services := map[];
    var names := status.Keys;
    while names != {}
      invariant names <= status.Keys
      invariant Sound(status, services)
      invariant forall name, port | Listed(status, name, port) && name !in names ::
                KeyOf(Endpoint(name, port)) in services
    {
      var name :| name in names;
      names := names - {name};
      if IsManaged(name) {
        services := ParseService(status, name, services);
      }
    }
  }

  method ParseService(status: Status, name: string, before: map<string, ServiceEndpoint>)
    returns (services: map<string, ServiceEndpoint>)
    requires name in status && IsManaged(name) && Sound(status, before)
    ensures Sound(status, services) && before.Keys <= services.Keys
    ensures forall port | port in status[name].tcp :: KeyOf(Endpoint(name, port)) in services
  {
    services := before;
    var config := status[name];
    var ports := config.tcp.Keys;
    while ports != {}
      invariant ports <= config.tcp.Keys
      invariant Sound(status, services) && before.Keys <= services.Keys
      invariant forall port | port in config.tcp && port !in ports :: KeyOf(Endpoint(name, port)) in services
    {
      var port :| port in ports;
      ports := ports - {port};
      var tcp := config.tcp[port];
      var path, destination := ServiceHandler(config, port, tcp);
      var view := ServiceEndpoint(name, port, ServiceProtocol(tcp), path, destination, tcp.proxyProtocol);
      assert Listed(status, name, port) && ReadsAs(status, name, port, view);
      services := services[KeyOf(Endpoint(name, port)) := view];
    }
  }

  // ---- what the daemon reports for the configuration it holds ----

  function TcpEntry(c: Config, host: string): TcpConfig {
    match c
    case Tcp(tls, forward, proxy) => TcpConfig(false, false, if tls then host else "", forward, proxy)
    case Web(https, _) => TcpConfig(!https, https, "", "", 0)
  }

  function WebKey(host: string, port: string): string {
    host + ":" + port
  }

  lemma WebKeysDistinct(host: string)
    ensures forall p, q :: WebKey(host, p) == WebKey(host, q) ==> p == q
  {
    forall p, q | WebKey(host, p) == WebKey(host, q) ensures p == q {
      PrefixCancels(host + ":", p, q);
    }
  }

  function RenderService(serve: map<Endpoint, Config>, name: string, host: string): ServiceConfig {
    WebKeysDistinct(host);
    ServiceConfig(
      map e | e in serve && e.name == name :: e.port := TcpEntry(serve[e], host),
      map e | e in serve && e.name == name && serve[e].Web? :: WebKey(host, e.port) := serve[e].handlers)
  }

  function Render(serve: map<Endpoint, Config>, host: string): Status {
    map e | e in serve :: e.name := RenderService(serve, e.name, host)
  }

  ghost predicate ColonFree(serve: map<Endpoint, Config>) {
    forall e | e in serve :: ':' !in e.port
  }

  /**
   * The endpoints whose mounts may be taken for those of `e`: handlers are looked up by ":port", which also
   * occurs in the key of every web port of the service that the port is a prefix of.
   */
  ghost predicate Overlaps(serve: map<Endpoint, Config>, e: Endpoint, b: Endpoint) {
    && e in serve && b in serve && e.name == b.name
    && serve[e].Web? && serve[b].Web? && e.port <= b.port
  }

  /** `e` is recorded in canonical form and whatever may be read in its place is mounted alike. */
  ghost predicate LegibleAt(serve: map<Endpoint, Config>, e: Endpoint)
    requires e in serve
  {
    Canonical(serve[e]) && forall b | Overlaps(serve, e, b) :: serve[b].handlers == serve[e].handlers
  }

  /** The managed part of the configuration reads back without ambiguity. */
  ghost predicate Legible(serve: map<Endpoint, Config>) {
    && ColonFree(serve)
    && forall e | e in serve && IsManaged(e.name) :: LegibleAt(serve, e)
  }

  ghost function ManagedKeys(serve: map<Endpoint, Config>): set<string> {
    set e | e in serve && IsManaged(e.name) :: KeyOf(e)
  }

  ghost function EndpointAt(serve: map<Endpoint, Config>, key: string): Endpoint
    requires key in ManagedKeys(serve)
  {
    var e :| e in serve && IsManaged(e.name) && KeyOf(e) == key;
    e
  }

  /** The one reading a legible configuration has. */
  ghost function View(serve: map<Endpoint, Config>): map<string, ServiceEndpoint> {
    map key | key in ManagedKeys(serve) :: ViewOf(EndpointAt(serve, key), serve[EndpointAt(serve, key)])
  }

  ghost predicate PlainHost(host: string) {
    host != "" && ':' !in host
  }

  lemma RenderLists(serve: map<Endpoint, Config>, host: string, name: string, port: string)
    ensures Listed(Render(serve, host), name, port) <==> Endpoint(name, port) in serve && IsManaged(name)
    ensures Endpoint(name, port) in serve ==>
              && name in Render(serve, host) && Render(serve, host)[name] == RenderService(serve, name, host)
              && RenderService(serve, name, host).tcp[port] == TcpEntry(serve[Endpoint(name, port)], host)
  {
    var e := Endpoint(name, port);
    if e in serve {
      assert e.name in Render(serve, host);
      assert e.port in RenderService(serve, name, host).tcp;
    }
  }

  /** A mount of `handlers` as it may be read for `e`: any proxied one, or nothing if none is. */
  ghost predicate MountRead(handlers: map<string, string>, path: string, destination: string) {
    if exists p :: Proxied(handlers, p)
    then Proxied(handlers, path) && destination == handlers[path]
    else path == destination == ""
  }

  /** What may be read at `e`: a TCP entry as it is, a web entry with a mount of any port it overlaps with. */
  ghost predicate ReadingOf(serve: map<Endpoint, Config>, e: Endpoint, view: ServiceEndpoint)
    requires e in serve
  {
    if serve[e].Tcp? then view == ViewOf(e, serve[e])
    else
      && view.serviceName == e.name && view.port == e.port
      && view.protocol == KindOf(serve[e]) && view.proxyProtocol == 0
      && exists b | Overlaps(serve, e, b) :: MountRead(serve[b].handlers, view.path, view.destination)
  }

  lemma WebKeyOfOverlap(serve: map<Endpoint, Config>, host: string, e: Endpoint, b: Endpoint)
    requires ColonFree(serve) && PlainHost(host) && Overlaps(serve, e, b)
    ensures var web := RenderService(serve, e.name, host).web;
            var key := WebKey(host, b.port);
            key in web && web[key] == serve[b].handlers && Contains(key, ":" + e.port)
  {
    WebKeysDistinct(host);
    ContainsPortMeansPrefix(host, b.port, e.port);
  }

  lemma OverlapOfWebKey(serve: map<Endpoint, Config>, host: string, e: Endpoint, key: string) returns (b: Endpoint)
    requires ColonFree(serve) && PlainHost(host) && e in serve && serve[e].Web?
    requires key in RenderService(serve, e.name, host).web && Contains(key, ":" + e.port)
    ensures Overlaps(serve, e, b) && RenderService(serve, e.name, host).web[key] == serve[b].handlers
  {
    b :| b in serve && b.name == e.name && serve[b].Web? && key == WebKey(host, b.port);
    WebKeysDistinct(host);
    ContainsPortMeansPrefix(host, b.port, e.port);
  }

  lemma HandlersOverlap(serve: map<Endpoint, Config>, host: string, e: Endpoint, path: string, destination: string)
    requires ColonFree(serve) && PlainHost(host) && e in serve && serve[e].Web?
    ensures HandlerOf(RenderService(serve, e.name, host), e.port, TcpEntry(serve[e], host), path, destination) <==>
            exists b | Overlaps(serve, e, b) :: MountRead(serve[b].handlers, path, destination)
  {
    hide Contains, WebKey, ColonFree;
    var web := RenderService(serve, e.name, host).web;
    WebKeyOfOverlap(serve, host, e, e);
    if key :| key in web && Contains(key, ":" + e.port) && MountRead(web[key], path, destination) {
      var b := OverlapOfWebKey(serve, host, e, key);
    }
    if b :| Overlaps(serve, e, b) && MountRead(serve[b].handlers, path, destination) {
      WebKeyOfOverlap(serve, host, e, b);
      assert MountRead(web[WebKey(host, b.port)], path, destination);
    }
  }

  /** The readings the status of a configuration allows are exactly the ones ReadingOf describes. */
  lemma ReadingsOfEndpoint(serve: map<Endpoint, Config>, host: string, e: Endpoint, view: ServiceEndpoint)
    requires ColonFree(serve) && PlainHost(host) && e in serve && IsManaged(e.name)
    ensures Listed(Render(serve, host), e.name, e.port)
    ensures ReadsAs(Render(serve, host), e.name, e.port, view) <==> ReadingOf(serve, e, view)
  {
    RenderLists(serve, host, e.name, e.port);
    hide Render, RenderService, ColonFree, Overlaps, MountRead;
    assert Endpoint(e.name, e.port) == e;
    if serve[e].Web? {
      HandlersOverlap(serve, host, e, view.path, view.destination);
      hide HandlerOf;
    }
  }

  lemma OneMountRead(handlers: map<string, string>, path: string, destination: string)
    requires Canonical(Web(false, handlers))
    ensures MountRead(handlers, path, destination) <==>
            path == PathOf(handlers) && path in handlers && destination == handlers[path]
  {
    OneMount(handlers, path);
    assert Index("", "://") == -1;
    assert Proxied(handlers, PathOf(handlers));
  }

  /** Read through a sibling, a web entry looks as if it held the sibling's mount. */
  lemma CanonicalReading(serve: map<Endpoint, Config>, e: Endpoint, b: Endpoint, view: ServiceEndpoint)
    requires Overlaps(serve, e, b) && Canonical(serve[b])
    ensures && view.serviceName == e.name && view.port == e.port
            && view.protocol == KindOf(serve[e]) && view.proxyProtocol == 0
            && MountRead(serve[b].handlers, view.path, view.destination)
            <==> view == ViewOf(e, Web(serve[e].https, serve[b].handlers))
  {
    OneMountRead(serve[b].handlers, view.path, view.destination);
    OneMount(serve[b].handlers, "");
    hide Canonical, MountRead, PathOf;
  }

  /** A legible endpoint has one reading, the one it was recorded with. */
  lemma ReadsBackExactly(serve: map<Endpoint, Config>, e: Endpoint, view: ServiceEndpoint)
    requires e in serve && LegibleAt(serve, e)
    ensures ReadingOf(serve, e, view) <==> view == ViewOf(e, serve[e])
  {
    hide Canonical, ViewOf, KindOf, MountRead;
    if serve[e].Web? {
      assert Overlaps(serve, e, e);
      CanonicalReading(serve, e, e, view);
    }
  }

  /** Every managed endpoint reads back as it was recorded, and in no other way. */
  ghost predicate ReadsExactly(serve: map<Endpoint, Config>, host: string) {
    forall e, view | e in serve && Listed(Render(serve, host), e.name, e.port)
                     && ReadsAs(Render(serve, host), e.name, e.port, view) ::
      view == ViewOf(e, serve[e])
  }

  /** Managed web ports that may be taken for each other are mounted alike. */
  ghost predicate MountedAlike(serve: map<Endpoint, Config>) {
    forall a, b | Overlaps(serve, a, b) && IsManaged(a.name) :: serve[a].handlers == serve[b].handlers
  }

  /**
   * Exactly when a configuration in canonical form reads back as it is: web ports of a service of which one is
   * a prefix of the other must be mounted alike.
   */
  lemma ReadsExactlyIff(serve: map<Endpoint, Config>, host: string)
    requires ColonFree(serve) && PlainHost(host)
    requires forall e | e in serve && IsManaged(e.name) :: Canonical(serve[e])
    ensures ReadsExactly(serve, host) <==> MountedAlike(serve)
  {
    if ReadsExactly(serve, host) {
      forall a, b | Overlaps(serve, a, b) && IsManaged(a.name) ensures serve[a].handlers == serve[b].handlers {
        hide ReadsExactly, ColonFree, Canonical;
        ExactMeansAlike(serve, host, a, b);
      }
    }
    hide ReadsAs, Render, ColonFree, Canonical, ViewOf, ReadingOf, MountedAlike, LegibleAt;
    if MountedAlike(serve) {
      forall e, view | e in serve && Listed(Render(serve, host), e.name, e.port)
                       && ReadsAs(Render(serve, host), e.name, e.port, view)
        ensures view == ViewOf(e, serve[e])
      {
        AlikeIsLegible(serve, e);
        ReadingsOfEndpoint(serve, host, e, view);
        ReadsBackExactly(serve, e, view);
      }
    }
  }

  lemma AlikeIsLegible(serve: map<Endpoint, Config>, e: Endpoint)
    requires e in serve && Canonical(serve[e]) && IsManaged(e.name) && MountedAlike(serve)
    ensures LegibleAt(serve, e)
  {
    hide Canonical;
  }

  lemma ExactMeansAlike(serve: map<Endpoint, Config>, host: string, a: Endpoint, b: Endpoint)
    requires ColonFree(serve) && PlainHost(host) && ReadsExactly(serve, host)
    requires Overlaps(serve, a, b) && IsManaged(a.name) && Canonical(serve[a]) && Canonical(serve[b])
    ensures serve[a].handlers == serve[b].handlers
  {
    var view := ViewOf(a, Web(serve[a].https, serve[b].handlers));
    CanonicalReading(serve, a, b, view);
    assert ReadingOf(serve, a, view);
    ReadingsOfEndpoint(serve, host, a, view);
    assert view == ViewOf(a, serve[a]);
    hide ReadsExactly, ColonFree, Render, ReadingOf;
    OneMount(serve[a].handlers, "");
    OneMount(serve[b].handlers, "");
  }

  /**
   * No flapping, exactly: an endpoint just recorded for `svc` may be taken for a changed one if and only if a
   * web port of its service that its port is a prefix of has another mount.
   */
  lemma FlapsIff(serve: map<Endpoint, Config>, e: Endpoint, svc: ContainerService)
    requires e in serve
    requires forall b | b in serve && b.name == e.name :: Canonical(serve[b])
    requires ValidService(svc) && serve[e] == ConfigOf(svc)
    ensures (exists view :: ReadingOf(serve, e, view) && ServiceConfigChanged(view, svc)) <==>
            exists b | Overlaps(serve, e, b) :: serve[b].handlers != serve[e].handlers
  {
    hide ServiceConfigChanged, Canonical, ViewOf, ConfigOf, MountRead;
    if b :| Overlaps(serve, e, b) && serve[b].handlers != serve[e].handlers {
      var view := ViewOf(e, Web(serve[e].https, serve[b].handlers));
      CanonicalReading(serve, e, b, view);
      assert Canonical(Web(serve[e].https, serve[b].handlers)) by {
        SameMountsCanonical(serve[b], Web(serve[e].https, serve[b].handlers));
      }
      ChangedMeansDifferentConfig(e, Web(serve[e].https, serve[b].handlers), svc);
      assert ReadingOf(serve, e, view);
    }
    if view :| ReadingOf(serve, e, view) && ServiceConfigChanged(view, svc) {
      ChangedMeansDifferentConfig(e, serve[e], svc);
      if forall b | Overlaps(serve, e, b) :: serve[b].handlers == serve[e].handlers {
        ReadsBackExactly(serve, e, view);
        assert false;
      }
    }
  }

  lemma SameMountsCanonical(c: Config, d: Config)
    requires c.Web? && d.Web? && c.handlers == d.handlers && Canonical(c)
    ensures Canonical(d)
  {
  }

  lemma ViewAt(serve: map<Endpoint, Config>, e: Endpoint)
    requires ColonFree(serve) && e in serve && IsManaged(e.name)
    ensures KeyOf(e) in View(serve) && EndpointAt(serve, KeyOf(e)) == e && View(serve)[KeyOf(e)] == ViewOf(e, serve[e])
  {
    assert KeyOf(e) in ManagedKeys(serve);
    KeyInjective(EndpointAt(serve, KeyOf(e)), e);
  }

  /** A reading of the managed part of a configuration: each endpoint in one of the ways it may be read. */
  ghost predicate Readable(serve: map<Endpoint, Config>, services: map<string, ServiceEndpoint>) {
    && services.Keys == ManagedKeys(serve)
    && forall e | e in serve && IsManaged(e.name) :: KeyOf(e) in services && ReadingOf(serve, e, services[KeyOf(e)])
  }

  lemma KeyRead(serve: map<Endpoint, Config>, host: string, services: map<string, ServiceEndpoint>, key: string)
    requires ColonFree(serve) && PlainHost(host) && Sound(Render(serve, host), services) && key in services
    ensures key in ManagedKeys(serve)
  {
    hide ReadsAs, Render, ColonFree;
    var e := Endpoint(services[key].serviceName, services[key].port);
    RenderLists(serve, host, e.name, e.port);
    assert e in serve && IsManaged(e.name) && KeyOf(e) == key;
  }

  lemma EndpointRead(serve: map<Endpoint, Config>, host: string, services: map<string, ServiceEndpoint>, e: Endpoint)
    requires ColonFree(serve) && PlainHost(host) && ParsedFrom(Render(serve, host), services)
    requires e in serve && IsManaged(e.name)
    ensures KeyOf(e) in services && ReadingOf(serve, e, services[KeyOf(e)])
  {
    RenderLists(serve, host, e.name, e.port);
    assert e == Endpoint(e.name, e.port);
    hide Render, ReadsAs, ReadingOf;
    var view := services[KeyOf(e)];
    var own := Endpoint(view.serviceName, view.port);
    RenderLists(serve, host, view.serviceName, view.port);
    KeyInjective(own, e);
    ReadingsOfEndpoint(serve, host, e, view);
  }

  /** Parsing the status of a configuration gives one of its readings. */
  lemma ParsedIsReading(serve: map<Endpoint, Config>, host: string, services: map<string, ServiceEndpoint>)
    requires ColonFree(serve) && PlainHost(host) && ParsedFrom(Render(serve, host), services)
    ensures Readable(serve, services)
  {
    hide ParsedFrom, Render, ColonFree, ReadingOf;
    forall key ensures key in services <==> key in ManagedKeys(serve) {
      if key in services {
        assert Sound(Render(serve, host), services) by {
          ParsedIsSound(Render(serve, host), services);
        }
        KeyRead(serve, host, services, key);
      }
      if key in ManagedKeys(serve) {
        EndpointRead(serve, host, services, EndpointAt(serve, key));
      }
    }
    forall e | e in serve && IsManaged(e.name) ensures KeyOf(e) in services && ReadingOf(serve, e, services[KeyOf(e)]) {
      EndpointRead(serve, host, services, e);
    }
  }

  lemma ParsedIsSound(status: Status, services: map<string, ServiceEndpoint>)
    requires ParsedFrom(status, services)
    ensures Sound(status, services)
  {
  }

  /**
   * Reading a legible configuration back gives one answer, whatever order the maps are walked
   * in: exactly the managed endpoints, each as it was recorded.
   */
  lemma LegibleReadsOneWay(serve: map<Endpoint, Config>, services: map<string, ServiceEndpoint>)
    requires Legible(serve) && Readable(serve, services)
    ensures services == View(serve)
  {
    hide ReadingOf, LegibleAt, ViewOf, ColonFree;
    forall key | key in services ensures services[key] == View(serve)[key] {
      var e := EndpointAt(serve, key);
      ReadsBackExactly(serve, e, services[key]);
    }
    SameMap(services, View(serve));
  }

  lemma SameMap<K, V>(a: map<K, V>, b: map<K, V>)
    requires b.Keys <= a.Keys
    requires forall k | k in a :: k in b && a[k] == b[k]
    ensures a == b
  {
  }

  /** With ports 80 and 8080, port 80 may read back with port 8080's handler. */
  lemma PrefixPortMayReadSibling(host: string)
    requires PlainHost(host)
    ensures var serve := map[
              Endpoint("svc:web", "80") := Web(false, map["/" := "http://10.0.0.1:80"]),
              Endpoint("svc:web", "8080") := Web(false, map["/" := "http://10.0.0.2:80"])];
            var status := Render(serve, host);
            && Listed(status, "svc:web", "80")
            && ReadsAs(status, "svc:web", "80", ServiceEndpoint("svc:web", "80", "http", "/", "http://10.0.0.2:80", 0))
  {
    var low, high := Endpoint("svc:web", "80"), Endpoint("svc:web", "8080");
    var other := map["/" := "http://10.0.0.2:80"];
    var serve := map[low := Web(false, map["/" := "http://10.0.0.1:80"]), high := Web(false, other)];
    var view := ServiceEndpoint("svc:web", "80", "http", "/", "http://10.0.0.2:80", 0);
    assert Overlaps(serve, low, high);
    assert Proxied(other, "/") && MountRead(serve[high].handlers, view.path, view.destination);
    assert ReadingOf(serve, low, view);
    ReadingsOfEndpoint(serve, host, low, view);
  }
}
