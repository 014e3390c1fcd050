/** What a node funnels, and how that is listed by `tailscale funnel status --json`. */
module FunnelNode {
  import opened Decimal
  import opened Strings
  import opened FunnelStatus
  import opened Types

  /** A public port forwards to a TCP backend, or mounts HTTP backends on paths ("" where a mount proxies nothing). */
  datatype FunnelPort = Forward(tls: bool, target: string) | Web(handlers: map<string, string>)

  type Ports = map<string, FunnelPort>

  ghost predicate WellFormed(ports: Ports) {
    forall p | p in ports :: Numeric(p) && (ports[p].Web? ==> "" !in ports[p].handlers)
  }

  // ---- the status a node reports ----

  function Flags(c: FunnelPort): map<string, bool> {
    match c
    case Forward(tls, _) => map[if tls then "TLS_TERMINATED_TCP" else "TCP" := true]
    case Web(_) => map["HTTPS" := true]
  }

  function WebKey(host: string, port: string): string {
    host + ":" + port
  }

  lemma WebKeysDistinct(host: string)
    ensures forall p, q :: WebKey(host, p) == WebKey(host, q) ==> p == q
  {
    forall p, q | WebKey(host, p) == WebKey(host, q) ensures p == q {
      PrefixCancels(host + ":", p, q);
    }
  }

  /** The status carries the kind of a TCP port but not its backend. */
  function Render(ports: Ports, host: string): Status {
    WebKeysDistinct(host);
    Status(
      map p | p in ports :: Flags(ports[p]),
      map p | p in ports && ports[p].Web? :: WebKey(host, p) := ports[p].handlers,
      set p | p in ports :: WebKey(host, p))
  }

  // ---- what DockTail reads from it ----

  datatype FunnelId = OnPort(port: string) | OnPath(port: string, path: string)

  ghost function Ids(ports: Ports): set<FunnelId> {
    (set p | p in ports && ports[p].Forward? :: OnPort(p))
    + set p, path | p in ports && ports[p].Web? && path in ports[p].handlers && ports[p].handlers[path] != "" ::
        OnPath(p, path)
  }

  /** The mounts that proxy nothing: a directory or a text that somebody funnels. */
  ghost function MuteIds(ports: Ports): set<FunnelId> {
    set p, path | p in ports && ports[p].Web? && path in ports[p].handlers && ports[p].handlers[path] == "" ::
      OnPath(p, path)
  }

  /** What is behind a public endpoint. */
  datatype Use = Forwarded(tls: bool, target: string) | Mounted(backend: string)

  function Behind(ports: Ports, id: FunnelId): Option<Use> {
    match id
    case OnPort(p) => if p in ports && ports[p].Forward? then Some(Forwarded(ports[p].tls, ports[p].target)) else None
    case OnPath(p, path) =>
      if p in ports && ports[p].Web? && path in ports[p].handlers then Some(Mounted(ports[p].handlers[path])) else None
  }

  /** All a node funnels: every endpoint with something behind it, even a mount that proxies nothing. */
  ghost function Funneled(ports: Ports): set<FunnelId> {
    (set p | p in ports && ports[p].Forward? :: OnPort(p))
    + set p, path | p in ports && ports[p].Web? && path in ports[p].handlers :: OnPath(p, path)
  }

  function IdKey(id: FunnelId): string {
    match id
    case OnPort(port) => port
    case OnPath(port, path) => port + "|" + path
  }

  ghost function Listing(ports: Ports, id: FunnelId): CurrentFunnel
    requires id in Ids(ports)
  {
    match id
    case OnPort(port) => Bare(port, if ports[port].tls then "tls-terminated-tcp" else "tcp")
    case OnPath(port, path) => CurrentFunnel(port, path, "https", ports[port].handlers[path])
  }

  lemma PortIsPlain(port: string)
    requires Numeric(port)
    ensures port != "" && ':' !in port && '|' !in port
  {
  }

  lemma IdKeysDistinct(a: FunnelId, b: FunnelId)
    requires '|' !in a.port && '|' !in b.port
    ensures IdKey(a) == IdKey(b) <==> a == b
  {
    if a.OnPath? && b.OnPath? {
      if IdKey(a) == IdKey(b) {
        SplitAtPipe(a.port, a.path, b.port, b.path);
      }
    } else {
      assert a.OnPath? ==> IdKey(a)[|a.port|] == '|';
      assert b.OnPath? ==> IdKey(b)[|b.port|] == '|';
    }
  }

  lemma KeysOfPortsDistinct(ports: Ports)
    requires WellFormed(ports)
    ensures forall a, b | a in Ids(ports) && b in Ids(ports) && IdKey(a) == IdKey(b) :: a == b
  {
    forall a, b | a in Ids(ports) && b in Ids(ports) && IdKey(a) == IdKey(b) ensures a == b {
      PortIsPlain(a.port);
      PortIsPlain(b.port);
      hide Numeric;
      IdKeysDistinct(a, b);
    }
  }

  ghost function IdKeys(ports: Ports): set<string> {
    set id | id in Ids(ports) :: IdKey(id)
  }

  ghost function IdAt(ports: Ports, key: string): (id: FunnelId)
    requires key in IdKeys(ports)
    ensures id in Ids(ports) && IdKey(id) == key
  {
    var id :| id in Ids(ports) && IdKey(id) == key;
    id
  }

  /** The funnels listed: one per forwarded port, one per proxying mount. */
  ghost function Listed(ports: Ports): Funnels {
    map key | key in IdKeys(ports) :: Listing(ports, IdAt(ports, key))
  }

  ghost function FunneledKeys(ports: Ports): set<string> {
    set id | id in Funneled(ports) :: IdKey(id)
  }

  ghost function MuteKeys(ports: Ports): set<string> {
    set id | id in MuteIds(ports) :: IdKey(id)
  }

  lemma FunneledAt(ports: Ports, id: FunnelId)
    ensures id in Funneled(ports) <==> Behind(ports, id).Some?
    ensures id in MuteIds(ports) <==> Behind(ports, id) == Some(Mounted(""))
    ensures id in Ids(ports) <==> id in Funneled(ports) && id !in MuteIds(ports)
  {
  }

  /** What a node funnels and does not list is exactly its mounts that proxy nothing. */
  lemma MutesAreUnlisted(ports: Ports)
    requires WellFormed(ports)
    ensures FunneledKeys(ports) == Listed(ports).Keys + MuteKeys(ports)
    ensures Listed(ports).Keys !! MuteKeys(ports)
  {
    hide Ids, MuteIds, Funneled, Behind;
    forall id
      ensures id in Funneled(ports) <==> id in Ids(ports) || id in MuteIds(ports)
      ensures !(id in Ids(ports) && id in MuteIds(ports))
    {
      FunneledAt(ports, id);
    }
    forall a, b | a in Ids(ports) && b in MuteIds(ports) ensures IdKey(a) != IdKey(b) {
      IdIsPlain(ports, a);
      IdIsPlain(ports, b);
      IdKeysDistinct(a, b);
    }
    hide IdKey, Listing;
    assert Listed(ports).Keys == IdKeys(ports);
  }

  lemma IdIsPlain(ports: Ports, id: FunnelId)
    requires WellFormed(ports) && id in Funneled(ports)
    ensures '|' !in id.port
  {
    PortIsPlain(id.port);
  }

  /** Only what has one of these keys may have changed. */
  ghost predicate Untouched(before: Ports, after: Ports, keys: set<string>) {
    forall id | IdKey(id) !in keys :: Behind(after, id) == Behind(before, id)
  }

  lemma UntouchedStays(before: Ports, after: Ports, keys: set<string>, key: string)
    requires Untouched(before, after, keys) && key !in keys
    ensures key in Listed(before) <==> key in Listed(after)
    ensures key in MuteKeys(before) <==> key in MuteKeys(after)
  {
    hide Ids, MuteIds, Funneled, Behind, IdKey, Listing;
    forall id | IdKey(id) == key
      ensures id in Ids(before) <==> id in Ids(after)
      ensures id in MuteIds(before) <==> id in MuteIds(after)
    {
      FunneledAt(before, id);
      FunneledAt(after, id);
    }
  }

  // ---- the flags ----

  lemma TcpFlag()
    ensures FlagProtocol("TCP") == "tcp"
  {
    var n := seq(3, i requires 0 <= i < 3 => Dashed("TCP"[i]));
    assert n == ['t', 'c', 'p'];
    assert OccursAt(n, "tcp", 0);
    forall i: nat ensures !OccursAt(n, "tls", i) && !OccursAt(n, "http", i) && !OccursAt(n, "https", i) {
      assert i + 3 <= |n| ==> n[i..i + 3][1] == n[i + 1];
    }
  }

  lemma HttpsFlag()
    ensures FlagProtocol("HTTPS") == "https"
  {
    var n := seq(5, i requires 0 <= i < 5 => Dashed("HTTPS"[i]));
    assert n == ['h', 't', 't', 'p', 's'];
    assert n[0..5] == "https" && OccursAt(n, "https", 0);
    forall i: nat ensures !OccursAt(n, "tls", i) {
      assert i + 3 <= |n| ==> n[i..i + 3][1] == n[i + 1];
    }
  }

  lemma TlsFlag()
    ensures FlagProtocol("TLS_TERMINATED_TCP") == "tls-terminated-tcp"
  {
    var flag := "TLS_TERMINATED_TCP";
    var n := seq(18, i requires 0 <= i < 18 => Dashed(flag[i]));
    assert n[0] == 't' && n[1] == 'l' && n[2] == 's';
    assert n[15] == 't' && n[16] == 'c' && n[17] == 'p';
    assert n[0..3] == "tls" && n[15..18] == "tcp";
    assert OccursAt(n, "tls", 0) && OccursAt(n, "tcp", 15);
  }

  function ProtocolOf(c: FunnelPort): string {
    match c
    case Forward(tls, _) => if tls then "tls-terminated-tcp" else "tcp"
    case Web(_) => "https"
  }

  lemma FlagsDetect(c: FunnelPort, protocol: string)
    ensures Detects(Flags(c), protocol) <==> protocol == ProtocolOf(c)
  {
    TcpFlag();
    HttpsFlag();
    TlsFlag();
    hide FlagProtocol;
    var flag := match c { case Forward(tls, _) => if tls then "TLS_TERMINATED_TCP" else "TCP" case Web(_) => "HTTPS" };
    assert Votes(Flags(c), flag, ProtocolOf(c));
  }

  // ---- reading the status back ----

  lemma PortOfWebKey(host: string, port: string)
    requires Numeric(port)
    ensures ExtractPort(WebKey(host, port)) == port
  {
    PortIsPlain(port);
    ExtractsAfterColon(host, port);
  }

  lemma RenderedPorts(ports: Ports, host: string)
    requires WellFormed(ports)
    ensures var status := Render(ports, host);
            PipeFree(status) && status.tcp.Keys == AllowedPorts(status.allowFunnel) == ports.Keys
  {
    forall p | p in ports ensures ExtractPort(WebKey(host, p)) == p && p != "" && '|' !in p {
      PortOfWebKey(host, p);
      PortIsPlain(p);
    }
    hide ExtractPort, WebKey, Numeric;
    var status := Render(ports, host);
    forall p ensures p in AllowedPorts(status.allowFunnel) <==> p in ports {
      if p in ports {
        assert WebKey(host, p) in status.allowFunnel;
      }
    }
  }

  lemma HandlerOfId(ports: Ports, host: string, id: FunnelId)
    requires WellFormed(ports) && id in Ids(ports) && id.OnPath?
    ensures var status, h := Render(ports, host), Handler(WebKey(host, id.port), id.path);
            && h in Handlers(status) && IsProxied(status, h) && ExtractPort(h.webKey) == id.port
            && HandlerKey(h) == IdKey(id) && WebFunnel(status, h) == Listing(ports, id)
  {
    PortOfWebKey(host, id.port);
    PortIsPlain(id.port);
    WebKeysDistinct(host);
    hide ExtractPort, WebKey, Numeric;
    var status, h := Render(ports, host), Handler(WebKey(host, id.port), id.path);
    assert h.webKey in status.web && status.web[h.webKey] == ports[id.port].handlers;
  }

  lemma IdOfHandler(ports: Ports, host: string, h: Handler) returns (id: FunnelId)
    requires WellFormed(ports) && h in Handlers(Render(ports, host))
    ensures id in Ids(ports) && id.OnPath? && h == Handler(WebKey(host, id.port), id.path)
  {
    WebKeysDistinct(host);
    hide ExtractPort, Numeric;
    var p :| p in ports && ports[p].Web? && h.webKey == WebKey(host, p);
    id := OnPath(p, h.path);
    hide WebKey;
  }

  lemma DetectedOnPort(ports: Ports, host: string, port: string, protocol: string)
    requires port in ports
    ensures Detected(Render(ports, host), port, protocol) <==> protocol == ProtocolOf(ports[port])
  {
    FlagsDetect(ports[port], protocol);
    hide Detects, Flags;
  }

  lemma KindOnPort(ports: Ports, host: string, port: string)
    requires port in ports
    ensures MayBeTcp(Render(ports, host), port) <==> ports[port].Forward?
    ensures MayBeHttp(Render(ports, host), port) <==> ports[port].Web?
  {
    hide Detected, Render;
    forall q ensures Detected(Render(ports, host), port, q) <==> q == ProtocolOf(ports[port]) {
      DetectedOnPort(ports, host, port, q);
    }
    assert Detected(Render(ports, host), port, ProtocolOf(ports[port]));
  }

  lemma MountReads(ports: Ports, host: string, funnels: Funnels, id: FunnelId)
    requires WellFormed(ports) && id in Ids(ports) && id.OnPath? && Lists(Render(ports, host), funnels)
    ensures IdKey(id) in funnels && funnels[IdKey(id)] == Listing(ports, id)
  {
    var status, key := Render(ports, host), IdKey(id);
    HandlerOfId(ports, host, id);
    assert ListsAt(status, funnels, key);
    hide Lists, Render, HandlerKey, ExtractPort, Detected, Listing;
    var g :| g in Handlers(status) && HandlerKey(g) == key && IsMountOf(status, funnels[key], g);
    var other := IdOfHandler(ports, host, g);
    HandlerOfId(ports, host, other);
    KeysOfPortsDistinct(ports);
    assert other == id;
    hide IsProxied, WellFormed, Ids;
    MountIsHttps(ports, host, id.port, funnels[key].protocol);
  }

  lemma MountIsHttps(ports: Ports, host: string, port: string, protocol: string)
    ensures port in ports && ports[port].Web? && Detected(Render(ports, host), port, protocol) ==> protocol == "https"
  {
    if port in ports {
      DetectedOnPort(ports, host, port, protocol);
    }
  }

  lemma HandlersAreMounts(ports: Ports, host: string, key: string)
    requires WellFormed(ports) && forall id | id in Ids(ports) && id.OnPath? :: IdKey(id) != key
    ensures forall h | h in Handlers(Render(ports, host)) :: HandlerKey(h) != key
    ensures HasHandler(Handlers(Render(ports, host)), key) ==> key in ports && ports[key].Web?
  {
    var status := Render(ports, host);
    hide HandlerKey, ExtractPort, Render, WellFormed, IsProxied;
    forall h | h in Handlers(status)
      ensures HandlerKey(h) != key && (ExtractPort(h.webKey) == key ==> key in ports && ports[key].Web?)
    {
      var id := IdOfHandler(ports, host, h);
      HandlerOfId(ports, host, id);
    }
  }

  lemma PortReads(ports: Ports, host: string, funnels: Funnels, key: string)
    requires WellFormed(ports) && ListsAt(Render(ports, host), funnels, key)
    requires forall id | id in Ids(ports) && id.OnPath? :: IdKey(id) != key
    ensures key in funnels <==> OnPort(key) in Ids(ports)
    ensures key in funnels ==> funnels[key] == Listing(ports, OnPort(key))
  {
    hide HandlerKey, ExtractPort, Detected, MayBeTcp, MayBeHttp, AllowedPorts, WellFormed, Render, Handlers, HasHandler,
         IsProxied, IsMountOf, IdKey;
    RenderedPorts(ports, host);
    HandlersAreMounts(ports, host, key);
    if key in ports {
      KindOnPort(ports, host, key);
      BareOnPort(ports, host, funnels, key);
    }
    hide IsBare;
  }

  lemma BareOnPort(ports: Ports, host: string, funnels: Funnels, port: string)
    requires port in ports
    ensures IsBare(Render(ports, host), funnels, port) ==> funnels[port] == Bare(port, ProtocolOf(ports[port]))
  {
    hide Detected, Render;
    if IsBare(Render(ports, host), funnels, port) {
      var q :| Detected(Render(ports, host), port, q) && funnels[port] == Bare(port, q);
      DetectedOnPort(ports, host, port, q);
    }
  }

  /**
   * Reading a node's status gives its forwarded ports, without their backends, and its proxying mounts, with theirs;
   * a mount that proxies nothing does not show (see MutesAreUnlisted).
   */
  lemma ReadsAsListed(ports: Ports, host: string, funnels: Funnels)
    requires WellFormed(ports) && Lists(Render(ports, host), funnels)
    ensures funnels == Listed(ports)
  {
    KeysOfPortsDistinct(ports);
    hide Lists, Render, WellFormed, Listing, IdKey, Ids;
    forall key
      ensures key in funnels <==> key in Listed(ports)
      ensures key in funnels ==> funnels[key] == Listed(ports)[key]
    {
      if id :| id in Ids(ports) && id.OnPath? && IdKey(id) == key {
        MountReads(ports, host, funnels, id);
        assert Listed(ports)[key] == Listing(ports, id);
      } else {
        ListsEvery(Render(ports, host), funnels, key);
        PortReads(ports, host, funnels, key);
        PortListed(ports, key);
      }
    }
  }

  lemma ListsEvery(status: Status, funnels: Funnels, key: string)
    requires Lists(status, funnels)
    ensures ListsAt(status, funnels, key)
  {
  }

  lemma PortListed(ports: Ports, key: string)
    requires WellFormed(ports) && forall id | id in Ids(ports) && id.OnPath? :: IdKey(id) != key
    ensures key in Listed(ports) <==> OnPort(key) in Ids(ports)
    ensures key in Listed(ports) ==> Listed(ports)[key] == Listing(ports, OnPort(key))
  {
    KeysOfPortsDistinct(ports);
    hide Listing, WellFormed;
    assert IdKey(OnPort(key)) == key;
    assert forall id | id in Ids(ports) && IdKey(id) == key :: id == OnPort(key);
  }

  // ---- adding funnels ----

  function WithMount(ports: Ports, port: string, path: string, destination: string): Ports {
    var mounts := if port in ports && ports[port].Web? then ports[port].handlers else map[];
    ports[port := Web(mounts[path := destination])]
  }

  function WithForward(ports: Ports, port: string, tls: bool, target: string): Ports {
    ports[port := Forward(tls, target)]
  }

  lemma ListedFromIds(ports: Ports, funnels: Funnels)
    requires WellFormed(ports)
    requires forall id | id in Ids(ports) :: IdKey(id) in funnels && funnels[IdKey(id)] == Listing(ports, id)
    requires forall key | key in funnels :: exists id | id in Ids(ports) :: IdKey(id) == key
    ensures Listed(ports) == funnels
  {
    KeysOfPortsDistinct(ports);
    IdsListed(ports);
    hide Listed, Listing, IdKey, Ids;
    forall key
      ensures key in funnels <==> key in Listed(ports)
      ensures key in funnels ==> funnels[key] == Listed(ports)[key]
    {
    }
  }

  lemma IdsListed(ports: Ports)
    requires WellFormed(ports)
    ensures forall id | id in Ids(ports) :: IdKey(id) in Listed(ports) && Listed(ports)[IdKey(id)] == Listing(ports, id)
    ensures forall key | key in Listed(ports) :: exists id | id in Ids(ports) :: IdKey(id) == key
  {
    KeysOfPortsDistinct(ports);
    hide Listing, WellFormed, Ids, IdKey;
  }

  lemma MountIsListed(ports: Ports, port: string, path: string, destination: string)
    requires WellFormed(ports) && Numeric(port) && path != "" && destination != ""
    requires port in ports ==> ports[port].Web?
    ensures var next := WithMount(ports, port, path, destination);
            WellFormed(next) &&
            Listed(next) == Listed(ports)[port + "|" + path := CurrentFunnel(port, path, "https", destination)]
  {
    var next, id := WithMount(ports, port, path, destination), OnPath(port, path);
    var funnels := Listed(ports)[IdKey(id) := CurrentFunnel(port, path, "https", destination)];
    assert WellFormed(next);
    MountIds(ports, port, path, destination);
    IdsListed(ports);
    KeysOfPortsDistinct(next);
    hide WellFormed, Listing, Ids, Numeric, WithMount, Listed, IdKey;
    ListedFromIds(next, funnels);
    assert IdKey(id) == port + "|" + path by {
      IdKeyOfPath(port, path);
    }
  }

  lemma IdKeyOfPath(port: string, path: string)
    ensures IdKey(OnPath(port, path)) == port + "|" + path
  {
  }

  lemma MountIds(ports: Ports, port: string, path: string, destination: string)
    requires destination != "" && (port in ports ==> ports[port].Web?)
    ensures var next, id := WithMount(ports, port, path, destination), OnPath(port, path);
            && Ids(next) == Ids(ports) + {id}
            && Listing(next, id) == CurrentFunnel(port, path, "https", destination)
            && forall other | other in Ids(ports) && other != id :: Listing(next, other) == Listing(ports, other)
  {
    var next, id := WithMount(ports, port, path, destination), OnPath(port, path);
    forall other ensures other in Ids(next) <==> other in Ids(ports) || other == id {
    }
  }

  lemma ForwardIsListed(ports: Ports, port: string, tls: bool, target: string)
    requires WellFormed(ports) && Numeric(port) && (port in ports ==> ports[port].Forward?)
    ensures var next := WithForward(ports, port, tls, target);
            WellFormed(next) &&
            Listed(next) == Listed(ports)[port := Bare(port, if tls then "tls-terminated-tcp" else "tcp")]
  {
    var next, id := WithForward(ports, port, tls, target), OnPort(port);
    var funnels := Listed(ports)[IdKey(id) := Bare(port, if tls then "tls-terminated-tcp" else "tcp")];
    assert WellFormed(next) && IdKey(id) == port;
    ForwardIds(ports, port, tls, target);
    IdsListed(ports);
    KeysOfPortsDistinct(next);
    hide WellFormed, Listing, Ids, Numeric, WithForward, Listed, IdKey;
    ListedFromIds(next, funnels);
  }

  lemma ForwardIds(ports: Ports, port: string, tls: bool, target: string)
    requires port in ports ==> ports[port].Forward?
    ensures var next, id := WithForward(ports, port, tls, target), OnPort(port);
            && Ids(next) == Ids(ports) + {id}
            && Listing(next, id) == Bare(port, if tls then "tls-terminated-tcp" else "tcp")
            && forall other | other in Ids(ports) && other != id :: Listing(next, other) == Listing(ports, other)
  {
    var next, id := WithForward(ports, port, tls, target), OnPort(port);
    forall other ensures other in Ids(next) <==> other in Ids(ports) || other == id {
    }
  }

  lemma MountTouches(ports: Ports, port: string, path: string, destination: string)
    requires port in ports ==> ports[port].Web?
    ensures Untouched(ports, WithMount(ports, port, path, destination), {port + "|" + path})
  {
    var next := WithMount(ports, port, path, destination);
    IdKeyOfPath(port, path);
    hide IdKey;
    forall id | id != OnPath(port, path) ensures Behind(next, id) == Behind(ports, id) {
    }
  }

  lemma ForwardTouches(ports: Ports, port: string, tls: bool, target: string)
    requires port in ports ==> ports[port].Forward?
    ensures Untouched(ports, WithForward(ports, port, tls, target), {port})
  {
    var next := WithForward(ports, port, tls, target);
    assert IdKey(OnPort(port)) == port;
    hide IdKey;
    forall id | id != OnPort(port) ensures Behind(next, id) == Behind(ports, id) {
    }
  }

  lemma NothingListed()
    ensures WellFormed(map[]) && Listed(map[]) == map[]
  {
    assert Ids(map[]) == {};
  }
}
