/**
 * What one Serve endpoint is: how a label-declared service is compared with the endpoint
 * the daemon reports, and what the daemon records for it.
 */
module Serve {
  import opened Strings
  import opened Types

  /** A Serve endpoint's address: a service's full name ("svc:web") and its port. */
  datatype Endpoint = Endpoint(name: string, port: string)

  /** What the daemon holds for one endpoint. A web port maps mount paths to proxy targets. */
  datatype Config =
    | Tcp(tls: bool, forward: string, proxyProtocol: int)
    | Web(https: bool, handlers: map<string, string>)

  /** One endpoint as DockTail reads it back. */
  datatype ServiceEndpoint = ServiceEndpoint(
    serviceName: string, port: string, protocol: string, path: string, destination: string, proxyProtocol: int)

  predicate IsManaged(serviceName: string) {
    "svc:" <= serviceName
  }

  function NormalizeServiceName(serviceName: string): string {
    TrimPrefix(ToLower(TrimSpace(serviceName)), "svc:")
  }

  function NormalizeServicePath(path: string): string {
    if path == "" then "/" else path
  }

  /** The "<service>:<port>" key both the reported and the desired side are indexed by. */
  function KeyOf(e: Endpoint): string {
    e.name + ":" + e.port
  }

  function EndpointOf(svc: ContainerService): Endpoint {
    Endpoint("svc:" + svc.serviceName, svc.port)
  }

  function DesiredServiceKey(svc: ContainerService): string {
    "svc:" + svc.serviceName + ":" + svc.port
  }

  function BuildDestination(svc: ContainerService): string {
    svc.protocol + "://" + svc.ipAddress + ":" + svc.targetPort
  }

  function SplitScheme(dest: string): (r: (string, string)) {
    var i := Index(dest, "://");
    if i >= 0 then (dest[..i], dest[i + 3..]) else ("", dest)
  }

  predicate SameDestination(current: string, expected: string) {
    var (curScheme, curHostPort) := SplitScheme(current);
    var (expScheme, expHostPort) := SplitScheme(expected);
    if curHostPort != expHostPort then false
    else if curScheme != "" && expScheme != "" then curScheme == expScheme
    else true
  }

  predicate IsHttp(protocol: string) {
    protocol == "http" || protocol == "https"
  }

  predicate ServiceConfigChanged(current: ServiceEndpoint, desired: ContainerService) {
    || !SameDestination(current.destination, BuildDestination(desired))
    || current.protocol != desired.serviceProtocol
    || current.proxyProtocol != desired.proxyProtocol
    || (IsHttp(desired.serviceProtocol) &&
        NormalizeServicePath(current.path) != NormalizeServicePath(desired.servicePath))
  }

  /** The arguments of one `tailscale serve` invocation; proxyProtocol 0 and no path mean the flag is left out. */
  datatype ServeArgs = ServeArgs(
    service: string, kind: string, port: string, proxyProtocol: int, setPath: Option<string>, target: string)

  function ServeAddArgs(svc: ContainerService): Result<ServeArgs> {
    if svc.serviceProtocol !in {"http", "https", "tcp", "tls-terminated-tcp"} then Failure
    else Success(ServeArgs(
      "svc:" + svc.serviceName, svc.serviceProtocol, svc.port, svc.proxyProtocol,
      if IsHttp(svc.serviceProtocol) then Some(NormalizeServicePath(svc.servicePath)) else None,
      BuildDestination(svc)))
  }

  function KindOf(c: Config): string {
    match c
    case Tcp(tls, _, _) => if tls then "tls-terminated-tcp" else "tcp"
    case Web(https, _) => if https then "https" else "http"
  }

  /** What the daemon records for a `serve` call on a port that holds `existing`, which must not be of another kind. */
  function Recorded(args: ServeArgs, existing: Option<Config>): Config {
    if IsHttp(args.kind) then
      var mount := map[if args.setPath.Some? then args.setPath.value else "/" := args.target];
      var mounts := if existing.Some? && existing.value.Web? then existing.value.handlers + mount else mount;
      Web(args.kind == "https", mounts)
    else
      Tcp(args.kind == "tls-terminated-tcp", SplitScheme(args.target).1, args.proxyProtocol)
  }

  /** The configuration a service's own arguments put on an empty port. */
  function ConfigOf(svc: ContainerService): Config
    requires ServeAddArgs(svc).Success?
  {
    Recorded(ServeAddArgs(svc).value, None)
  }

  /** A service as the label parser hands it over (see Declarations.ParsedServicesAreValid). */
  ghost predicate ValidService(svc: ContainerService) {
    && svc.serviceProtocol in {"http", "https", "tcp", "tls-terminated-tcp"}
    && svc.protocol in {"http", "https", "https+insecure", "tcp", "tls-terminated-tcp"}
    && (IsHttp(svc.serviceProtocol) ==> svc.proxyProtocol == 0)
    && !Contains(svc.ipAddress + ":" + svc.targetPort, "://")
    && ':' !in svc.port
  }

  /**
   * A configuration the daemon itself writes: a bare host:port to forward to, or exactly one
   * mount whose proxy target carries a scheme.
   */
  ghost predicate Canonical(c: Config) {
    match c
    case Tcp(_, forward, _) => !Contains(forward, "://")
    case Web(_, handlers) => |handlers| == 1 && forall p | p in handlers :: p != "" && Index(handlers[p], "://") > 0
  }

  /** The only mount path of a port that has one mount. */
  ghost function PathOf(handlers: map<string, string>): string {
    if handlers == map[] then ""
    else
      var p :| p in handlers;
      p
  }

  lemma OneMount(handlers: map<string, string>, p: string)
    requires |handlers| == 1
    ensures var q := PathOf(handlers); q in handlers && handlers == map[q := handlers[q]]
    ensures p in handlers ==> p == PathOf(handlers)
  {
    var q := PathOf(handlers);
    assert handlers != map[];
    assert |handlers.Keys - {q}| == 0;
    assert handlers.Keys == {q};
  }

  /** How a configuration reads back; exact on canonical ones. */
  ghost function ViewOf(e: Endpoint, c: Config): ServiceEndpoint {
    match c
    case Tcp(_, forward, proxy) => ServiceEndpoint(e.name, e.port, KindOf(c), "", forward, proxy)
    case Web(_, handlers) =>
      var p := PathOf(handlers);
      ServiceEndpoint(e.name, e.port, KindOf(c), p, if p in handlers then handlers[p] else "", 0)
  }

  lemma KeyInjective(a: Endpoint, b: Endpoint)
    requires KeyOf(a) == KeyOf(b) && ':' !in a.port && ':' !in b.port
    ensures a == b
  {
    SeparatorSplits(a.name, b.name, a.port, b.port, ':');
  }

  lemma KeyOfService(svc: ContainerService)
    ensures DesiredServiceKey(svc) == KeyOf(EndpointOf(svc))
  {
  }

  lemma SplitsBareHostPort(hostPort: string)
    requires !Contains(hostPort, "://")
    ensures SplitScheme(hostPort) == ("", hostPort)
  {
  }

  lemma SplitsAfterScheme(scheme: string, rest: string)
    requires ':' !in scheme
    ensures Index(scheme + "://" + rest, "://") == |scheme|
    ensures SplitScheme(scheme + "://" + rest) == (scheme, rest)
  {
    var s, n := scheme + "://" + rest, |scheme|;
    assert s[n..n + 3] == "://";
    assert OccursAt(s, "://", n) && Contains(s, "://");
    forall j: nat | j < n ensures !OccursAt(s, "://", j) {
      if j + 3 <= |s| {
        assert s[j..j + 3][0] == s[j] == scheme[j];
      }
    }
    assert Index(s, "://") == n;
    assert s[..n] == scheme && s[n + 3..] == rest;
  }

  lemma ProtocolIsPlain(svc: ContainerService)
    requires ValidService(svc)
    ensures ':' !in svc.protocol
  {
    hide Contains;
  }

  lemma SplitsBuiltDestination(svc: ContainerService)
    requires ValidService(svc)
    ensures SplitScheme(BuildDestination(svc)) == (svc.protocol, svc.ipAddress + ":" + svc.targetPort)
    ensures Index(BuildDestination(svc), "://") == |svc.protocol|
  {
    var hp := svc.ipAddress + ":" + svc.targetPort;
    assert BuildDestination(svc) == svc.protocol + "://" + hp;
    hide Contains, Index, SplitScheme, BuildDestination;
    ProtocolIsPlain(svc);
    SplitsAfterScheme(svc.protocol, hp);
  }

  lemma ConfigOfIsCanonical(svc: ContainerService)
    requires ValidService(svc)
    ensures Canonical(ConfigOf(svc)) && KindOf(ConfigOf(svc)) == svc.serviceProtocol
  {
    SplitsBuiltDestination(svc);
    if IsHttp(svc.serviceProtocol) {
      var p, d := NormalizeServicePath(svc.servicePath), BuildDestination(svc);
      assert ConfigOf(svc).handlers == map[p := d];
      assert |map[p := d]| == 1;
    }
  }

  /**
   * The comparison decides exactly whether running the service's `serve` command again would
   * change what the daemon holds: an endpoint just recorded never reads back as changed
   * (issue #56), and any difference in kind, destination, PROXY version or HTTP path is seen.
   */
  lemma ChangedMeansDifferentConfig(e: Endpoint, c: Config, svc: ContainerService)
    requires Canonical(c) && ValidService(svc)
    ensures ServiceConfigChanged(ViewOf(e, c), svc) <==> c != ConfigOf(svc)
  {
    if KindOf(c) != svc.serviceProtocol {
      ConfigOfIsCanonical(svc);
    } else if c.Tcp? {
      ChangedForward(e, c, svc);
    } else {
      ChangedMount(e, c, svc);
    }
  }

  lemma ChangedForward(e: Endpoint, c: Config, svc: ContainerService)
    requires c.Tcp? && Canonical(c) && ValidService(svc) && KindOf(c) == svc.serviceProtocol
    ensures ServiceConfigChanged(ViewOf(e, c), svc) <==> c != ConfigOf(svc)
  {
    SplitsBuiltDestination(svc);
    SplitsBareHostPort(c.forward);
  }

  lemma ChangedMount(e: Endpoint, c: Config, svc: ContainerService)
    requires c.Web? && Canonical(c) && ValidService(svc) && KindOf(c) == svc.serviceProtocol
    ensures ServiceConfigChanged(ViewOf(e, c), svc) <==> c != ConfigOf(svc)
  {
    OneMount(c.handlers, "");
    var p := PathOf(c.handlers);
    SameDestinationOfUrls(c.handlers[p], svc);
    SingleMountsEqual(c.handlers, p, NormalizeServicePath(svc.servicePath), BuildDestination(svc));
  }

  lemma SingleMountsEqual(handlers: map<string, string>, p: string, q: string, d: string)
    requires p in handlers && handlers == map[p := handlers[p]]
    ensures handlers == map[q := d] <==> p == q && handlers[p] == d
  {
    if handlers == map[q := d] {
      assert p in map[q := d];
    }
  }

  lemma SameDestinationOfUrls(d: string, svc: ContainerService)
    requires ValidService(svc) && Index(d, "://") > 0
    ensures SameDestination(d, BuildDestination(svc)) <==> d == BuildDestination(svc)
  {
    SplitsBuiltDestination(svc);
    var i, e := Index(d, "://"), BuildDestination(svc);
    if SameDestination(d, e) {
      SplitUrlDeterminesIt(d, e);
    }
  }

  lemma SplitUrlDeterminesIt(d: string, e: string)
    requires Contains(d, "://") && Contains(e, "://") && SplitScheme(d) == SplitScheme(e)
    ensures d == e
  {
    SplitJoinsBack(d);
    SplitJoinsBack(e);
  }

  lemma SplitJoinsBack(d: string)
    requires Contains(d, "://")
    ensures SplitScheme(d).0 + "://" + SplitScheme(d).1 == d
  {
    var i := Index(d, "://");
    hide Contains, Index;
    assert OccursAt(d, "://", i);
    assert d == d[..i] + d[i..i + 3] + d[i + 3..];
  }

  lemma NormalizedFullName(name: string)
    ensures NormalizeServiceName("svc:" + name) == ToLower(TrimRight(name))
  {
    var full, lower := "svc:" + name, ToLower(TrimRight(name));
    assert full[0] == 's';
    assert TrimLeft(full) == full;
    TrimRightAppends("svc:", name);
    assert TrimSpace(full) == "svc:" + TrimRight(name);
    hide TrimRight, TrimLeft, TrimSpace, IsSpace;
    LowerAppends("svc:", TrimRight(name));
    LowerOfPrefix();
    assert ToLower(TrimSpace(full)) == "svc:" + lower;
    assert ("svc:" + lower)[4..] == lower;
  }

  lemma LowerOfPrefix()
    ensures ToLower("svc:") == "svc:"
  {
  }

  /**
   * When a declared name and the full name it is served under normalize alike, so that freezing
   * the one freezes the other: no leading white space, and no "svc:" prefix of its own.
   */
  lemma FreezesOwnName(name: string)
    ensures NormalizeServiceName("svc:" + name) == NormalizeServiceName(name) <==>
            TrimRight(name) == TrimSpace(name) && !("svc:" <= ToLower(TrimSpace(name)))
  {
    NormalizedFullName(name);
    TrimsCommute(name);
    assert |ToLower(TrimRight(name))| == |TrimRight(name)|;
    assert |NormalizeServiceName(name)| <= |TrimSpace(name)|;
  }
}
