/** What a container's labels declare: its Serve services, its funnel and its tags. */
module Labels {
  import opened Decimal
  import opened Serve
  import opened Strings
  import opened Types
  import FunnelOwnership
  import FunnelStatus

  type LabelSet = map<string, string>

  const ENABLE := "docktail.service.enable"
  /** "<PRIMARY><field>" declares the primary service, "<PRIMARY><n>.<field>" the n-th further one. */
  const PRIMARY := "docktail.service."
  const INDEXED_PORT := ".port"
  const FUNNEL_ENABLE := "docktail.funnel.enable"
  const FUNNEL_PORT := "docktail.funnel.port"
  const FUNNEL_PUBLIC_PORT := "docktail.funnel.funnel-port"
  const FUNNEL_PROTOCOL := "docktail.funnel.protocol"
  const FUNNEL_PATH := "docktail.funnel.path"
  const MAX_INT: nat := 0x7FFF_FFFF_FFFF_FFFF

  function Get(labels: LabelSet, key: string): string {
    if key in labels then labels[key] else ""
  }

  predicate ServiceEnabled(labels: LabelSet) {
    Get(labels, ENABLE) == "true"
  }

  predicate FunnelEnabled(labels: LabelSet) {
    Get(labels, FUNNEL_ENABLE) == "true"
  }

  // ---- one declaration ----

  datatype Declaration = Declaration(
    name: string, description: string, targetPort: string, servicePort: string, serviceProtocol: string,
    protocol: string, proxyProtocol: string, path: string, hasPath: bool)

  function DeclarationAt(labels: LabelSet, prefix: string): Declaration {
    Declaration(
      Get(labels, prefix + "name"), Get(labels, prefix + "description"), Get(labels, prefix + "port"),
      Get(labels, prefix + "service-port"), Get(labels, prefix + "service-protocol"), Get(labels, prefix + "protocol"),
      Get(labels, prefix + "proxy-protocol"), Get(labels, prefix + "path"), prefix + "path" in labels)
  }

  /** How the backend is spoken to, and where and how the service listens. */
  datatype Listener = Listener(protocol: string, port: string, serviceProtocol: string)

  predicate IsTcp(protocol: string) {
    protocol == "tcp" || protocol == "tls-terminated-tcp"
  }

  predicate BackendProtocol(protocol: string) {
    protocol in {"http", "https", "https+insecure", "tcp", "tls-terminated-tcp"}
  }

  predicate ServiceProtocol(protocol: string) {
    protocol in {"http", "https", "tcp", "tls-terminated-tcp"}
  }

  /** Fills in what is not declared. Only a protocol that is declared and unknown is an error. */
  function ResolveProtocols(
    targetPort: string, servicePort: string, serviceProtocol: string, protocol: string): (r: Result<Listener>)
    ensures r.Failure? <==>
              (protocol != "" && !BackendProtocol(protocol))
                || (serviceProtocol != "" && !ServiceProtocol(serviceProtocol))
    ensures r.Success? && protocol == "" && targetPort != "443" && serviceProtocol == "" && servicePort == "" ==>
              r.value == Listener("http", "80", "http")
    ensures r.Success? && serviceProtocol == "" && IsTcp(r.value.protocol) ==>
              r.value.serviceProtocol == r.value.protocol
    ensures r.Success? && serviceProtocol == "" && !IsTcp(r.value.protocol) ==>
              (r.value.serviceProtocol == "https" <==> servicePort == "443") && IsHttp(r.value.serviceProtocol)
    ensures r.Success? && servicePort == "" ==>
              (r.value.port == "443" <==> serviceProtocol == "https") && r.value.port in {"80", "443"}
  {
    var backend := if protocol != "" then protocol else if targetPort == "443" then "https" else "http";
    if !BackendProtocol(backend) then Failure
    else
      var kind :=
        if serviceProtocol != "" then serviceProtocol
        else if IsTcp(backend) then backend
        else if servicePort == "443" then "https"
        else "http";
      var port :=
        if servicePort != "" then servicePort
        else if serviceProtocol == "https" then "443"
        else "80";
      if !ServiceProtocol(kind) then Failure else Success(Listener(backend, port, kind))
  }

  /** The defaults are a fixed point: spelling them out in the labels changes nothing. */
  lemma DefaultsAreStable(targetPort: string, servicePort: string, serviceProtocol: string, protocol: string)
    requires ResolveProtocols(targetPort, servicePort, serviceProtocol, protocol).Success?
    ensures var r := ResolveProtocols(targetPort, servicePort, serviceProtocol, protocol);
            var l := r.value;
            && BackendProtocol(l.protocol) && ServiceProtocol(l.serviceProtocol) && l.port != ""
            && ResolveProtocols(targetPort, l.port, l.serviceProtocol, l.protocol) == r
            && (servicePort != "" ==> l.port == servicePort)
            && (serviceProtocol != "" ==> l.serviceProtocol == serviceProtocol)
            && (protocol != "" ==> l.protocol == protocol)
            && (serviceProtocol == "" ==> IsTcp(l.serviceProtocol) == IsTcp(l.protocol))
  {
  }

  /** The version written in the label; none is written exactly when PROXY is off. */
  function ParseProxyProtocol(value: string, serviceProtocol: string): (r: Result<int>)
    ensures r == Success(0) <==> TrimSpace(value) == ""
    ensures r.Success? && r.value != 0 ==>
              r.value in {1, 2} && IsTcp(serviceProtocol) && TrimSpace(value) == FormatUint(r.value)
    ensures IsTcp(serviceProtocol) && TrimSpace(value) in {"1", "2"} ==> r.Success?
  {
    var trimmed := TrimSpace(value);
    if trimmed == "" then Success(0)
    else if !IsTcp(serviceProtocol) then Failure
    else if trimmed == "1" then Success(1)
    else if trimmed == "2" then Success(2)
    else Failure
  }

  function ParsePath(rawPath: string): Result<string> {
    var path := TrimSpace(rawPath);
    if path == "" then Success("/")
    else if path[0] != '/' then Failure
    else Success(path)
  }

  /** A parsed path parses to itself. */
  lemma ParsedPathIsStable(rawPath: string)
    requires ParsePath(rawPath).Success?
    ensures ParsePath(ParsePath(rawPath).value) == ParsePath(rawPath)
    ensures ParsePath(rawPath).value == if TrimSpace(rawPath) == "" then "/" else TrimSpace(rawPath)
  {
    hide TrimSpace, TrimLeft, TrimRight;
    var path := ParsePath(rawPath).value;
    assert !IsSpace('/');
    TrimmedAlready(path);
  }

  function ParseServicePath(rawPath: string, declared: bool, serviceProtocol: string): Result<string> {
    if IsHttp(serviceProtocol) then ParsePath(rawPath)
    else if declared then Failure
    else Success("")
  }

  datatype Checked = Checked(listener: Listener, proxyProtocol: int, path: string)

  /** A declaration with a name and a container port whose protocols, PROXY version and path go together. */
  function Check(d: Declaration): Result<Checked> {
    if d.name == "" || d.targetPort == "" then Failure
    else
      var listener := ResolveProtocols(d.targetPort, d.servicePort, d.serviceProtocol, d.protocol);
      if listener.Failure? then Failure
      else
        var proxy := ParseProxyProtocol(d.proxyProtocol, listener.value.serviceProtocol);
        var path := ParseServicePath(d.path, d.hasPath, listener.value.serviceProtocol);
        if proxy.Failure? || path.Failure? then Failure
        else Success(Checked(listener.value, proxy.value, path.value))
  }

  datatype Destination = Destination(ip: string, port: string)

  /** What Docker knows of one container; `resolve` finds where a container port can be reached, if anywhere. */
  datatype Container = Container(name: string, tags: seq<string>, direct: bool, resolve: string -> Option<Destination>)

  function ServiceOf(c: Container, d: Declaration, checked: Checked, dest: Destination): ContainerService {
    ContainerService(
      c.name, true, d.name, d.description, checked.listener.port, dest.port, checked.listener.serviceProtocol,
        checked.path,
      checked.listener.protocol, c.tags, dest.ip, checked.proxyProtocol, false, "", "", "", "", "")
  }

  /** What the daemon can be asked to serve: PROXY only on TCP listeners, a mount path only on HTTP ones. */
  ghost predicate Declarable(svc: ContainerService) {
    && BackendProtocol(svc.protocol) && ServiceProtocol(svc.serviceProtocol)
    && svc.serviceName != "" && svc.port != ""
    && (svc.proxyProtocol == 0 || (svc.proxyProtocol in {1, 2} && IsTcp(svc.serviceProtocol)))
    && (if IsHttp(svc.serviceProtocol) then svc.servicePath != "" && svc.servicePath[0] == '/'
        else svc.servicePath == "")
  }

  lemma CheckedIsDeclarable(c: Container, d: Declaration, dest: Destination)
    requires Check(d).Success?
    ensures Declarable(ServiceOf(c, d, Check(d).value, dest))
  {
    DefaultsAreStable(d.targetPort, d.servicePort, d.serviceProtocol, d.protocol);
    hide ResolveProtocols, ParseProxyProtocol, ParseServicePath, BackendProtocol, ServiceProtocol;
    ProxyAndPathFit(d, Check(d).value.listener.serviceProtocol);
  }

  lemma ProxyAndPathFit(d: Declaration, kind: string)
    ensures var proxy := ParseProxyProtocol(d.proxyProtocol, kind);
            proxy.Success? ==> proxy.value == 0 || (proxy.value in {1, 2} && IsTcp(kind))
    ensures var path := ParseServicePath(d.path, d.hasPath, kind);
            path.Success? ==> if IsHttp(kind) then path.value != "" && path.value[0] == '/' else path.value == ""
  {
    hide TrimSpace;
  }

  // ---- the indexed services ----

  /** The digits of "docktail.service.<digits>.port". */
  function IndexDigits(key: string): Option<string> {
    var n := |key| - |INDEXED_PORT|;
    if |PRIMARY| < n && PRIMARY <= key && key[n..] == INDEXED_PORT && Numeric(key[|PRIMARY|..n])
    then Some(key[|PRIMARY|..n])
    else None
  }

  /** The index a label declares; none when its number overflows. */
  function IndexIn(key: string): Option<nat> {
    var digits := IndexDigits(key);
    if digits.Some? && AllDigits(digits.value) && Value(digits.value) <= MAX_INT
    then Some(Value(digits.value))
    else None
  }

  ghost function IndexSet(labels: LabelSet): set<nat> {
    set key | key in labels && IndexIn(key).Some? :: IndexIn(key).value
  }

  function PrefixOf(index: nat): string {
    PRIMARY + FormatUint(index) + "."
  }

  ghost predicate Ascends(numbers: seq<nat>) {
    forall i, j | 0 <= i < j < |numbers| :: numbers[i] < numbers[j]
  }

  ghost predicate Enumerates(numbers: seq<nat>, s: set<nat>) {
    Ascends(numbers) && forall n :: n in numbers <==> n in s
  }

  lemma LeastExists(s: set<nat>) returns (least: nat)
    requires s != {}
    ensures least in s && forall n | n in s :: least <= n
  {
    var m :| m in s;
    if s == {m} {
      least := m;
    } else {
      var rest := s - {m};
      least := LeastExists(rest);
      assert forall n | n in s :: n == m || n in rest;
      if m < least {
        least := m;
      }
    }
  }

  lemma EnumerationExists(s: set<nat>)
    ensures exists numbers :: Enumerates(numbers, s)
    decreases |s|
  {
    if s == {} {
      assert Enumerates([], s);
    } else {
      var least := LeastExists(s);
      EnumerationExists(s - {least});
      var rest :| Enumerates(rest, s - {least});
      assert forall i | 0 <= i < |rest| :: rest[i] in rest;
      assert Enumerates([least] + rest, s);
    }
  }

  lemma {:induction false} EnumerationCounts(a: seq<nat>, s: set<nat>)
    requires Enumerates(a, s)
    ensures |a| == |s|
  {
    if a != [] {
      var last := a[|a| - 1];
      EnumeratesInit(a, s);
      EnumerationCounts(a[..|a| - 1], s - {last});
      assert last in s;
    } else {
      assert s == {};
    }
  }

  lemma {:induction false} EnumerationIsUnique(a: seq<nat>, b: seq<nat>, s: set<nat>)
    requires Enumerates(a, s) && Enumerates(b, s)
    ensures a == b
  {
    EnumerationCounts(a, s);
    EnumerationCounts(b, s);
    if a != [] {
      var x, y := a[|a| - 1], b[|b| - 1];
      LastIsGreatest(a);
      LastIsGreatest(b);
      assert x in b && y in a;
      assert x == y;
      EnumeratesInit(a, s);
      EnumeratesInit(b, s);
      EnumerationIsUnique(a[..|a| - 1], b[..|b| - 1], s - {x});
      assert a == a[..|a| - 1] + [x] && b == b[..|b| - 1] + [y];
    }
  }

  lemma LastIsGreatest(a: seq<nat>)
    requires Ascends(a) && a != []
    ensures forall n | n in a :: n <= a[|a| - 1]
    ensures a[|a| - 1] !in a[..|a| - 1]
  {
  }

  lemma EnumeratesInit(a: seq<nat>, s: set<nat>)
    requires Enumerates(a, s) && a != []
    ensures Enumerates(a[..|a| - 1], s - {a[|a| - 1]})
  {
    var init, last := a[..|a| - 1], a[|a| - 1];
    LastIsGreatest(a);
    assert a == init + [last];
    forall n ensures n in init <==> n in s - {last} {
      assert n in a <==> n in init || n == last;
    }
  }

  /** The declared indices in the order both parsers take them. */
  ghost function Numbers(labels: LabelSet): (r: seq<nat>)
    ensures Enumerates(r, IndexSet(labels))
  {
    EnumerationExists(IndexSet(labels));
    var r :| Enumerates(r, IndexSet(labels));
    r
  }

  /** Sorting a set of numbers. */
  method SortInts(s: set<nat>) returns (sorted: seq<nat>)
    ensures Enumerates(sorted, s)
  {
    sorted := [];
    var todo := s;
    while todo != {}
      invariant todo <= s && Ascends(sorted)
      invariant forall n :: n in s <==> n in todo || n in sorted
      invariant forall n, m | n in sorted && m in todo :: n < m
    {
      ghost var witness' := LeastExists(todo);
      var least :| least in todo && forall n | n in todo :: least <= n;
      assert forall i | 0 <= i < |sorted| :: sorted[i] in sorted;
      todo, sorted := todo - {least}, sorted + [least];
    }
  }

  /** Collects the declared indices, in whatever order the labels come, and sorts them. */
  method IndexedServiceNumbers(labels: LabelSet) returns (numbers: seq<nat>)
    ensures Enumerates(numbers, IndexSet(labels)) && numbers == Numbers(labels)
  {
    var indices: set<nat> := {};
    var todo := labels.Keys;
    while todo != {}
      invariant todo <= labels.Keys
      invariant forall n :: n in indices <==> exists key | key in labels && key !in todo :: IndexIn(key) == Some(n)
    {
      var key :| key in todo;
      todo := todo - {key};
      if IndexIn(key).Some? {
        indices := indices + {IndexIn(key).value};
      }
    }
    numbers := SortInts(indices);
    assert indices == IndexSet(labels);
    EnumerationIsUnique(numbers, Numbers(labels), indices);
  }

  function EndpointKey(name: string, port: string): string {
    name + ":" + port
  }

  /** The endpoint an index lays claim to, if its declaration is in order. */
  function ClaimAt(labels: LabelSet, index: nat): Option<string> {
    var d := DeclarationAt(labels, PrefixOf(index));
    if Check(d).Success? then Some(EndpointKey(d.name, Check(d).value.listener.port)) else None
  }

  /** An endpoint belongs to whoever lays claim first, reachable or not; the primary service comes first of all. */
  predicate Taken(labels: LabelSet, numbers: seq<nat>, primary: string, key: string) {
    key == primary || exists n | n in numbers :: ClaimAt(labels, n) == Some(key)
  }

  function IndexedService(c: Container, labels: LabelSet, index: nat, primaryIp: string): Option<ContainerService> {
    var d := DeclarationAt(labels, PrefixOf(index));
    if Check(d).Failure? then None
    else
      match c.resolve(d.targetPort)
      case None => None
      case Some(dest) =>
        var ip := if c.direct && primaryIp != "" then primaryIp else dest.ip;
        Some(ServiceOf(c, d, Check(d).value, Destination(ip, dest.port)))
  }

  /** The services of the given indices: those that can be reached and that nobody earlier claimed the endpoint of. */
  ghost function IndexedServices(
    c: Container, labels: LabelSet, numbers: seq<nat>, primary: string, primaryIp: string): seq<ContainerService>
  {
    if numbers == [] then []
    else
      var init, last := numbers[..|numbers| - 1], numbers[|numbers| - 1];
      IndexedServices(c, labels, init, primary, primaryIp) + Admitted(c, labels, init, last, primary, primaryIp)
  }

  ghost function Admitted(
    c: Container, labels: LabelSet, earlier: seq<nat>, index: nat, primary: string,
    primaryIp: string): seq<ContainerService>
  {
    var claim, svc := ClaimAt(labels, index), IndexedService(c, labels, index, primaryIp);
    if claim.Some? && !Taken(labels, earlier, primary, claim.value) && svc.Some? then [svc.value] else []
  }

  /** One index: admitted, or skipped for one of the reasons the parser warns about. */
  method ParseIndexedPort(
    c: Container, labels: LabelSet, ghost earlier: seq<nat>, index: nat, ghost primary: string, primaryIp: string,
    used: set<string>)
    returns (services: seq<ContainerService>, used': set<string>)
    requires forall key :: key in used <==> Taken(labels, earlier, primary, key)
    ensures services == Admitted(c, labels, earlier, index, primary, primaryIp)
    ensures used' == used + if ClaimAt(labels, index).Some? then {ClaimAt(labels, index).value} else {}
  {
    hide DeclarationAt, Taken, PrefixOf, Check, ServiceOf;
    services, used' := [], used;
    var d := DeclarationAt(labels, PrefixOf(index));
    var checked := Check(d);
    if checked.Failure? {
      return;
    }
    var key := EndpointKey(d.name, checked.value.listener.port);
    if key in used {
      return;
    }
    used' := used + {key};
    var found := c.resolve(d.targetPort);
    if found.None? {
      return;
    }
    var ip := if c.direct && primaryIp != "" then primaryIp else found.value.ip;
    services := [ServiceOf(c, d, checked.value, Destination(ip, found.value.port))];
  }

  method ParseIndexedPorts(c: Container, labels: LabelSet, primary: string, primaryIp: string)
    returns (services: seq<ContainerService>)
    ensures services == IndexedServices(c, labels, Numbers(labels), primary, primaryIp)
  {
    var indices := IndexedServiceNumbers(labels);
    services := [];
    var used := {primary};
    hide ClaimAt, Admitted, Enumerates;
    for i := 0 to |indices|
      invariant services == IndexedServices(c, labels, indices[..i], primary, primaryIp)
      invariant forall key :: key in used <==> Taken(labels, indices[..i], primary, key)
    {
      var more, used' := ParseIndexedPort(c, labels, indices[..i], indices[i], primary, primaryIp, used);
      assert indices[..i + 1] == indices[..i] + [indices[i]];
      assert indices[..i + 1][..i] == indices[..i];
      services, used := services + more, used';
    }
    assert indices[..|indices|] == indices;
  }

  // ---- the funnel ----

  datatype Funnel = Funnel(ip: string, port: string, targetPort: string, publicPort: string, protocol: string,
                           path: string)

  function OrElse(value: string, default: string): string {
    if value == "" then default else value
  }

  /** The funnel of an enabled declaration. */
  function ParseFunnel(c: Container, labels: LabelSet): Result<Funnel> {
    var port := Get(labels, FUNNEL_PORT);
    var protocol := OrElse(Get(labels, FUNNEL_PROTOCOL), "https");
    var publicPort := OrElse(Get(labels, FUNNEL_PUBLIC_PORT), "443");
    var path := ParsePath(Get(labels, FUNNEL_PATH));
    if port == "" then Failure
    else if IsHttp(protocol) && publicPort !in {"443", "8443", "10000"} then Failure
    else if !ServiceProtocol(protocol) then Failure
    else if FUNNEL_PATH in labels && IsTcp(protocol) then Failure
    else if path.Failure? then Failure
    else
      match c.resolve(port)
      case None => Failure
      case Some(dest) => Success(Funnel(dest.ip, port, dest.port, publicPort, protocol, path.value))
  }

  function WithFunnel(svc: ContainerService, f: Funnel): ContainerService {
    svc.(funnelEnabled := true, funnelPort := f.port, funnelTargetPort := f.targetPort,
         funnelFunnelPort := f.publicPort, funnelProtocol := f.protocol, funnelPath := f.path)
  }

  function FunnelOnly(c: Container, f: Funnel): ContainerService {
    WithFunnel(ContainerService(c.name, false, "", "", "", "", "", "", "", c.tags, f.ip, 0, false, "", "", "", "", ""),
               f)
  }

  /**
   * A parsed funnel is one the node can be asked for, with a path only over HTTP; except that the public port of a TCP
   * funnel is taken as it is written, and so may be no port at all.
   */
  lemma FunnelConfigIsServable(c: Container, labels: LabelSet, svc: ContainerService)
    requires ParseFunnel(c, labels).Success?
    ensures var s := WithFunnel(svc, ParseFunnel(c, labels).value);
            && FunnelOwnership.SupportedProtocol(s.funnelProtocol)
            && (FunnelOwnership.Servable(s) <==> IsTcp(s.funnelProtocol) ==> Numeric(s.funnelFunnelPort))
            && (IsHttp(s.funnelProtocol) ==> s.funnelFunnelPort in {"443", "8443", "10000"})
            && FunnelStatus.NormalizeFunnelPath(s.funnelPath) == s.funnelPath && s.funnelPath[0] == '/'
            && (IsTcp(s.funnelProtocol) ==> s.funnelPath == "/")
            && s.funnelPort == Get(labels, FUNNEL_PORT)
            && c.resolve(s.funnelPort) == Some(Destination(ParseFunnel(c, labels).value.ip, s.funnelTargetPort))
            && (Get(labels, FUNNEL_PUBLIC_PORT) != "" ==> s.funnelFunnelPort == Get(labels, FUNNEL_PUBLIC_PORT))
            && (Get(labels, FUNNEL_PROTOCOL) != "" ==> s.funnelProtocol == Get(labels, FUNNEL_PROTOCOL))
  {
    hide Numeric, ParsePath;
    var f := ParseFunnel(c, labels).value;
    PublicPortsAreNumeric();
    FunnelIsChecked(c, labels);
    hide ParseFunnel;
    assert IsHttp(f.protocol) || IsTcp(f.protocol);
  }

  lemma FunnelIsChecked(c: Container, labels: LabelSet)
    requires ParseFunnel(c, labels).Success?
    ensures var f := ParseFunnel(c, labels).value;
            && ServiceProtocol(f.protocol)
            && (IsHttp(f.protocol) ==> f.publicPort in {"443", "8443", "10000"})
            && f.path != "" && f.path[0] == '/' && (IsTcp(f.protocol) ==> f.path == "/")
            && f.port == Get(labels, FUNNEL_PORT)
            && c.resolve(f.port) == Some(Destination(f.ip, f.targetPort))
            && (Get(labels, FUNNEL_PUBLIC_PORT) != "" ==> f.publicPort == Get(labels, FUNNEL_PUBLIC_PORT))
            && (Get(labels, FUNNEL_PROTOCOL) != "" ==> f.protocol == Get(labels, FUNNEL_PROTOCOL))
  {
  }

  lemma PublicPortsAreNumeric()
    ensures forall port | port in {"443", "8443", "10000"} :: Numeric(port)
  {
  }

  // ---- one container ----

  /** The services of a container whose primary declaration is in order, before its funnel. */
  ghost function ServedBy(c: Container, labels: LabelSet): Result<seq<ContainerService>> {
    var d := DeclarationAt(labels, PRIMARY);
    if Check(d).Failure? then Failure
    else
      match c.resolve(d.targetPort)
      case None => Failure
      case Some(dest) =>
        var primary := ServiceOf(c, d, Check(d).value, dest);
        Success([primary] + IndexedServices(c, labels, Numbers(labels), EndpointKey(primary.serviceName, primary.port),
                                            dest.ip))
  }

  /** What the labels of a running container declare. */
  ghost function Parsed(c: Container, labels: LabelSet): Result<seq<ContainerService>> {
    var services := if ServiceEnabled(labels) then ServedBy(c, labels) else Success([]);
    if services.Failure? || !FunnelEnabled(labels) then services
    else
      match ParseFunnel(c, labels)
      case Failure => Failure
      case Success(f) =>
        if services.value == [] then Success([FunnelOnly(c, f)])
        else Success([WithFunnel(services.value[0], f)] + services.value[1..])
  }

  method ParseServed(c: Container, labels: LabelSet) returns (r: Result<seq<ContainerService>>)
    ensures r == ServedBy(c, labels)
  {
    hide DeclarationAt, Check, IndexedServices;
    var d := DeclarationAt(labels, PRIMARY);
    var checked := Check(d);
    if checked.Failure? {
      return Failure;
    }
    var found := c.resolve(d.targetPort);
    if found.None? {
      return Failure;
    }
    var primary := ServiceOf(c, d, checked.value, found.value);
    var indexed := ParseIndexedPorts(c, labels, EndpointKey(primary.serviceName, primary.port), found.value.ip);
    r := Success([primary] + indexed);
  }

  /** Parses one container; `c` is none when it cannot be inspected. */
  method ParseContainerServices(
    inspected: Option<Container>, labels: LabelSet)
    returns (r: Result<seq<ContainerService>>)
    ensures r == if !ServiceEnabled(labels) && !FunnelEnabled(labels) then Success([])
                 else if inspected.None? then Failure
                 else Parsed(inspected.value, labels)
  {
    hide ParseFunnel, ServedBy, WithFunnel, FunnelOnly;
    if !ServiceEnabled(labels) && !FunnelEnabled(labels) {
      return Success([]);
    }
    if inspected.None? {
      return Failure;
    }
    var c := inspected.value;
    r := Success([]);
    if ServiceEnabled(labels) {
      r := ParseServed(c, labels);
    }
    if r.Failure? || !FunnelEnabled(labels) {
      return;
    }
    var funnel := ParseFunnel(c, labels);
    if funnel.Failure? {
      r := Failure;
    } else if r.value != [] {
      r := Success([WithFunnel(r.value[0], funnel.value)] + r.value[1..]);
    } else {
      r := Success([FunnelOnly(c, funnel.value)]);
    }
  }
}
