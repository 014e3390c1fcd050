/** What labels ask for, stated from the label values alone (docs/04-labels.md). */
module LabelSpec {
  import opened Decimal
  import opened Strings
  import opened Types

  type LabelValues = map<string, string>

  /** The value of a label; one that is not set is empty. */
  ghost function Label(labels: LabelValues, key: string): string {
    if key in labels then labels[key] else ""
  }

  const PRIMARY_PREFIX := "docktail.service."

  ghost function IndexPrefix(n: nat): string {
    "docktail.service." + FormatUint(n) + "."
  }

  /** Some label "docktail.service.<digits>.port" writes this number, within the program's integers. */
  ghost predicate IsIndex(labels: LabelValues, n: nat) {
    && n <= 0x7FFF_FFFF_FFFF_FFFF
    && exists digits :: Numeric(digits) && Value(digits) == n && "docktail.service." + digits + ".port" in labels
  }

  ghost predicate TcpKind(kind: string) {
    kind == "tcp" || kind == "tls-terminated-tcp"
  }

  ghost predicate HttpKind(kind: string) {
    kind == "http" || kind == "https"
  }

  /** How the backend is spoken to, and how and where the service listens: as declared, or by default. */
  ghost predicate Listens(labels: LabelValues, prefix: string, backend: string, kind: string, port: string) {
    var targetPort, servicePort := Label(labels, prefix + "port"), Label(labels, prefix + "service-port");
    var serviceProtocol, protocol := Label(labels, prefix + "service-protocol"), Label(labels, prefix + "protocol");
    && (HttpKind(backend) || TcpKind(backend) || backend == "https+insecure") && (HttpKind(kind) || TcpKind(kind))
    && (protocol != "" ==> backend == protocol)
    && (protocol == "" ==> backend == if targetPort == "443" then "https" else "http")
    && (serviceProtocol != "" ==> kind == serviceProtocol)
    && (serviceProtocol == "" && TcpKind(backend) ==> kind == backend)
    && (serviceProtocol == "" && !TcpKind(backend) ==> kind == if servicePort == "443" then "https" else "http")
    && (servicePort != "" ==> port == servicePort)
    && (servicePort == "" ==> port == if serviceProtocol == "https" then "443" else "80")
  }

  /** An absolute path on an HTTP listener, "/" if the label is blank; on a TCP one the label must not be there. */
  ghost predicate Mounts(labels: LabelValues, prefix: string, kind: string, path: string) {
    var written := TrimSpace(Label(labels, prefix + "path"));
    if HttpKind(kind) then path != "" && path[0] == '/' && path == if written == "" then "/" else written
    else prefix + "path" !in labels && path == ""
  }

  /** PROXY is off if the label is blank, and otherwise has the version the label writes, on TCP listeners only. */
  ghost predicate Proxies(labels: LabelValues, prefix: string, kind: string, version: int) {
    var written := TrimSpace(Label(labels, prefix + "proxy-protocol"));
    || (written == "" && version == 0)
    || (TcpKind(kind) && ((written == "1" && version == 1) || (written == "2" && version == 2)))
  }

  /** The labels under `prefix` are in order and ask for this service. */
  ghost predicate Declares(labels: LabelValues, prefix: string, svc: ContainerService) {
    && svc.serviceName == Label(labels, prefix + "name") != ""
    && svc.serviceDescription == Label(labels, prefix + "description")
    && Label(labels, prefix + "port") != ""
    && Listens(labels, prefix, svc.protocol, svc.serviceProtocol, svc.port)
    && Mounts(labels, prefix, svc.serviceProtocol, svc.servicePath)
    && Proxies(labels, prefix, svc.serviceProtocol, svc.proxyProtocol)
  }

  ghost predicate InOrder(labels: LabelValues, prefix: string) {
    exists svc :: Declares(labels, prefix, svc)
  }

  /** The labels under `prefix` are in order and ask for this endpoint. */
  ghost predicate AsksFor(labels: LabelValues, prefix: string, endpoint: string) {
    exists svc :: Declares(labels, prefix, svc) && endpoint == svc.serviceName + ":" + svc.port
  }

  /** An absolute path, "/" if the label is blank; next to a TCP funnel the label must not be there. */
  ghost predicate FunnelMounts(labels: LabelValues, kind: string, path: string) {
    var written := TrimSpace(Label(labels, "docktail.funnel.path"));
    && path != "" && path[0] == '/' && path == (if written == "" then "/" else written)
    && (TcpKind(kind) ==> "docktail.funnel.path" !in labels)
  }

  /** As declared, or by default; HTTP has three public ports only. */
  ghost predicate FunnelListens(labels: LabelValues, kind: string, port: string) {
    var protocol, publicPort := Label(labels, "docktail.funnel.protocol"), Label(labels, "docktail.funnel.funnel-port");
    && (HttpKind(kind) || TcpKind(kind))
    && kind == (if protocol == "" then "https" else protocol)
    && port == (if publicPort == "" then "443" else publicPort)
    && (HttpKind(kind) ==> port == "443" || port == "8443" || port == "10000")
  }

  /** The funnel labels are in order and ask for this funnel. */
  ghost predicate FunnelDeclared(labels: LabelValues, svc: ContainerService) {
    && svc.funnelEnabled
    && svc.funnelPort == Label(labels, "docktail.funnel.port") != ""
    && FunnelListens(labels, svc.funnelProtocol, svc.funnelFunnelPort)
    && FunnelMounts(labels, svc.funnelProtocol, svc.funnelPath)
  }

  ghost predicate FunnelInOrder(labels: LabelValues) {
    exists svc :: FunnelDeclared(labels, svc)
  }
}
