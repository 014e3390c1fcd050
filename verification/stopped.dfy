/** How a stopped container is still reported to the cloud under the identities it carries when running. */
module StoppedServices {
  import opened Decimal
  import opened LabelSpec
  import opened Labels
  import Declarations
  import opened Strings
  import opened Types

  /** One declaration of a stopped container; what does not resolve is left blank rather than dropped. */
  function CloudServiceFromLabels(
    containerName: string, tags: seq<string>, labels: LabelSet, prefix: string): Option<ContainerService> {
    var d := DeclarationAt(labels, prefix);
    if d.name == "" then None
    else if d.targetPort == "" then
      Some(ContainerService(
        containerName, true, d.name, "", "", "", "", "", "", tags, "", 0, false, "", "", "", "", ""))
    else
      var listener := ResolveProtocols(d.targetPort, d.servicePort, d.serviceProtocol, d.protocol);
      var l := if listener.Success? then listener.value else Listener("", OrElse(d.servicePort, d.targetPort), "");
      var path := ParseServicePath(d.path, d.hasPath, l.serviceProtocol);
      Some(ContainerService(
        containerName, true, d.name, "", l.port, d.targetPort, l.serviceProtocol,
        if path.Success? then path.value else "",
        l.protocol, tags, "", 0, false, "", "", "", "", ""))
  }

  function Listed(svc: Option<ContainerService>): seq<ContainerService> {
    if svc.Some? then [svc.value] else []
  }

  function StoppedIndexed(
    containerName: string, tags: seq<string>, labels: LabelSet, numbers: seq<nat>): seq<ContainerService> {
    if numbers == [] then []
    else
      var init, last := numbers[..|numbers| - 1], numbers[|numbers| - 1];
      StoppedIndexed(containerName, tags, labels, init)
      + Listed(CloudServiceFromLabels(containerName, tags, labels, PrefixOf(last)))
  }

  /** The funnel of a stopped container: nothing is validated and nothing needs to be reachable. */
  function StoppedFunnel(labels: LabelSet): Option<Funnel> {
    var port := Get(labels, FUNNEL_PORT);
    if !FunnelEnabled(labels) || port == "" then None
    else
      var path := ParsePath(Get(labels, FUNNEL_PATH));
      Some(Funnel("", port, port, OrElse(Get(labels, FUNNEL_PUBLIC_PORT), "443"),
                  OrElse(Get(labels, FUNNEL_PROTOCOL), "https"),
                  if path.Success? then path.value else ""))
  }

  ghost function StoppedServed(containerName: string, tags: seq<string>, labels: LabelSet): seq<ContainerService> {
    if !ServiceEnabled(labels) then []
    else
      Listed(CloudServiceFromLabels(containerName, tags, labels, PRIMARY))
      + StoppedIndexed(containerName, tags, labels, Numbers(labels))
  }

  ghost function Stopped(containerName: string, tags: seq<string>, labels: LabelSet): seq<ContainerService> {
    var services, funnel := StoppedServed(containerName, tags, labels), StoppedFunnel(labels);
    if funnel.None? then services
    else if services != [] then [WithFunnel(services[0], funnel.value)] + services[1..]
    else [FunnelOnly(Container(containerName, tags, false, _ => None), funnel.value)]
  }

  method StoppedCloudServices(containerName: string, tags: seq<string>, labels: LabelSet)
    returns (services: seq<ContainerService>)
    ensures services == Stopped(containerName, tags, labels)
  {
    hide CloudServiceFromLabels, StoppedFunnel, WithFunnel, FunnelOnly, Enumerates;
    var indices := IndexedServiceNumbers(labels);
    services := [];
    if ServiceEnabled(labels) {
      var primary := Listed(CloudServiceFromLabels(containerName, tags, labels, PRIMARY));
      services := primary;
      for i := 0 to |indices|
        invariant services == primary + StoppedIndexed(containerName, tags, labels, indices[..i])
      {
        assert indices[..i + 1][..i] == indices[..i];
        services := services + Listed(CloudServiceFromLabels(containerName, tags, labels, PrefixOf(indices[i])));
      }
      assert indices[..|indices|] == indices;
    }
    assert services == StoppedServed(containerName, tags, labels);
    var funnel := StoppedFunnel(labels);
    if funnel.Some? {
      if services != [] {
        services := services[0 := WithFunnel(services[0], funnel.value)];
      } else {
        services := [FunnelOnly(Container(containerName, tags, false, _ => None), funnel.value)];
      }
    }
  }

  // ---- what is reported is what the labels ask for ----

  /** What the labels under `prefix` ask for, as far as they can be read; nothing is dropped for what cannot. */
  ghost predicate ReportedFrom(
    containerName: string, tags: seq<string>, labels: LabelSet, prefix: string, svc: ContainerService)
  {
    var target := Label(labels, prefix + "port");
    && svc.containerName == containerName && svc.tags == tags && svc.serviceEnabled
    && svc.serviceName == Label(labels, prefix + "name") != "" && svc.targetPort == target
    && svc.serviceDescription == "" && svc.ipAddress == "" && svc.proxyProtocol == 0
    && (target == "" ==> svc.port == svc.protocol == svc.serviceProtocol == svc.servicePath == "")
    && (target != "" ==>
          || Listens(labels, prefix, svc.protocol, svc.serviceProtocol, svc.port)
          || (&& svc.protocol == svc.serviceProtocol == ""
              && svc.port == (if Label(labels, prefix + "service-port") != ""
                              then Label(labels, prefix + "service-port")
                              else target)
              && forall backend, kind, port :: !Listens(labels, prefix, backend, kind, port)))
    && (target != "" ==>
          || Mounts(labels, prefix, svc.serviceProtocol, svc.servicePath)
          || (svc.servicePath == "" && forall path :: !Mounts(labels, prefix, svc.serviceProtocol, path)))
  }

  lemma CloudServiceIsReported(containerName: string, tags: seq<string>, labels: LabelSet, prefix: string)
    ensures var svc := CloudServiceFromLabels(containerName, tags, labels, prefix);
            && (svc.Some? <==> Label(labels, prefix + "name") != "")
            && (svc.Some? ==> ReportedFrom(containerName, tags, labels, prefix, svc.value) && !svc.value.funnelEnabled)
  {
    var d := DeclarationAt(labels, prefix);
    Declarations.NamesAreDeclared(labels, prefix);
    Declarations.ListenerIsDeclared(labels, prefix);
    forall kind
      ensures forall path :: Mounts(labels, prefix, kind, path) <==>
                             ParseServicePath(d.path, d.hasPath, kind) == Success(path)
    {
      Declarations.MountIsDeclared(labels, prefix, kind);
    }
    ServicePortIsLabel(labels, prefix);
    hide DeclarationAt, ResolveProtocols, ParseServicePath, Listens, Mounts, Label;
  }

  lemma ServicePortIsLabel(labels: LabelSet, prefix: string)
    ensures DeclarationAt(labels, prefix).servicePort == Label(labels, prefix + "service-port")
  {
  }

  /** The funnel of a stopped container, as far as its labels can be read. */
  ghost predicate FunnelReported(labels: LabelSet, svc: ContainerService) {
    var protocol, publicPort := Label(labels, "docktail.funnel.protocol"), Label(labels, "docktail.funnel.funnel-port");
    var path := TrimSpace(Label(labels, "docktail.funnel.path"));
    && svc.funnelEnabled && svc.funnelPort == svc.funnelTargetPort == Label(labels, "docktail.funnel.port") != ""
    && svc.funnelProtocol == (if protocol == "" then "https" else protocol)
    && svc.funnelFunnelPort == (if publicPort == "" then "443" else publicPort)
    && svc.funnelPath == if path == "" then "/" else if path[0] == '/' then path else ""
  }

  lemma StoppedFunnelIsReported(labels: LabelSet)
    ensures var funnel := StoppedFunnel(labels);
            && (funnel.Some? <==> Label(labels, "docktail.funnel.enable") == "true"
                                  && Label(labels, "docktail.funnel.port") != "")
            && (funnel.Some? ==> forall svc :: FunnelReported(labels, WithFunnel(svc, funnel.value)))
  {
    hide TrimSpace;
  }

  lemma FunnelKeepsReport(
    containerName: string, tags: seq<string>, labels: LabelSet, prefix: string, svc: ContainerService, f: Funnel)
    requires ReportedFrom(containerName, tags, labels, prefix, svc)
    ensures ReportedFrom(containerName, tags, labels, prefix, WithFunnel(svc, f))
  {
    hide Listens, Mounts, Label;
  }

  /** The service is reported from one of these prefixes. */
  ghost predicate ReportedAmong(
    containerName: string, tags: seq<string>, labels: LabelSet, numbers: seq<nat>, svc: ContainerService)
  {
    exists n | n in numbers :: ReportedFrom(containerName, tags, labels, IndexPrefix(n), svc)
  }

  lemma ReportedAreEnabled(containerName: string, tags: seq<string>, labels: LabelSet)
    ensures forall prefix, svc | ReportedFrom(containerName, tags, labels, prefix, svc) :: svc.serviceEnabled
  {
  }

  lemma FunnelKeepsEnabled()
    ensures forall svc, f :: WithFunnel(svc, f).serviceEnabled == svc.serviceEnabled
  {
  }

  lemma {:induction false} IndexedAreReported(
    containerName: string, tags: seq<string>, labels: LabelSet, numbers: seq<nat>)
    ensures var services := StoppedIndexed(containerName, tags, labels, numbers);
            && (forall svc | svc in services ::
                  ReportedAmong(containerName, tags, labels, numbers, svc) && !svc.funnelEnabled && svc.serviceEnabled)
            && (forall n | n in numbers && Label(labels, IndexPrefix(n) + "name") != "" ::
                  exists svc :: svc in services && ReportedFrom(containerName, tags, labels, IndexPrefix(n), svc))
  {
    hide CloudServiceFromLabels, ReportedFrom, Label;
    if numbers != [] {
      var init, last := numbers[..|numbers| - 1], numbers[|numbers| - 1];
      var before, now := StoppedIndexed(containerName, tags, labels, init),
        StoppedIndexed(containerName, tags, labels, numbers);
      IndexedAreReported(containerName, tags, labels, init);
      assert PrefixOf(last) == IndexPrefix(last);
      hide PrefixOf, IndexPrefix;
      CloudServiceIsReported(containerName, tags, labels, PrefixOf(last));
      ReportedAreEnabled(containerName, tags, labels);
      forall svc | svc in before ensures ReportedAmong(containerName, tags, labels, numbers, svc) {
        var n :| n in init && ReportedFrom(containerName, tags, labels, IndexPrefix(n), svc);
        assert n in numbers;
      }
      assert last in numbers;
      forall n | n in numbers && Label(labels, IndexPrefix(n) + "name") != ""
        ensures exists svc :: svc in now && ReportedFrom(containerName, tags, labels, IndexPrefix(n), svc)
      {
        if n in init {
          var svc :| svc in before && ReportedFrom(containerName, tags, labels, IndexPrefix(n), svc);
          assert svc in now;
        } else {
          assert n == last;
          assert CloudServiceFromLabels(containerName, tags, labels, PrefixOf(last)).value in now;
        }
      }
    }
  }

  /** What the primary labels ask for, if they have a name, and then what every index that has one does. */
  ghost predicate Reports(
    containerName: string, tags: seq<string>, labels: LabelSet, services: seq<ContainerService>)
  {
    var named := Label(labels, PRIMARY_PREFIX + "name") != "";
    && (named ==> services != [] && ReportedFrom(containerName, tags, labels, PRIMARY_PREFIX, services[0]))
    && (forall i | 0 <= i < |services| ::
          (i == 0 && named) || ReportedAmong(containerName, tags, labels, Numbers(labels), services[i]))
    && (forall n | n in Numbers(labels) && Label(labels, IndexPrefix(n) + "name") != "" ::
          exists svc :: svc in services && ReportedFrom(containerName, tags, labels, IndexPrefix(n), svc))
  }

  lemma ServedReports(containerName: string, tags: seq<string>, labels: LabelSet)
    requires ServiceEnabled(labels)
    ensures Reports(containerName, tags, labels, StoppedServed(containerName, tags, labels))
    ensures forall svc | svc in StoppedServed(containerName, tags, labels) :: !svc.funnelEnabled && svc.serviceEnabled
  {
    CloudServiceIsReported(containerName, tags, labels, PRIMARY);
    IndexedAreReported(containerName, tags, labels, Numbers(labels));
    ReportedAreEnabled(containerName, tags, labels);
    hide CloudServiceFromLabels, ReportedFrom, StoppedIndexed, ReportedAmong, Label, IndexPrefix;
    var first := Listed(CloudServiceFromLabels(containerName, tags, labels, PRIMARY));
    var indexed := StoppedIndexed(containerName, tags, labels, Numbers(labels));
    assert PRIMARY == PRIMARY_PREFIX;
    assert forall i | |first| <= i < |first + indexed| :: (first + indexed)[i] in indexed;
  }

  lemma FunnelOnFirstReports(
    containerName: string, tags: seq<string>, labels: LabelSet, services: seq<ContainerService>, f: Funnel)
    requires Reports(containerName, tags, labels, services) && services != []
    ensures Reports(containerName, tags, labels, [WithFunnel(services[0], f)] + services[1..])
  {
    ReportKept(containerName, tags, labels);
    hide ReportedFrom, WithFunnel, Label, IndexPrefix;
    var more := [WithFunnel(services[0], f)] + services[1..];
    assert forall i | 0 < i < |more| :: more[i] == services[i];
    forall n | n in Numbers(labels) && Label(labels, IndexPrefix(n) + "name") != ""
      ensures exists svc :: svc in more && ReportedFrom(containerName, tags, labels, IndexPrefix(n), svc)
    {
      var svc :| svc in services && ReportedFrom(containerName, tags, labels, IndexPrefix(n), svc);
      if svc == services[0] {
        assert more[0] in more;
      } else {
        assert svc in more;
      }
    }
  }

  /**
   * What a stopped container is reported as: if enabled, what its primary labels ask for, and every index that has a
   * name; the funnel, if it is enabled and has a port, goes to the first of them or else to an entry of its own.
   */
  lemma StoppedIsReported(containerName: string, tags: seq<string>, labels: LabelSet)
    ensures var services := Stopped(containerName, tags, labels);
            && (Label(labels, "docktail.service.enable") == "true" ==>
                  || Reports(containerName, tags, labels, services)
                  || (Reports(containerName, tags, labels, []) && |services| == 1 && !services[0].serviceEnabled))
            && (Label(labels, "docktail.service.enable") != "true" ==>
                  |services| <= 1 && forall svc | svc in services :: !svc.serviceEnabled)
            && (forall i | 0 < i < |services| :: !services[i].funnelEnabled)
            && (forall svc | svc in services && !svc.serviceEnabled :: OnlyNamed(containerName, tags, svc))
            && (if Label(labels, "docktail.funnel.enable") == "true" && Label(labels, "docktail.funnel.port") != ""
                then services != [] && FunnelReported(labels, services[0])
                else forall svc | svc in services :: !svc.funnelEnabled)
  {
    hide StoppedServed, StoppedFunnel, FunnelReported, Reports, WithFunnel, FunnelOnly, Label, OnlyNamed;
    var served, funnel := StoppedServed(containerName, tags, labels), StoppedFunnel(labels);
    StoppedFunnelIsReported(labels);
    EnableIsLabel(labels);
    FunnelKeepsEnabled();
    if ServiceEnabled(labels) {
      ServedReports(containerName, tags, labels);
      if funnel.Some? && served != [] {
        FunnelOnFirstReports(containerName, tags, labels, served, funnel.value);
      }
    } else {
      NothingServed(containerName, tags, labels);
    }
    if funnel.Some? {
      FunnelOnlyIsReported(Container(containerName, tags, false, _ => None), labels);
    }
  }

  /** An entry that is reported for its container alone. */
  ghost predicate OnlyNamed(containerName: string, tags: seq<string>, svc: ContainerService) {
    && svc.containerName == containerName && svc.tags == tags
    && svc.serviceName == svc.serviceDescription == svc.port == svc.targetPort == svc.ipAddress == ""
    && svc.serviceProtocol == svc.servicePath == svc.protocol == ""
  }

  lemma EnableIsLabel(labels: LabelSet)
    ensures ServiceEnabled(labels) <==> Label(labels, "docktail.service.enable") == "true"
  {
  }

  lemma NothingServed(containerName: string, tags: seq<string>, labels: LabelSet)
    requires !ServiceEnabled(labels)
    ensures StoppedServed(containerName, tags, labels) == []
  {
  }

  lemma FunnelOnlyIsReported(c: Container, labels: LabelSet)
    requires StoppedFunnel(labels).Some?
    ensures var svc := FunnelOnly(c, StoppedFunnel(labels).value);
            FunnelReported(labels, svc) && !svc.serviceEnabled && OnlyNamed(c.name, c.tags, svc)
  {
    StoppedFunnelIsReported(labels);
    StoppedFunnelHasNoAddress(labels);
    hide StoppedFunnel, FunnelReported;
  }

  lemma StoppedFunnelHasNoAddress(labels: LabelSet)
    ensures StoppedFunnel(labels).Some? ==> StoppedFunnel(labels).value.ip == ""
  {
  }

  lemma ReportKept(containerName: string, tags: seq<string>, labels: LabelSet)
    ensures forall prefix, svc, f | ReportedFrom(containerName, tags, labels, prefix, svc) ::
              ReportedFrom(containerName, tags, labels, prefix, WithFunnel(svc, f))
  {
    hide ReportedFrom, WithFunnel;
    forall prefix, svc, f | ReportedFrom(containerName, tags, labels, prefix, svc)
      ensures ReportedFrom(containerName, tags, labels, prefix, WithFunnel(svc, f))
    {
      FunnelKeepsReport(containerName, tags, labels, prefix, svc, f);
    }
  }

  function FirstNonEmpty(a: string, b: string): string {
    if TrimSpace(a) != "" then a else if TrimSpace(b) != "" then b else ""
  }

  /** The identity a service has in the cloud's catalog. */
  function ServiceKeyFor(svc: ContainerService): string {
    var serviceName, containerName := TrimSpace(svc.serviceName), TrimSpace(svc.containerName);
    if serviceName != "" then
      var port := TrimSpace(svc.port);
      if port != "" then serviceName + ":" + port else serviceName
    else if svc.funnelEnabled then
      var port := TrimSpace(FirstNonEmpty(svc.funnelFunnelPort, svc.funnelPort));
      if port != "" then containerName + ":funnel:" + port else containerName
    else containerName
  }

  /**
   * The identity: the service and its port; without a service, the container and its funnel's public port, or else its
   * container port; and the container alone for anything else. What is blank is left out.
   */
  lemma ServiceKeyIs(svc: ContainerService)
    ensures var service, container, port := TrimSpace(svc.serviceName), TrimSpace(svc.containerName),
            TrimSpace(svc.port);
            var public, inner := TrimSpace(svc.funnelFunnelPort), TrimSpace(svc.funnelPort);
            && (service != "" && port != "" ==> ServiceKeyFor(svc) == service + ":" + port)
            && (service != "" && port == "" ==> ServiceKeyFor(svc) == service)
            && (service == "" && svc.funnelEnabled && public != "" ==>
                  ServiceKeyFor(svc) == container + ":funnel:" + public)
            && (service == "" && svc.funnelEnabled && public == "" && inner != "" ==>
                  ServiceKeyFor(svc) == container + ":funnel:" + inner)
            && (service == "" && (!svc.funnelEnabled || (public == "" && inner == "")) ==>
                ServiceKeyFor(svc) == container)
  {
    assert TrimSpace("") == "";
    hide TrimSpace;
  }

  /** All that the identity depends on. */
  predicate SameIdentity(a: ContainerService, b: ContainerService) {
    && a.containerName == b.containerName && a.serviceName == b.serviceName && a.port == b.port
    && a.funnelEnabled == b.funnelEnabled && a.funnelFunnelPort == b.funnelFunnelPort && a.funnelPort == b.funnelPort
  }

  lemma SameKeys(a: ContainerService, b: ContainerService)
    requires SameIdentity(a, b)
    ensures ServiceKeyFor(a) == ServiceKeyFor(b)
  {
    hide TrimSpace;
  }

  ghost predicate Remembered(svc: ContainerService, stopped: seq<ContainerService>) {
    exists s | s in stopped :: SameIdentity(s, svc)
  }

  lemma DeclarationRemembered(c: Container, tags: seq<string>, labels: LabelSet, prefix: string, dest: Destination)
    requires Check(DeclarationAt(labels, prefix)).Success?
    ensures var d := DeclarationAt(labels, prefix);
            var stopped := CloudServiceFromLabels(c.name, tags, labels, prefix);
            stopped.Some? && SameIdentity(stopped.value, ServiceOf(c, d, Check(d).value, dest))
  {
    hide ResolveProtocols, ParseServicePath, ParseProxyProtocol, TrimSpace, FormatUint, DeclarationAt;
  }

  lemma {:induction false} IndexedRemembered(
    c: Container, tags: seq<string>, labels: LabelSet, numbers: seq<nat>, primary: string, primaryIp: string,
    svc: ContainerService)
    requires svc in IndexedServices(c, labels, numbers, primary, primaryIp)
    ensures Remembered(svc, StoppedIndexed(c.name, tags, labels, numbers))
  {
    hide SameIdentity, CloudServiceFromLabels, Check, DeclarationAt, Taken, ServiceOf, PrefixOf;
    var init, last := numbers[..|numbers| - 1], numbers[|numbers| - 1];
    if svc in IndexedServices(c, labels, init, primary, primaryIp) {
      IndexedRemembered(c, tags, labels, init, primary, primaryIp, svc);
      var s :| s in StoppedIndexed(c.name, tags, labels, init) && SameIdentity(s, svc);
      assert s in StoppedIndexed(c.name, tags, labels, numbers);
    } else {
      assert svc in Admitted(c, labels, init, last, primary, primaryIp);
      var d := DeclarationAt(labels, PrefixOf(last));
      var dest := c.resolve(d.targetPort).value;
      var ip := if c.direct && primaryIp != "" then primaryIp else dest.ip;
      DeclarationRemembered(c, tags, labels, PrefixOf(last), Destination(ip, dest.port));
      var s := CloudServiceFromLabels(c.name, tags, labels, PrefixOf(last)).value;
      assert s in StoppedIndexed(c.name, tags, labels, numbers);
    }
  }

  /** The primary service comes first on both sides, and every other one is remembered behind it. */
  lemma ServedRemembered(c: Container, tags: seq<string>, labels: LabelSet)
    requires ServiceEnabled(labels) && ServedBy(c, labels).Success?
    ensures var running, stopped := ServedBy(c, labels).value, StoppedServed(c.name, tags, labels);
            && running != [] && stopped != [] && SameIdentity(stopped[0], running[0])
            && forall i | 0 < i < |running| :: Remembered(running[i], stopped[1..])
  {
    hide SameIdentity, CloudServiceFromLabels, Check, DeclarationAt, IndexedServices, StoppedIndexed, Remembered,
         ServiceOf;
    var running, stopped := ServedBy(c, labels).value, StoppedServed(c.name, tags, labels);
    var d := DeclarationAt(labels, PRIMARY);
    var dest := c.resolve(d.targetPort).value;
    DeclarationRemembered(c, tags, labels, PRIMARY, dest);
    var primary := ServiceOf(c, d, Check(d).value, dest);
    var key := EndpointKey(primary.serviceName, primary.port);
    assert running[1..] == IndexedServices(c, labels, Numbers(labels), key, dest.ip);
    assert stopped[1..] == StoppedIndexed(c.name, tags, labels, Numbers(labels));
    forall i | 0 < i < |running| ensures Remembered(running[i], stopped[1..]) {
      assert running[i] == running[1..][i - 1];
      IndexedRemembered(c, tags, labels, Numbers(labels), key, dest.ip, running[i]);
    }
  }

  lemma FunnelRemembered(c: Container, labels: LabelSet, a: ContainerService, b: ContainerService)
    requires FunnelEnabled(labels) && ParseFunnel(c, labels).Success? && SameIdentity(a, b)
    ensures StoppedFunnel(labels).Some?
    ensures SameIdentity(WithFunnel(a, StoppedFunnel(labels).value), WithFunnel(b, ParseFunnel(c, labels).value))
  {
    hide ParsePath;
  }

  lemma RememberedBehind(svc: ContainerService, stopped: seq<ContainerService>, rest: seq<ContainerService>)
    requires Remembered(svc, rest) && forall s | s in rest :: s in stopped
    ensures Remembered(svc, stopped)
  {
    hide SameIdentity;
  }

  lemma FirstAndRestRemembered(running: seq<ContainerService>, stopped: seq<ContainerService>)
    requires running != [] && stopped != [] && SameIdentity(stopped[0], running[0])
    requires forall i | 0 < i < |running| :: Remembered(running[i], stopped[1..])
    ensures forall svc | svc in running :: Remembered(svc, stopped)
  {
    hide SameIdentity;
    forall i | 0 <= i < |running| ensures Remembered(running[i], stopped) {
      if i > 0 {
        RememberedBehind(running[i], stopped, stopped[1..]);
      }
    }
  }

  lemma FunneledRemembered(
    c: Container, labels: LabelSet, running: seq<ContainerService>, stopped: seq<ContainerService>)
    requires FunnelEnabled(labels) && ParseFunnel(c, labels).Success?
    requires running != [] && stopped != [] && SameIdentity(stopped[0], running[0])
    requires forall i | 0 < i < |running| :: Remembered(running[i], stopped[1..])
    ensures StoppedFunnel(labels).Some?
    ensures var more := [WithFunnel(stopped[0], StoppedFunnel(labels).value)] + stopped[1..];
            forall svc | svc in [WithFunnel(running[0], ParseFunnel(c, labels).value)] + running[1..] ::
              Remembered(svc, more)
  {
    FunnelRemembered(c, labels, stopped[0], running[0]);
    hide Remembered, SameIdentity, ParseFunnel, StoppedFunnel, WithFunnel;
    var more := [WithFunnel(stopped[0], StoppedFunnel(labels).value)] + stopped[1..];
    assert more[1..] == stopped[1..];
    FirstAndRestRemembered([WithFunnel(running[0], ParseFunnel(c, labels).value)] + running[1..], more);
  }

  lemma ServicesRemembered(c: Container, tags: seq<string>, labels: LabelSet)
    requires ServiceEnabled(labels) && Parsed(c, labels).Success?
    ensures forall svc | svc in Parsed(c, labels).value :: Remembered(svc, Stopped(c.name, tags, labels))
  {
    hide ServedBy, StoppedServed, Remembered, SameIdentity, ParseFunnel, StoppedFunnel, WithFunnel, FunnelOnly, Get;
    ServedRemembered(c, tags, labels);
    var running, stopped := ServedBy(c, labels).value, StoppedServed(c.name, tags, labels);
    if FunnelEnabled(labels) {
      FunneledRemembered(c, labels, running, stopped);
    } else {
      NoFunnelStopped(labels);
      FirstAndRestRemembered(running, stopped);
    }
  }

  lemma NoFunnelStopped(labels: LabelSet)
    requires !FunnelEnabled(labels)
    ensures StoppedFunnel(labels).None?
  {
  }

  lemma ParsedRemembered(c: Container, tags: seq<string>, labels: LabelSet, svc: ContainerService)
    requires Parsed(c, labels).Success? && svc in Parsed(c, labels).value
    ensures Remembered(svc, Stopped(c.name, tags, labels))
  {
    hide Parsed, Stopped, Remembered;
    if ServiceEnabled(labels) {
      ServicesRemembered(c, tags, labels);
    } else {
      OnlyFunnelRemembered(c, tags, labels);
    }
  }

  lemma OnlyFunnelRemembered(c: Container, tags: seq<string>, labels: LabelSet)
    requires !ServiceEnabled(labels) && Parsed(c, labels).Success?
    ensures forall svc | svc in Parsed(c, labels).value :: Remembered(svc, Stopped(c.name, tags, labels))
  {
    hide ParsePath;
    if FunnelEnabled(labels) {
      assert Parsed(c, labels).value == [FunnelOnly(c, ParseFunnel(c, labels).value)];
      var s := Stopped(c.name, tags, labels)[0];
      assert SameIdentity(s, Parsed(c, labels).value[0]);
      assert s in Stopped(c.name, tags, labels);
    }
  }

  /**
   * A stopped container never loses identity: for all labels on which the running parse succeeds,
   * every catalog key it yields is also yielded by the stopped parse, whatever that one filters.
   */
  lemma StoppedKeepsIdentity(c: Container, tags: seq<string>, labels: LabelSet, svc: ContainerService)
    requires Parsed(c, labels).Success? && svc in Parsed(c, labels).value
    ensures exists s | s in Stopped(c.name, tags, labels) :: ServiceKeyFor(s) == ServiceKeyFor(svc)
  {
    hide Parsed, Stopped, ServiceKeyFor, SameIdentity;
    ParsedRemembered(c, tags, labels, svc);
    var s :| s in Stopped(c.name, tags, labels) && SameIdentity(s, svc);
    SameKeys(s, svc);
  }
}
