/** What holds of the services one container's labels declare, whatever the labels are. */
module Declarations {
  import Cycle
  import opened Desired
  import opened LabelSpec
  import opened Labels
  import opened Serve
  import opened Strings
  import opened Types

  function OwnKey(svc: ContainerService): string {
    EndpointKey(svc.serviceName, svc.port)
  }

  ghost predicate DistinctKeys(services: seq<ContainerService>) {
    forall i, j | 0 <= i < j < |services| :: OwnKey(services[i]) != OwnKey(services[j])
  }

  /** The service carries no funnel. */
  ghost predicate NoFunnel(svc: ContainerService) {
    && !svc.funnelEnabled && svc.funnelPort == "" && svc.funnelTargetPort == "" && svc.funnelFunnelPort == ""
    && svc.funnelProtocol == "" && svc.funnelPath == ""
  }

  /** Every service of the list is declarable and lays claim to an endpoint of its own. */
  ghost predicate Sound(services: seq<ContainerService>) {
    && DistinctKeys(services)
    && forall svc | svc in services :: svc.serviceEnabled && NoFunnel(svc) && Declarable(svc)
  }

  lemma AdmittedClaim(
    c: Container, labels: LabelSet, earlier: seq<nat>, index: nat, primary: string, primaryIp: string,
    svc: ContainerService)
    requires svc in Admitted(c, labels, earlier, index, primary, primaryIp)
    ensures svc.serviceEnabled && NoFunnel(svc) && Declarable(svc)
    ensures ClaimAt(labels, index) == Some(OwnKey(svc)) && !Taken(labels, earlier, primary, OwnKey(svc))
  {
    hide Check, Declarable, Taken, DeclarationAt, PrefixOf;
    var d := DeclarationAt(labels, PrefixOf(index));
    var dest := c.resolve(d.targetPort).value;
    var ip := if c.direct && primaryIp != "" then primaryIp else dest.ip;
    CheckedIsDeclarable(c, d, Destination(ip, dest.port));
  }

  lemma {:induction false} IndexedAreSound(
    c: Container, labels: LabelSet, numbers: seq<nat>, primary: string, primaryIp: string)
    ensures var services := IndexedServices(c, labels, numbers, primary, primaryIp);
            && Sound(services)
            && forall svc | svc in services :: OwnKey(svc) != primary && Taken(labels, numbers, primary, OwnKey(svc))
  {
    hide Declarable, ClaimAt, Admitted;
    if numbers != [] {
      var init, last := numbers[..|numbers| - 1], numbers[|numbers| - 1];
      IndexedAreSound(c, labels, init, primary, primaryIp);
      var more := Admitted(c, labels, init, last, primary, primaryIp);
      assert |more| <= 1 by {
        AdmitsAtMostOne(c, labels, init, last, primary, primaryIp);
      }
      forall svc | svc in more
        ensures svc.serviceEnabled && NoFunnel(svc) && Declarable(svc)
        ensures OwnKey(svc) != primary && Taken(labels, numbers, primary, OwnKey(svc))
                && !Taken(labels, init, primary, OwnKey(svc))
      {
        AdmittedClaim(c, labels, init, last, primary, primaryIp, svc);
      }
    }
  }

  lemma AdmitsAtMostOne(
    c: Container, labels: LabelSet, earlier: seq<nat>, index: nat, primary: string, primaryIp: string)
    ensures |Admitted(c, labels, earlier, index, primary, primaryIp)| <= 1
  {
    hide ClaimAt, Taken, IndexedService;
  }

  lemma ServedAreSound(c: Container, labels: LabelSet)
    requires ServedBy(c, labels).Success?
    ensures Sound(ServedBy(c, labels).value) && ServedBy(c, labels).value != []
  {
    hide Declarable, Check, DeclarationAt, IndexedServices, Taken;
    var d := DeclarationAt(labels, PRIMARY);
    var dest := c.resolve(d.targetPort).value;
    var primary := ServiceOf(c, d, Check(d).value, dest);
    CheckedIsDeclarable(c, d, dest);
    IndexedAreSound(c, labels, Numbers(labels), OwnKey(primary), dest.ip);
  }

  /** What is known of every service a running container declares: the enabled ones come first and contest nothing. */
  ghost predicate WellDeclared(services: seq<ContainerService>) {
    && (forall i, j | 0 <= i < j < |services| :: OwnKey(services[i]) != OwnKey(services[j]))
    && (forall svc | svc in services && svc.serviceEnabled :: Declarable(svc))
    && (forall svc | svc in services && !svc.serviceEnabled :: svc.funnelEnabled && |services| == 1)
    && (forall i | 0 < i < |services| :: NoFunnel(services[i]))
  }

  lemma FunnelKeepsDeclarations(services: seq<ContainerService>, f: Funnel)
    requires Sound(services) && services != []
    ensures WellDeclared([WithFunnel(services[0], f)] + services[1..])
  {
    var more := [WithFunnel(services[0], f)] + services[1..];
    assert Declarable(services[0]) ==> Declarable(more[0]);
    assert OwnKey(more[0]) == OwnKey(services[0]);
    hide Declarable, OwnKey, WithFunnel;
    assert forall i | 0 < i < |more| :: more[i] == services[i] && services[i] in services;
    assert services[0] in services;
  }

  lemma ParsedIsWellDeclared(c: Container, labels: LabelSet)
    requires Parsed(c, labels).Success?
    ensures WellDeclared(Parsed(c, labels).value)
  {
    hide Declarable, ServedBy, ParseFunnel, OwnKey, Sound;
    if ServiceEnabled(labels) {
      ServedAreSound(c, labels);
      SoundIsWellDeclared(ServedBy(c, labels).value);
      if FunnelEnabled(labels) {
        hide WellDeclared, WithFunnel;
        FunnelKeepsDeclarations(ServedBy(c, labels).value, ParseFunnel(c, labels).value);
      }
    }
  }

  lemma SoundIsWellDeclared(services: seq<ContainerService>)
    requires Sound(services)
    ensures WellDeclared(services)
  {
    hide Declarable, OwnKey;
  }

  // ---- every service is what the labels ask for ----

  /** Where the container port declared under `prefix` can be reached. */
  ghost function Reached(c: Container, labels: LabelSet, prefix: string): Option<Destination> {
    c.resolve(Label(labels, prefix + "port"))
  }

  /**
   * The service is what the labels under `prefix` ask for, and its backend is where its container port can be
   * reached; in direct mode all services share the primary one's address.
   */
  ghost predicate ComesFrom(c: Container, labels: LabelSet, prefix: string, primaryIp: string, svc: ContainerService) {
    && Declares(labels, prefix, svc)
    && svc.serviceEnabled && svc.containerName == c.name && svc.tags == c.tags
    && Reached(c, labels, prefix).Some? && svc.targetPort == Reached(c, labels, prefix).value.port
    && svc.ipAddress == if c.direct && primaryIp != "" then primaryIp else Reached(c, labels, prefix).value.ip
  }

  /** The checks a declaration goes through are what the labels have to meet. */
  lemma ListenerIsDeclared(labels: LabelSet, prefix: string)
    ensures var d := DeclarationAt(labels, prefix);
            var l := ResolveProtocols(d.targetPort, d.servicePort, d.serviceProtocol, d.protocol);
            forall backend, kind, port ::
              Listens(labels, prefix, backend, kind, port) <==> l == Success(Listener(backend, port, kind))
  {
  }

  lemma MountIsDeclared(labels: LabelSet, prefix: string, kind: string)
    ensures var d := DeclarationAt(labels, prefix);
            forall path :: Mounts(labels, prefix, kind, path) <==>
                           ParseServicePath(d.path, d.hasPath, kind) == Success(path)
  {
    hide TrimSpace;
  }

  lemma ProxyIsDeclared(labels: LabelSet, prefix: string, kind: string)
    ensures var d := DeclarationAt(labels, prefix);
            forall version ::
              Proxies(labels, prefix, kind, version) <==> ParseProxyProtocol(d.proxyProtocol, kind) == Success(version)
  {
    hide TrimSpace;
  }

  lemma NamesAreDeclared(labels: LabelSet, prefix: string)
    ensures var d := DeclarationAt(labels, prefix);
            && d.name == Label(labels, prefix + "name") && d.description == Label(labels, prefix + "description")
            && d.targetPort == Label(labels, prefix + "port")
  {
  }

  lemma CheckIsDeclared(c: Container, labels: LabelSet, prefix: string, dest: Destination)
    ensures var d := DeclarationAt(labels, prefix);
            if Check(d).Success? then Declares(labels, prefix, ServiceOf(c, d, Check(d).value, dest))
            else !InOrder(labels, prefix)
    ensures var d := DeclarationAt(labels, prefix);
            forall svc | Declares(labels, prefix, svc) ::
              Check(d) == Success(Checked(Listener(svc.protocol, svc.port, svc.serviceProtocol), svc.proxyProtocol,
                                          svc.servicePath))
  {
    var d := DeclarationAt(labels, prefix);
    ListenerIsDeclared(labels, prefix);
    NamesAreDeclared(labels, prefix);
    forall kind
      ensures forall path :: Mounts(labels, prefix, kind, path) <==>
                             ParseServicePath(d.path, d.hasPath, kind) == Success(path)
      ensures forall version ::
                Proxies(labels, prefix, kind, version) <==>
                    ParseProxyProtocol(d.proxyProtocol, kind) == Success(version)
    {
      MountIsDeclared(labels, prefix, kind);
      ProxyIsDeclared(labels, prefix, kind);
    }
    hide DeclarationAt, ResolveProtocols, ParseServicePath, ParseProxyProtocol, Listens, Mounts, Proxies, Label;
  }

  ghost predicate Indexed(c: Container, labels: LabelSet, numbers: seq<nat>, primaryIp: string, svc: ContainerService) {
    exists n | n in numbers :: ComesFrom(c, labels, IndexPrefix(n), primaryIp, svc)
  }

  lemma {:induction false} IndexedComeFrom(
    c: Container, labels: LabelSet, numbers: seq<nat>, primary: string, primaryIp: string, svc: ContainerService)
    requires svc in IndexedServices(c, labels, numbers, primary, primaryIp)
    ensures Indexed(c, labels, numbers, primaryIp, svc)
  {
    hide ComesFrom, Taken, PrefixOf, Admitted;
    var init, last := numbers[..|numbers| - 1], numbers[|numbers| - 1];
    if svc in IndexedServices(c, labels, init, primary, primaryIp) {
      IndexedComeFrom(c, labels, init, primary, primaryIp, svc);
      var n :| n in init && ComesFrom(c, labels, IndexPrefix(n), primaryIp, svc);
      assert n in numbers;
    } else {
      AdmittedComesFrom(c, labels, init, last, primary, primaryIp, svc);
      assert last in numbers;
    }
  }

  lemma AdmittedComesFrom(
    c: Container, labels: LabelSet, earlier: seq<nat>, index: nat, primary: string, primaryIp: string,
    svc: ContainerService)
    requires svc in Admitted(c, labels, earlier, index, primary, primaryIp)
    ensures ComesFrom(c, labels, IndexPrefix(index), primaryIp, svc)
  {
    hide Check, Taken, DeclarationAt, Declares;
    assert PrefixOf(index) == IndexPrefix(index);
    var d := DeclarationAt(labels, PrefixOf(index));
    var dest := c.resolve(d.targetPort).value;
    var ip := if c.direct && primaryIp != "" then primaryIp else dest.ip;
    NamesAreDeclared(labels, PrefixOf(index));
    CheckIsDeclared(c, labels, PrefixOf(index), Destination(ip, dest.port));
  }

  /**
   * Every service of a running container is what the labels under one prefix ask for, served where it can be reached;
   * the first one is what the primary labels ask for.
   */
  lemma EveryServiceIsDeclared(c: Container, labels: LabelSet, svc: ContainerService)
    requires Parsed(c, labels).Success? && svc in Parsed(c, labels).value && svc.serviceEnabled
    ensures Reached(c, labels, PRIMARY_PREFIX).Some?
    ensures var ip := Reached(c, labels, PRIMARY_PREFIX).value.ip;
            && ComesFrom(c, labels, PRIMARY_PREFIX, ip, Parsed(c, labels).value[0])
            && (svc == Parsed(c, labels).value[0] || Indexed(c, labels, Numbers(labels), ip, svc))
  {
    hide ServedBy, IndexedServices, ParseFunnel, ComesFrom, Indexed, Reached;
    var served := ServedBy(c, labels).value;
    var i :| 0 <= i < |Parsed(c, labels).value| && Parsed(c, labels).value[i] == svc;
    ServedStartsWithPrimary(c, labels);
    var first := Parsed(c, labels).value[0];
    assert first == served[0] || exists f :: first == WithFunnel(served[0], f);
    var ip := Reached(c, labels, PRIMARY_PREFIX).value.ip;
    FunnelKeepsOrigin(c, labels, PRIMARY_PREFIX, ip, served[0], first);
    hide WithFunnel;
    if i > 0 {
      assert svc == served[i] == served[1..][i - 1];
      IndexedComeFrom(c, labels, Numbers(labels), OwnKey(served[0]), ip, svc);
    }
  }

  lemma ServedStartsWithPrimary(c: Container, labels: LabelSet)
    requires ServedBy(c, labels).Success?
    ensures Reached(c, labels, PRIMARY_PREFIX).Some? && ServedBy(c, labels).value != []
    ensures var ip, served := Reached(c, labels, PRIMARY_PREFIX).value.ip, ServedBy(c, labels).value;
            && ComesFrom(c, labels, PRIMARY_PREFIX, ip, served[0])
            && served[1..] == IndexedServices(c, labels, Numbers(labels), OwnKey(served[0]), ip)
  {
    hide Check, DeclarationAt, IndexedServices, Declares, Label;
    var d := DeclarationAt(labels, PRIMARY);
    NamesAreDeclared(labels, PRIMARY);
    CheckIsDeclared(c, labels, PRIMARY, c.resolve(d.targetPort).value);
  }

  lemma FunnelKeepsOrigin(
    c: Container, labels: LabelSet, prefix: string, ip: string, a: ContainerService, b: ContainerService)
    requires ComesFrom(c, labels, prefix, ip, a) && (b == a || exists f :: b == WithFunnel(a, f))
    ensures ComesFrom(c, labels, prefix, ip, b)
  {
    hide Listens, Mounts, Proxies, Label;
  }

  lemma {:induction false} DistinctKeysClaimOnce(services: seq<ContainerService>, key: string)
    requires DistinctKeys(services)
    ensures |Claims(services, key)| <= 1
  {
    if services != [] {
      var rest, last := services[..|services| - 1], services[|services| - 1];
      DistinctKeysClaimOnce(rest, key);
      forall svc | svc in rest ensures DesiredServiceKey(svc) != DesiredServiceKey(last) {
        var i :| 0 <= i < |rest| && rest[i] == svc;
        assert services[i] == svc;
        OwnKeysDecide(svc, last);
      }
    }
  }

  lemma OwnKeysDecide(a: ContainerService, b: ContainerService)
    ensures DesiredServiceKey(a) == DesiredServiceKey(b) <==> OwnKey(a) == OwnKey(b)
  {
    assert DesiredServiceKey(a) == "svc:" + OwnKey(a);
    assert DesiredServiceKey(b) == "svc:" + OwnKey(b);
    if "svc:" + OwnKey(a) == "svc:" + OwnKey(b) {
      PrefixCancels("svc:", OwnKey(a), OwnKey(b));
    }
  }

  /**
   * One container never conflicts with itself: for all labels, the index of its own services
   * reports no conflict and holds every one of them.
   */
  lemma OneContainerNeverConflicts(c: Container, labels: LabelSet)
    requires Parsed(c, labels).Success?
    ensures var services := Parsed(c, labels).value;
            && Conflicts(services) == map[] && ConflictedNames(services) == {}
            && forall svc | svc in services && svc.serviceEnabled ::
                 DesiredServiceKey(svc) in DesiredMap(services) && DesiredMap(services)[DesiredServiceKey(svc)] == svc
  {
    ParsedIsWellDeclared(c, labels);
    var services := Parsed(c, labels).value;
    hide Parsed, DesiredMap, DesiredServiceKey, Declarable, OwnKey;
    DistinctAreServed(services);
  }

  /** Services that claim endpoints of their own are all served. */
  lemma DistinctAreServed(services: seq<ContainerService>)
    requires DistinctKeys(services)
    ensures Conflicts(services) == map[] && ConflictedNames(services) == {}
    ensures forall svc | svc in services && svc.serviceEnabled ::
              DesiredServiceKey(svc) in DesiredMap(services) && DesiredMap(services)[DesiredServiceKey(svc)] == svc
  {
    hide Claims, DesiredServiceKey, OwnKey;
    forall key ensures |Claims(services, key)| <= 1 {
      DistinctKeysClaimOnce(services, key);
    }
    assert Conflicts(services) == map[];
    forall svc | svc in services && svc.serviceEnabled
      ensures DesiredServiceKey(svc) in DesiredMap(services) && DesiredMap(services)[DesiredServiceKey(svc)] == svc
    {
      EveryClaimIsServedOrContested(services, svc);
    }
  }

  /**
   * The serve command can be built for every declared service; it carries PROXY only for a TCP
   * listener and a mount path, absolute, only for an HTTP one.
   */
  lemma ArgumentsAreAccepted(c: Container, labels: LabelSet, svc: ContainerService)
    requires Parsed(c, labels).Success?
    requires svc in Parsed(c, labels).value && svc.serviceEnabled
    ensures ServeAddArgs(svc).Success?
    ensures var args := ServeAddArgs(svc).value;
            && (args.proxyProtocol != 0 ==> args.proxyProtocol in {1, 2} && IsTcp(args.kind))
            && (args.setPath.Some? <==> IsHttp(args.kind))
            && (args.setPath.Some? ==>
                args.setPath.value == svc.servicePath && args.setPath.value != "" && args.setPath.value[0] == '/')
  {
    ParsedIsWellDeclared(c, labels);
    hide Parsed, BuildDestination;
  }

  /**
   * What the comparison with the daemon's state asks of a service, the parser guarantees, except
   * for two things no label is checked for: a service port with a colon in it, and a backend
   * address that itself looks like a URL.
   */
  lemma ParsedServicesAreValid(c: Container, labels: LabelSet, svc: ContainerService)
    requires Parsed(c, labels).Success?
    requires svc in Parsed(c, labels).value && svc.serviceEnabled
    ensures ValidService(svc) <==> ':' !in svc.port && !Contains(svc.ipAddress + ":" + svc.targetPort, "://")
  {
    ParsedIsWellDeclared(c, labels);
    hide Parsed, Contains, Declarable, ValidService, OwnKey;
    DeclarableIsValid(svc);
  }

  /** The service was read from the labels of some running container. */
  ghost predicate Declared(svc: ContainerService) {
    exists c, labels :: Parsed(c, labels).Success? && svc in Parsed(c, labels).value
  }

  /**
   * A desired list read from labels is what convergence is stated for if and only if every uncontested
   * service has a port without a colon and a backend that is no URL.
   */
  lemma DeclaredDesiredIsValid(desired: seq<ContainerService>)
    requires forall svc | svc in desired :: Declared(svc)
    ensures Cycle.ValidDesired(desired) <==>
            forall key | key in DesiredMap(desired) ::
              var svc := DesiredMap(desired)[key];
              ':' !in svc.port && !Contains(svc.ipAddress + ":" + svc.targetPort, "://")
  {
    forall key | key in DesiredMap(desired)
      ensures var svc := DesiredMap(desired)[key];
              ValidService(svc) <==> ':' !in svc.port && !Contains(svc.ipAddress + ":" + svc.targetPort, "://")
    {
      Cycle.DesiredMapFacts(desired, key);
      hide Parsed, ValidService, Contains, DesiredMap;
      var svc := DesiredMap(desired)[key];
      assert Declared(svc);
      var c, labels :| Parsed(c, labels).Success? && svc in Parsed(c, labels).value;
      ParsedServicesAreValid(c, labels, svc);
    }
    hide ValidService, Contains, DesiredMap;
  }

  lemma DeclarableIsValid(svc: ContainerService)
    requires Declarable(svc)
    ensures ValidService(svc) <==> ':' !in svc.port && !Contains(svc.ipAddress + ":" + svc.targetPort, "://")
  {
    hide Contains;
  }
}
