/** What the parse of a running container gives, exactly, from its label values. */
module ParsedLabels {
  import opened Declarations
  import opened Decimal
  import opened LabelSpec
  import opened Labels
  import opened Strings
  import opened Types
  import opened FunnelNode
  import FunnelOwnership

  // ---- indices ----

  /** The indices are the numbers some label writes. */
  lemma IndexIsWritten(labels: LabelSet, n: nat)
    ensures n in Numbers(labels) <==> IsIndex(labels, n)
  {
    if n in IndexSet(labels) {
      var key :| key in labels && IndexIn(key) == Some(n);
      var digits := IndexDigits(key).value;
      assert key == "docktail.service." + digits + ".port";
    }
    if IsIndex(labels, n) {
      var digits :| Numeric(digits) && Value(digits) == n && "docktail.service." + digits + ".port" in labels;
      hide Numeric, Value;
      KeyOfIndex(digits);
      assert n in IndexSet(labels);
    }
  }

  lemma KeyOfIndex(digits: string)
    requires Numeric(digits)
    ensures IndexDigits("docktail.service." + digits + ".port") == Some(digits)
  {
    hide Numeric;
    var key := "docktail.service." + digits + ".port";
    assert digits != "" by {
      NumericIsNotEmpty(digits);
    }
    assert key[|PRIMARY|..|key| - |INDEXED_PORT|] == digits && key[|key| - |INDEXED_PORT|..] == INDEXED_PORT;
  }

  lemma NumericIsNotEmpty(s: string)
    requires Numeric(s)
    ensures s != ""
  {
  }

  // ---- nothing that is in order is dropped ----

  /** Nobody before has the endpoint: neither the primary service nor a smaller index that asks for it. */
  ghost predicate Unclaimed(labels: LabelSet, n: nat, endpoint: string) {
    && !AsksFor(labels, PRIMARY_PREFIX, endpoint)
    && forall m: nat | IsIndex(labels, m) && m < n :: !AsksFor(labels, IndexPrefix(m), endpoint)
  }

  lemma ClaimAsksFor(c: Container, labels: LabelSet, index: nat, endpoint: string)
    ensures ClaimAt(labels, index) == Some(endpoint) <==> AsksFor(labels, IndexPrefix(index), endpoint)
  {
    assert PrefixOf(index) == IndexPrefix(index);
    var d := DeclarationAt(labels, PrefixOf(index));
    CheckIsDeclared(c, labels, PrefixOf(index), Destination("", ""));
    NamesAreDeclared(labels, PrefixOf(index));
    hide Check, DeclarationAt, Listens, Mounts, Proxies, Label, PrefixOf;
    if Check(d).Success? {
      var svc := ServiceOf(c, d, Check(d).value, Destination("", ""));
      assert Declares(labels, IndexPrefix(index), svc);
      assert ClaimAt(labels, index) == Some(svc.serviceName + ":" + svc.port);
      hide ServiceOf;
    }
  }

  /** An index in order, reachable and the first to ask for its endpoint, is admitted. */
  lemma FirstIsAdmitted(
    c: Container, labels: LabelSet, earlier: seq<nat>, index: nat, primary: string, primaryIp: string,
    svc: ContainerService)
    requires Declares(labels, IndexPrefix(index), svc) && Reached(c, labels, IndexPrefix(index)).Some?
    requires !Taken(labels, earlier, primary, OwnKey(svc))
    ensures |Admitted(c, labels, earlier, index, primary, primaryIp)| == 1
  {
    assert PrefixOf(index) == IndexPrefix(index);
    CheckIsDeclared(c, labels, PrefixOf(index), Destination("", ""));
    NamesAreDeclared(labels, PrefixOf(index));
    hide Check, DeclarationAt, Listens, Mounts, Proxies, Label, PrefixOf, Taken;
  }

  lemma {:induction false} AdmittedIsKept(
    c: Container, labels: LabelSet, numbers: seq<nat>, i: nat, primary: string, primaryIp: string)
    requires i < |numbers|
    ensures forall svc | svc in Admitted(c, labels, numbers[..i], numbers[i], primary, primaryIp) ::
              svc in IndexedServices(c, labels, numbers, primary, primaryIp)
  {
    hide Admitted;
    var init := numbers[..|numbers| - 1];
    if i < |numbers| - 1 {
      AdmittedIsKept(c, labels, init, i, primary, primaryIp);
      assert init[..i] == numbers[..i];
    }
  }

  /**
   * Of a container whose primary service is in order, every index that is the first to ask for an endpoint is served.
   */
  lemma EveryIndexIsServed(c: Container, labels: LabelSet, n: nat, svc: ContainerService)
    requires Label(labels, "docktail.service.enable") == "true" && Parsed(c, labels).Success?
    requires IsIndex(labels, n) && Declares(labels, IndexPrefix(n), svc) && Unclaimed(labels, n, OwnKey(svc))
    requires Reached(c, labels, IndexPrefix(n)).Some?
    ensures Reached(c, labels, PRIMARY_PREFIX).Some?
    ensures exists s | s in Parsed(c, labels).value ::
              ComesFrom(c, labels, IndexPrefix(n), Reached(c, labels, PRIMARY_PREFIX).value.ip, s)
  {
    hide ServedBy, IndexedServices, ParseFunnel, ComesFrom, Declares, Reached, WithFunnel, OwnKey, Admitted, Taken,
         IsIndex, AsksFor;
    IndexIsWritten(labels, n);
    ServedStartsWithPrimary(c, labels);
    var served, numbers := ServedBy(c, labels).value, Numbers(labels);
    var ip := Reached(c, labels, PRIMARY_PREFIX).value.ip;
    var i :| 0 <= i < |numbers| && numbers[i] == n;
    NotTaken(c, labels, i, served[0], ip, svc);
    FirstIsAdmitted(c, labels, numbers[..i], n, OwnKey(served[0]), ip, svc);
    AdmittedIsKept(c, labels, numbers, i, OwnKey(served[0]), ip);
    var s := Admitted(c, labels, numbers[..i], n, OwnKey(served[0]), ip)[0];
    AdmittedComesFrom(c, labels, numbers[..i], n, OwnKey(served[0]), ip, s);
    assert s in served[1..] && served[1..] == Parsed(c, labels).value[1..];
  }

  lemma NotTaken(
    c: Container, labels: LabelSet, i: nat, first: ContainerService, ip: string, svc: ContainerService)
    requires i < |Numbers(labels)| && ComesFrom(c, labels, PRIMARY_PREFIX, ip, first)
    requires Unclaimed(labels, Numbers(labels)[i], OwnKey(svc))
    ensures !Taken(labels, Numbers(labels)[..i], OwnKey(first), OwnKey(svc))
  {
    hide Declares, IsIndex, ClaimAt, IndexPrefix;
    var numbers, endpoint := Numbers(labels), OwnKey(svc);
    assert AsksFor(labels, PRIMARY_PREFIX, OwnKey(first));
    hide AsksFor, OwnKey;
    forall m | m in numbers[..i] ensures ClaimAt(labels, m) != Some(endpoint) {
      var j :| 0 <= j < i && numbers[j] == m;
      assert m in numbers && m < numbers[i];
      IndexIsWritten(labels, m);
      ClaimAsksFor(c, labels, m, endpoint);
    }
  }

  // ---- when the parse fails ----

  /** The primary labels are in order and the container port can be reached. */
  ghost predicate PrimaryFails(c: Container, labels: LabelSet) {
    !InOrder(labels, PRIMARY_PREFIX) || Reached(c, labels, PRIMARY_PREFIX).None?
  }

  ghost predicate FunnelFails(c: Container, labels: LabelSet) {
    !FunnelInOrder(labels) || c.resolve(Label(labels, "docktail.funnel.port")).None?
  }

  /** Only an invalid or unreachable primary service, or funnel, makes the parse of an enabled container fail. */
  lemma ParseFailsIff(c: Container, labels: LabelSet)
    ensures Parsed(c, labels).Failure? <==>
            || (Label(labels, "docktail.service.enable") == "true" && PrimaryFails(c, labels))
            || (Label(labels, "docktail.funnel.enable") == "true" && FunnelFails(c, labels))
  {
    ServedFailsIff(c, labels);
    FunnelFailsIff(c, labels);
    hide ServedBy, ParseFunnel, PrimaryFails, FunnelFails;
  }

  lemma ServedFailsIff(c: Container, labels: LabelSet)
    ensures ServedBy(c, labels).Failure? <==> PrimaryFails(c, labels)
  {
    CheckIsDeclared(c, labels, PRIMARY, Destination("", ""));
    NamesAreDeclared(labels, PRIMARY);
    hide Check, DeclarationAt, Listens, Mounts, Proxies, Label, IndexedServices;
    assert PRIMARY == PRIMARY_PREFIX;
  }

  /** What the funnel labels ask for, with the container port where it can be reached. */
  ghost predicate FunnelReaches(c: Container, labels: LabelSet, svc: ContainerService) {
    && FunnelDeclared(labels, svc)
    && c.resolve(svc.funnelPort).Some? && svc.funnelTargetPort == c.resolve(svc.funnelPort).value.port
  }

  lemma FunnelIsDeclared(c: Container, labels: LabelSet, svc: ContainerService)
    requires ParseFunnel(c, labels).Success?
    ensures FunnelReaches(c, labels, WithFunnel(svc, ParseFunnel(c, labels).value))
  {
    hide TrimSpace;
  }

  lemma FunnelFailsIff(c: Container, labels: LabelSet)
    ensures ParseFunnel(c, labels).Failure? <==> FunnelFails(c, labels)
  {
    if ParseFunnel(c, labels).Success? {
      var some := FunnelOnly(c, ParseFunnel(c, labels).value);
      FunnelIsDeclared(c, labels, some);
      hide ParseFunnel, TrimSpace;
      assert FunnelDeclared(labels, WithFunnel(some, ParseFunnel(c, labels).value));
    } else if FunnelInOrder(labels) {
      hide TrimSpace;
      var svc :| FunnelDeclared(labels, svc);
    }
  }

  /** Nothing is to be served. */
  ghost predicate NoService(svc: ContainerService) {
    && svc.port == svc.targetPort == svc.serviceProtocol == svc.servicePath == svc.protocol == svc.serviceDescription
       == ""
    && svc.proxyProtocol == 0
  }

  /** The first service carries the funnel; without services the container is reported for its funnel alone. */
  lemma FunnelIsOnFirst(c: Container, labels: LabelSet)
    requires Parsed(c, labels).Success?
    ensures var services := Parsed(c, labels).value;
            && (forall i | 0 < i < |services| :: NoFunnel(services[i]))
            && (Label(labels, "docktail.funnel.enable") != "true" ==>
                  forall svc | svc in services :: NoFunnel(svc))
            && (Label(labels, "docktail.funnel.enable") == "true" ==>
                  && services != [] && FunnelReaches(c, labels, services[0])
                  && (Label(labels, "docktail.service.enable") != "true" ==>
                        && |services| == 1 && !services[0].serviceEnabled && services[0].serviceName == ""
                        && services[0].containerName == c.name && services[0].tags == c.tags
                        && services[0].ipAddress == c.resolve(services[0].funnelPort).value.ip
                        && NoService(services[0])))
            && (Label(labels, "docktail.service.enable") != "true" && Label(labels, "docktail.funnel.enable") != "true"
                ==> services == [])
  {
    ParsedIsWellDeclared(c, labels);
    hide ServedBy, FunnelReaches, Declarable, OwnKey;
    if ServiceEnabled(labels) {
      ServedAreSound(c, labels);
    }
    if FunnelEnabled(labels) {
      var f := ParseFunnel(c, labels).value;
      if ServiceEnabled(labels) {
        FunnelIsDeclared(c, labels, ServedBy(c, labels).value[0]);
      } else {
        OnlyFunnel(c, labels);
      }
    }
    hide ParseFunnel;
  }

  lemma OnlyFunnel(c: Container, labels: LabelSet)
    requires ParseFunnel(c, labels).Success?
    ensures var svc := FunnelOnly(c, ParseFunnel(c, labels).value);
            && FunnelReaches(c, labels, svc) && !svc.serviceEnabled && svc.serviceName == ""
            && svc.containerName == c.name && svc.tags == c.tags
            && svc.ipAddress == c.resolve(svc.funnelPort).value.ip && NoService(svc)
  {
    var f := ParseFunnel(c, labels).value;
    var blank := ContainerService(
      c.name, false, "", "", "", "", "", "", "", c.tags, f.ip, 0, false, "", "", "", "", "");
    FunnelIsDeclared(c, labels, blank);
    hide FunnelReaches;
  }

  /**
   * Where a funnel read from labels sends what comes in once the node accepts it: to the port its container port is
   * reached at; at the address of the first service if the container has any, and only otherwise at that of the
   * container port itself.
   */
  lemma FunnelGoesToResolvedPort(c: Container, labels: LabelSet, ports: Ports)
    requires Parsed(c, labels).Success? && Label(labels, "docktail.funnel.enable") == "true"
    requires Parsed(c, labels).value != [] && WellFormed(ports)
    requires FunnelOwnership.Accepts(ports, Parsed(c, labels).value[0])
    ensures var svc := Parsed(c, labels).value[0];
            var found := c.resolve(Label(labels, "docktail.funnel.port"));
            && found.Some?
            && FunnelOwnership.GoesTo(FunnelOwnership.AfterAdd(ports, svc), svc, svc.ipAddress + ":" + found.value.port)
            && (Label(labels, "docktail.service.enable") != "true" ==> svc.ipAddress == found.value.ip)
  {
    FunnelIsOnFirst(c, labels);
    var svc := Parsed(c, labels).value[0];
    hide Parsed, FunnelOwnership.GoesTo, FunnelOwnership.Accepts, FunnelOwnership.AfterAdd, WellFormed;
    FunnelOwnership.AcceptedGoesToBackend(ports, svc);
    FunnelPortIsLabel(c, labels, svc);
  }

  lemma FunnelPortIsLabel(c: Container, labels: LabelSet, svc: ContainerService)
    requires FunnelReaches(c, labels, svc)
    ensures var found := c.resolve(Label(labels, "docktail.funnel.port"));
            found.Some? && svc.funnelTargetPort == found.value.port
            && svc.funnelPort == Label(labels, "docktail.funnel.port")
  {
  }
}
