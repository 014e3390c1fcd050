/** Service definitions in the tailnet's Control Plane, and how DockTail keeps them in step with the labels. */
module ControlPlane {
  import opened Types
  import opened Serve
  import opened Desired

  /** A definition as the API reports it. Tags are a set to the Control Plane, listed in whatever order it likes. */
  datatype Definition = Definition(addrs: seq<string>, tags: seq<string>, ports: seq<string>, comment: string)

  /** The per-name view of the desired state. */
  datatype ServiceDef = ServiceDef(tags: seq<string>, ports: seq<string>, description: string)

  datatype Write = Put(name: string, definition: Definition) | Delete(name: string)

  function Elements(a: seq<string>): set<string> {
    set x | x in a
  }

  /** Duplicates and order never count as a difference. */
  method SameStringSet(a: seq<string>, b: seq<string>) returns (same: bool)
    ensures same <==> Elements(a) == Elements(b)
  {
    var setA := Elements(a);
    var distinctB := 0;
    var seenB: set<string> := {};
    for i := 0 to |b|
      invariant seenB == Elements(b[..i]) && seenB <= setA && distinctB == |seenB|
    {
      assert Elements(b[..i + 1]) == Elements(b[..i]) + {b[i]};
      if b[i] !in setA {
        assert b[i] in Elements(b);
        return false;
      }
      if b[i] !in seenB {
        seenB := seenB + {b[i]};
        distinctB := distinctB + 1;
      }
    }
    assert b[..|b|] == b;
    same := |setA| == distinctB;
    SubsetOfEqualSize(seenB, setA);
  }

  lemma SubsetOfEqualSize(a: set<string>, b: set<string>)
    requires a <= b
    ensures |a| == |b| <==> a == b
  {
    assert b == a + (b - a);
    assert |b| == |a| + |b - a|;
  }

  function FullName(name: string): string {
    if "svc:" <= name then name else "svc:" + name
  }

  predicate Drifted(existing: Definition, def: ServiceDef) {
    || (def.tags != [] && Elements(existing.tags) != Elements(def.tags))
    || (def.description != "" && existing.comment != def.description)
  }

  function TcpPorts(ports: seq<string>): seq<string> {
    var declared := if ports == [] then ["443"] else ports;
    seq(|declared|, i requires 0 <= i < |declared| => "tcp:" + declared[i])
  }

  /** What SyncServiceDefinition writes, if anything, given what the API reports. */
  function Payload(existing: Option<Definition>, def: ServiceDef): Option<Definition> {
    match existing
    case None => Some(Definition([], def.tags, TcpPorts(def.ports), def.description))
    case Some(e) =>
      if !Drifted(e, def) then None
      else Some(Definition(
        e.addrs,
        if def.tags != [] && Elements(e.tags) != Elements(def.tags) then def.tags else e.tags,
        e.ports,
        if def.description != "" && e.comment != def.description then def.description else e.comment))
  }

  /** A definition the Control Plane may hold after storing `written`: the tags come back as the same set. */
  predicate StoredAs(written: Definition, stored: Definition) {
    && Elements(stored.tags) == Elements(written.tags)
    && stored.ports == written.ports && stored.comment == written.comment
    && (written.addrs != [] ==> stored.addrs == written.addrs)
  }

  /**
   * One write is enough: whatever order and multiplicity the Control Plane stores the tags in,
   * the definition it then reports needs no further write, and keeps its ports and addresses.
   */
  lemma WrittenOnceIsInSync(existing: Option<Definition>, def: ServiceDef, stored: Definition)
    requires Payload(existing, def).Some? && StoredAs(Payload(existing, def).value, stored)
    ensures Payload(Some(stored), def).None?
    ensures existing.Some? ==>
              && stored.ports == existing.value.ports
              && (existing.value.addrs != [] ==> stored.addrs == existing.value.addrs)
    ensures existing.Some? && def.tags == [] ==> Elements(stored.tags) == Elements(existing.value.tags)
    ensures existing.Some? && def.description == "" ==> stored.comment == existing.value.comment
  {
  }

  // ---- aggregation by service name ----

  predicate BacksName(svc: ContainerService, name: string) {
    svc.serviceEnabled && svc.serviceName == name
  }

  /** The enabled services of one name, in list order. */
  function Backing(services: seq<ContainerService>, name: string): (r: seq<ContainerService>)
    ensures |r| > 0 <==> exists svc :: svc in services && BacksName(svc, name)
  {
    if services == [] then []
    else
      var rest, last := Backing(services[..|services| - 1], name), services[|services| - 1];
      assert forall svc | svc in services :: svc == last || svc in services[..|services| - 1];
      if BacksName(last, name) then
        assert last in services;
        rest + [last]
      else rest
  }

  ghost predicate FirstDescription(backing: seq<ContainerService>, description: string) {
    || (description == "" && forall i | 0 <= i < |backing| :: backing[i].serviceDescription == "")
    || exists i | 0 <= i < |backing| ::
         && backing[i].serviceDescription == description != ""
         && forall j | 0 <= j < i :: backing[j].serviceDescription == ""
  }

  ghost predicate HasPort(backing: seq<ContainerService>, port: string) {
    exists i | 0 <= i < |backing| :: backing[i].port == port
  }

  ghost predicate AllPortsOnce(backing: seq<ContainerService>, ports: seq<string>) {
    && (forall p :: p in ports <==> HasPort(backing, p))
    && (forall i, j | 0 <= i < j < |ports| :: ports[i] != ports[j])
  }

  /** Tags of the first container, every port once, the first description that is not empty. */
  ghost predicate Aggregates(backing: seq<ContainerService>, def: ServiceDef) {
    && |backing| > 0
    && def.tags == backing[0].tags
    && AllPortsOnce(backing, def.ports)
    && FirstDescription(backing, def.description)
  }

  function Extended(known: Option<ServiceDef>, svc: ContainerService): ServiceDef {
    var def := match known
               case None => ServiceDef(svc.tags, [], svc.serviceDescription)
               case Some(d) => if d.description == "" then d.(description := svc.serviceDescription) else d;
    if svc.port in def.ports then def else def.(ports := def.ports + [svc.port])
  }

  lemma ExtendedAggregates(backing: seq<ContainerService>, known: Option<ServiceDef>, svc: ContainerService)
    requires if known.None? then backing == [] else Aggregates(backing, known.value)
    ensures Aggregates(backing + [svc], Extended(known, svc))
  {
    var more, def := backing + [svc], Extended(known, svc);
    assert more[|backing|] == svc;
    assert forall i | 0 <= i < |backing| :: more[i] == backing[i];
    PortsExtended(backing, if known.None? then [] else known.value.ports, svc);
    if known.Some? && known.value.description != "" {
      var i :| 0 <= i < |backing| && backing[i].serviceDescription == known.value.description
               && forall j | 0 <= j < i :: backing[j].serviceDescription == "";
      assert more[i].serviceDescription == def.description;
    }
  }

  lemma PortsExtended(backing: seq<ContainerService>, ports: seq<string>, svc: ContainerService)
    requires AllPortsOnce(backing, ports)
    ensures AllPortsOnce(backing + [svc], if svc.port in ports then ports else ports + [svc.port])
  {
    var more := backing + [svc];
    forall p ensures HasPort(more, p) <==> p == svc.port || HasPort(backing, p) {
      if p == svc.port {
        assert more[|backing|].port == p;
      }
      if i :| 0 <= i < |backing| && backing[i].port == p {
        assert more[i].port == p;
      }
    }
  }

  ghost predicate AggregatedAt(services: seq<ContainerService>, unique: map<string, ServiceDef>, name: string) {
    if |Backing(services, name)| == 0 then name !in unique
    else name in unique && Aggregates(Backing(services, name), unique[name])
  }

  /** Of the declarations whose name is not frozen, each name has its aggregate. */
  ghost predicate AggregatedUnfrozen(
    desired: seq<ContainerService>, frozen: set<string>, unique: map<string, ServiceDef>)
  {
    forall name ::
      if |Backing(desired, name)| == 0 || NormalizeServiceName(name) in frozen then name !in unique
      else name in unique && Aggregates(Backing(desired, name), unique[name])
  }

  ghost predicate Aggregated(services: seq<ContainerService>, unique: map<string, ServiceDef>) {
    forall name :: AggregatedAt(services, unique, name)
  }

  method AggregateServiceDefinitions(services: seq<ContainerService>) returns (unique: map<string, ServiceDef>)
    ensures Aggregated(services, unique)
  {
    unique := map[];
    for i := 0 to |services|
      invariant Aggregated(services[..i], unique)
    {
      var svc := services[i];
      AggregateStep(services, i, unique);
      if svc.serviceEnabled {
        unique := unique[svc.serviceName := Extended(DefAt(unique, svc.serviceName), svc)];
      }
    }
    assert services[..|services|] == services;
  }

  function DefAt(unique: map<string, ServiceDef>, name: string): Option<ServiceDef> {
    if name in unique then Some(unique[name]) else None
  }

  lemma AggregateStep(services: seq<ContainerService>, i: nat, unique: map<string, ServiceDef>)
    requires i < |services| && Aggregated(services[..i], unique)
    ensures var svc := services[i];
            Aggregated(services[..i + 1],
                       if svc.serviceEnabled
                       then unique[svc.serviceName := Extended(DefAt(unique, svc.serviceName), svc)] else unique)
  {
    var svc, more := services[i], services[..i + 1];
    var next := if svc.serviceEnabled
                then unique[svc.serviceName := Extended(DefAt(unique, svc.serviceName), svc)] else unique;
    assert more[..i] == services[..i];
    forall name ensures AggregatedAt(more, next, name) {
      assert AggregatedAt(services[..i], unique, name);
      if BacksName(svc, name) {
        ExtendedAggregates(Backing(services[..i], name), DefAt(unique, name), svc);
      }
    }
  }

  // ---- the API ----

  class Api {
    const faulty: bool
    var definitions: map<string, Definition>
    /** Registered hosts by service. */
    var hosts: map<string, nat>
    /** Every PUT and DELETE sent, whether it succeeded or not. */
    var writes: seq<Write>

    constructor (definitions: map<string, Definition>, hosts: map<string, nat>, faulty: bool)
      ensures this.definitions == definitions && this.hosts == hosts && this.faulty == faulty && writes == []
    {
      this.definitions, this.hosts, this.faulty, writes := definitions, hosts, faulty, [];
    }

    method GetService(name: string) returns (r: Result<Option<Definition>>)
      ensures r.Success? ==> r.value == if name in definitions then Some(definitions[name]) else None
      ensures !faulty ==> r.Success?
    {
      var fails: bool := *;
      return if faulty && fails then Failure
             else Success(if name in definitions then Some(definitions[name]) else None);
    }

    method PutService(name: string, definition: Definition) returns (ok: bool)
      modifies this`definitions, this`writes
      ensures writes == old(writes) + [Put(name, definition)]
      ensures definitions == old(definitions) || (name in definitions && StoredAs(definition, definitions[name]) &&
              definitions == old(definitions)[name := definitions[name]])
      ensures ok ==> name in definitions && StoredAs(definition, definitions[name])
      ensures !faulty ==> ok
    {
      var fails: bool := *;
      ok := !(faulty && fails);
      if ok {
        assert StoredAs(definition, definition);
        var stored :| StoredAs(definition, stored);
        definitions := definitions[name := stored];
      }
      writes := writes + [Put(name, definition)];
    }

    method ListServices() returns (r: Result<set<string>>)
      ensures r.Success? ==> r.value == definitions.Keys
      ensures !faulty ==> r.Success?
    {
      var fails: bool := *;
      return if faulty && fails then Failure else Success(definitions.Keys);
    }

    method ListServiceHosts(name: string) returns (r: Result<nat>)
      ensures r.Success? ==> r.value == if name in hosts then hosts[name] else 0
      ensures !faulty ==> r.Success?
    {
      var fails: bool := *;
      return if faulty && fails then Failure else Success(if name in hosts then hosts[name] else 0);
    }

    method DeleteService(name: string) returns (ok: bool)
      modifies this`definitions, this`writes
      ensures writes == old(writes) + [Delete(name)]
      ensures definitions == old(definitions) || definitions == old(definitions) - {name}
      ensures ok ==> definitions == old(definitions) - {name}
      ensures !faulty ==> ok
    {
      var fails: bool := *;
      ok := !(faulty && fails);
      if ok {
        definitions := definitions - {name};
      }
      writes := writes + [Delete(name)];
    }
  }

  /** The name a definition is kept under. */
  ghost function KeptUnder(name: string): string {
    if |name| >= 4 && name[..4] == "svc:" then name else "svc:" + name
  }

  lemma KeptUnderFullName(name: string)
    ensures KeptUnder(name) == FullName(name)
  {
  }

  /** The definition has the declared tags, as a set, and the declared description, as far as these are declared. */
  ghost predicate InSync(definitions: map<string, Definition>, name: string, def: ServiceDef) {
    var full := KeptUnder(name);
    && full in definitions
    && (def.tags != [] ==> forall tag :: tag in definitions[full].tags <==> tag in def.tags)
    && (def.description != "" ==> definitions[full].comment == def.description)
  }

  lemma InSyncIsNotDrifted(definitions: map<string, Definition>, name: string, def: ServiceDef)
    ensures InSync(definitions, name, def) <==>
            FullName(name) in definitions && !Drifted(definitions[FullName(name)], def)
  {
    KeptUnderFullName(name);
    hide FullName, KeptUnder;
    if FullName(name) in definitions {
      var tags := definitions[FullName(name)].tags;
      assert Elements(tags) == Elements(def.tags) <==> forall tag :: tag in tags <==> tag in def.tags by {
        forall tag ensures tag in tags <==> tag in Elements(tags) {
        }
        forall tag ensures tag in def.tags <==> tag in Elements(def.tags) {
        }
      }
    }
  }

  /** Ports and addresses of existing definitions belong to the tailnet, not to this host. */
  ghost predicate KeepsPortsAndAddrs(before: map<string, Definition>, after: map<string, Definition>) {
    forall n | n in before ::
      && n in after && after[n].ports == before[n].ports
      && (before[n].addrs != [] ==> after[n].addrs == before[n].addrs)
  }

  /** Writes if something declared differs; the tags are compared as sets. */
  method PayloadFor(existing: Option<Definition>, def: ServiceDef) returns (payload: Option<Definition>)
    ensures payload == Payload(existing, def)
  {
    if existing.None? {
      return Some(Definition([], def.tags, TcpPorts(def.ports), def.description));
    }
    var e := existing.value;
    var tagsDrifted := false;
    if def.tags != [] {
      var same := SameStringSet(e.tags, def.tags);
      tagsDrifted := !same;
    }
    var descriptionDrifted := def.description != "" && e.comment != def.description;
    if !tagsDrifted && !descriptionDrifted {
      return None;
    }
    payload := Some(Definition(
      e.addrs,
      if tagsDrifted then def.tags else e.tags,
      e.ports,
      if descriptionDrifted then def.description else e.comment));
  }

  function DefinitionAt(definitions: map<string, Definition>, name: string): Option<Definition> {
    if name in definitions then Some(definitions[name]) else None
  }

  /** What one synchronization may have done: nothing, or stored what it writes for this name. */
  ghost predicate Synced(
    before: map<string, Definition>, after: map<string, Definition>, name: string, def: ServiceDef) {
    var full := FullName(name);
    || after == before
    || (&& Payload(DefinitionAt(before, full), def).Some? && full in after
        && StoredAs(Payload(DefinitionAt(before, full), def).value, after[full])
        && after == before[full := after[full]])
  }

  method SyncServiceDefinition(api: Api, name: string, def: ServiceDef) returns (ok: bool)
    modifies api`definitions, api`writes
    ensures api.writes == old(api.writes) || exists d :: api.writes == old(api.writes) + [Put(FullName(name), d)]
    ensures Synced(old(api.definitions), api.definitions, name, def)
    ensures ok ==> InSync(api.definitions, name, def)
    ensures !api.faulty ==> ok
    ensures InSync(old(api.definitions), name, def) ==>
              api.writes == old(api.writes) && api.definitions == old(api.definitions)
    ensures FullName(name) !in old(api.definitions) && FullName(name) in api.definitions ==>
              HasPortsOf(api.definitions[FullName(name)].ports, def.ports)
  {
    hide StoredAs, InSync;
    var full := FullName(name);
    InSyncIsNotDrifted(api.definitions, name, def);
    var existing := api.GetService(full);
    if existing.Failure? {
      return false;
    }
    var payload := PayloadFor(existing.value, def);
    if payload.None? {
      return true;
    }
    ok := api.PutService(full, payload.value);
    if full in api.definitions && StoredAs(payload.value, api.definitions[full]) {
      WrittenOnceIsInSync(existing.value, def, api.definitions[full]);
    }
    InSyncIsNotDrifted(api.definitions, name, def);
    if full in api.definitions && full !in old(api.definitions) && StoredAs(payload.value, api.definitions[full]) {
      NewPorts(payload.value, api.definitions[full], def);
    }
  }

  /** A definition created anew is open on every declared port, and on port 443 if there is none. */
  ghost predicate HasPortsOf(ports: seq<string>, declared: seq<string>) {
    if declared == [] then ports == ["tcp:443"]
    else |ports| == |declared| && forall i | 0 <= i < |declared| :: ports[i] == "tcp:" + declared[i]
  }

  lemma NewPorts(written: Definition, stored: Definition, def: ServiceDef)
    requires Payload(None, def) == Some(written) && StoredAs(written, stored)
    ensures HasPortsOf(stored.ports, def.ports)
  {
    if def.ports == [] {
      assert TcpPorts([])[0] == "tcp:" + "443" == "tcp:443";
      assert TcpPorts([]) == ["tcp:443"];
    }
  }

  lemma SyncedKeeps(before: map<string, Definition>, after: map<string, Definition>, name: string, def: ServiceDef)
    requires Synced(before, after, name, def)
    ensures KeepsPortsAndAddrs(before, after)
  {
  }

  lemma KeepsOnwards(a: map<string, Definition>, b: map<string, Definition>, c: map<string, Definition>)
    requires KeepsPortsAndAddrs(a, b) && KeepsPortsAndAddrs(b, c)
    ensures KeepsPortsAndAddrs(a, c)
  {
  }

  /** Two declarations that one definition can satisfy. */
  predicate Reconcilable(a: ServiceDef, b: ServiceDef) {
    && (a.tags == [] || b.tags == [] || Elements(a.tags) == Elements(b.tags))
    && (a.description == "" || b.description == "" || a.description == b.description)
  }

  /** Names kept under one full name ("web" and "svc:web") do not ask for different things. */
  ghost predicate Compatible(unique: map<string, ServiceDef>) {
    forall a, b | a in unique && b in unique && FullName(a) == FullName(b) :: Reconcilable(unique[a], unique[b])
  }

  ghost predicate AllInSync(definitions: map<string, Definition>, unique: map<string, ServiceDef>, names: set<string>) {
    forall n | n in names && n in unique :: InSync(definitions, n, unique[n])
  }

  /** Writing one definition leaves what is in step with it, and could be. */
  lemma OthersStayInSync(
    before: map<string, Definition>, after: map<string, Definition>, name: string, def: ServiceDef, other: string,
    otherDef: ServiceDef)
    requires Synced(before, after, name, def) && InSync(before, other, otherDef)
    requires FullName(other) == FullName(name) ==> Reconcilable(otherDef, def)
    ensures InSync(after, other, otherDef)
  {
    InSyncIsNotDrifted(before, other, otherDef);
    InSyncIsNotDrifted(after, other, otherDef);
    hide FullName, InSync;
  }

  lemma OneMoreInSync(
    before: map<string, Definition>, after: map<string, Definition>, unique: map<string, ServiceDef>, done: set<string>,
    name: string)
    requires name in unique && Compatible(unique) && AllInSync(before, unique, done)
    requires Synced(before, after, name, unique[name]) && InSync(after, name, unique[name])
    ensures AllInSync(after, unique, done + {name})
  {
    hide Synced, InSync, Reconcilable, FullName;
    forall n | n in done && n in unique ensures InSync(after, n, unique[n]) {
      OthersStayInSync(before, after, name, unique[name], n, unique[n]);
    }
  }

  lemma InSyncMeansCompatible(definitions: map<string, Definition>, unique: map<string, ServiceDef>)
    requires AllInSync(definitions, unique, unique.Keys)
    ensures Compatible(unique)
  {
    hide FullName, Elements, InSync;
    forall a, b | a in unique && b in unique && FullName(a) == FullName(b) ensures Reconcilable(unique[a], unique[b]) {
      assert InSync(definitions, a, unique[a]) && InSync(definitions, b, unique[b]);
      InSyncIsNotDrifted(definitions, a, unique[a]);
      InSyncIsNotDrifted(definitions, b, unique[b]);
    }
  }

  /** Every write since `base` is a PUT of one of the given services. */
  ghost predicate OnlyPutsOf(writes: seq<Write>, base: nat, unique: map<string, ServiceDef>) {
    && base <= |writes|
    && forall i | base <= i < |writes| :: writes[i].Put? && exists n :: n in unique && writes[i].name == FullName(n)
  }

  lemma OneMorePut(
    writes: seq<Write>, base: nat, unique: map<string, ServiceDef>, name: string, now: seq<Write>)
    requires OnlyPutsOf(writes, base, unique) && name in unique
    requires now == writes || exists d :: now == writes + [Put(FullName(name), d)]
    ensures OnlyPutsOf(now, base, unique) && writes <= now
  {
    hide FullName;
  }

  /**
   * After one pass that succeeds, as it does without API faults, every definition is in step if and only if names
   * that share a definition do not ask for different things; and a pass that finds everything in step writes
   * nothing.
   */
  method SyncServiceDefinitions(
    api: Api, services: seq<ContainerService>)
    returns (ok: bool, ghost unique: map<string, ServiceDef>)
    modifies api`definitions, api`writes
    ensures Aggregated(services, unique)
    ensures old(api.writes) <= api.writes && OnlyPutsOf(api.writes, |old(api.writes)|, unique)
    ensures KeepsPortsAndAddrs(old(api.definitions), api.definitions)
    ensures ok ==> (AllInSync(api.definitions, unique, unique.Keys) <==> Compatible(unique))
    ensures !api.faulty ==> ok
    ensures AllInSync(old(api.definitions), unique, unique.Keys) ==>
              api.writes == old(api.writes) && api.definitions == old(api.definitions)
  {
    var defs := AggregateServiceDefinitions(services);
    unique := defs;
    ok := true;
    var todo := defs.Keys;
    ghost var done: set<string>, base, start := {}, |api.writes|, api.definitions;
    NothingSynced(api.definitions, defs, api.writes);
    hide Aggregated, AllInSync, Compatible, OnlyPutsOf, KeepsPortsAndAddrs, Synced, InSync, FullName;
    while todo != {}
      invariant defs.Keys == done + todo
      invariant old(api.writes) <= api.writes && OnlyPutsOf(api.writes, base, defs)
      invariant KeepsPortsAndAddrs(start, api.definitions)
      invariant !api.faulty ==> ok
      invariant ok && Compatible(defs) ==> AllInSync(api.definitions, defs, done)
      invariant AllInSync(start, defs, defs.Keys) ==> api.writes == old(api.writes) && api.definitions == start
    {
      var name :| name in todo;
      ghost var before, writes := api.definitions, api.writes;
      InSyncAt(start, defs, name);
      var synced := SyncServiceDefinition(api, name, defs[name]);
      OneMorePut(writes, base, defs, name, api.writes);
      SyncedKeeps(before, api.definitions, name, defs[name]);
      KeepsOnwards(start, before, api.definitions);
      if ok && synced && Compatible(defs) {
        OneMoreInSync(before, api.definitions, defs, done, name);
      }
      todo, done := todo - {name}, done + {name};
      ok := ok && synced;
    }
    assert done == defs.Keys;
    if AllInSync(api.definitions, defs, defs.Keys) {
      InSyncMeansCompatible(api.definitions, defs);
    }
  }

  lemma NothingSynced(definitions: map<string, Definition>, unique: map<string, ServiceDef>, writes: seq<Write>)
    ensures AllInSync(definitions, unique, {}) && OnlyPutsOf(writes, |writes|, unique)
    ensures KeepsPortsAndAddrs(definitions, definitions)
  {
  }

  lemma InSyncAt(definitions: map<string, Definition>, unique: map<string, ServiceDef>, name: string)
    requires name in unique
    ensures AllInSync(definitions, unique, unique.Keys) ==> InSync(definitions, name, unique[name])
  {
  }

  function DesiredNames(desired: seq<ContainerService>): set<string> {
    set svc | svc in desired && svc.serviceEnabled :: NormalizeServiceName(svc.serviceName)
  }

  /** A definition nobody here wants, nobody told DockTail to ignore, and no host is registered for. */
  ghost predicate Unused(name: string, desired: seq<ContainerService>, ignored: set<string>, hosts: map<string, nat>) {
    && IsManaged(name)
    && (forall svc | svc in desired && svc.serviceEnabled ::
          NormalizeServiceName(svc.serviceName) != NormalizeServiceName(name))
    && NormalizeServiceName(name) !in ignored
    && (name in hosts ==> hosts[name] == 0)
  }

  ghost predicate OnlyUnusedDeleted(
    writes: seq<Write>, base: nat, desired: seq<ContainerService>, ignored: set<string>, hosts: map<string, nat>)
  {
    && base <= |writes|
    && forall i | base <= i < |writes| :: writes[i].Delete? && Unused(writes[i].name, desired, ignored, hosts)
  }

  ghost predicate UsedIsKept(
    before: map<string, Definition>, after: map<string, Definition>, desired: seq<ContainerService>,
    ignored: set<string>, hosts: map<string, nat>)
  {
    forall n | n in before && !Unused(n, desired, ignored, hosts) :: n in after && after[n] == before[n]
  }

  /** What is still there was there before, and the unused among it is still to be looked at. */
  ghost predicate UnusedIsGone(
    before: map<string, Definition>, after: map<string, Definition>, desired: seq<ContainerService>,
    ignored: set<string>, hosts: map<string, nat>, todo: set<string>)
  {
    forall n | n in after :: n in before && (Unused(n, desired, ignored, hosts) ==> n in todo)
  }

  lemma NothingDeleted(
    definitions: map<string, Definition>, writes: seq<Write>, desired: seq<ContainerService>, ignored: set<string>,
    hosts: map<string, nat>)
    ensures UsedIsKept(definitions, definitions, desired, ignored, hosts)
    ensures UnusedIsGone(definitions, definitions, desired, ignored, hosts, definitions.Keys)
    ensures OnlyUnusedDeleted(writes, |writes|, desired, ignored, hosts)
  {
    hide Unused;
  }

  lemma OneMoreDeleted(
    start: map<string, Definition>, before: map<string, Definition>, after: map<string, Definition>, writes: seq<Write>,
    base: nat, desired: seq<ContainerService>, ignored: set<string>, hosts: map<string, nat>, name: string)
    requires UsedIsKept(start, before, desired, ignored, hosts)
             && OnlyUnusedDeleted(writes, base, desired, ignored, hosts)
    requires Unused(name, desired, ignored, hosts) && (after == before || after == before - {name})
    ensures UsedIsKept(start, after, desired, ignored, hosts)
    ensures OnlyUnusedDeleted(writes + [Delete(name)], base, desired, ignored, hosts)
  {
    hide Unused;
  }

  lemma OneMoreGone(
    start: map<string, Definition>, before: map<string, Definition>, after: map<string, Definition>,
    desired: seq<ContainerService>, ignored: set<string>, hosts: map<string, nat>, todo: set<string>, name: string)
    requires UnusedIsGone(start, before, desired, ignored, hosts, todo)
    requires after == if Unused(name, desired, ignored, hosts) then before - {name} else before
    ensures UnusedIsGone(start, after, desired, ignored, hosts, todo - {name})
  {
    hide Unused;
  }

  /** On success, which there is without API faults, exactly the unused definitions go; otherwise no other does. */
  method DeleteUnusedServiceDefinitions(api: Api, desired: seq<ContainerService>, ignored: set<string>)
    returns (ok: bool)
    modifies api`definitions, api`writes
    ensures old(api.writes) <= api.writes
    ensures OnlyUnusedDeleted(api.writes, |old(api.writes)|, desired, ignored, api.hosts)
    ensures UsedIsKept(old(api.definitions), api.definitions, desired, ignored, api.hosts)
    ensures ok ==> UnusedIsGone(old(api.definitions), api.definitions, desired, ignored, api.hosts, {})
    ensures !api.faulty ==> ok
  {
    ghost var start, writes := api.definitions, api.writes;
    NothingDeleted(start, writes, desired, ignored, api.hosts);
    hide Unused, UsedIsKept, UnusedIsGone, OnlyUnusedDeleted;
    var services := api.ListServices();
    if services.Failure? {
      return false;
    }
    ok := true;
    var todo := services.value;
    while todo != {}
      invariant writes <= api.writes
      invariant OnlyUnusedDeleted(api.writes, |writes|, desired, ignored, api.hosts)
      invariant UsedIsKept(start, api.definitions, desired, ignored, api.hosts)
      invariant !api.faulty ==> ok
      invariant ok ==> UnusedIsGone(start, api.definitions, desired, ignored, api.hosts, todo)
    {
      var name :| name in todo;
      ghost var before := api.definitions;
      var deleted := DeleteIfUnused(api, desired, ignored, name, start, |writes|);
      if ok && deleted {
        OneMoreGone(start, before, api.definitions, desired, ignored, api.hosts, todo, name);
      }
      todo := todo - {name};
      ok := ok && deleted;
    }
  }

  method DeleteIfUnused(
    api: Api, desired: seq<ContainerService>, ignored: set<string>, name: string, ghost start: map<string, Definition>,
    ghost base: nat)
    returns (ok: bool)
    requires OnlyUnusedDeleted(api.writes, base, desired, ignored, api.hosts)
    requires UsedIsKept(start, api.definitions, desired, ignored, api.hosts)
    modifies api`definitions, api`writes
    ensures old(api.writes) <= api.writes
    ensures OnlyUnusedDeleted(api.writes, base, desired, ignored, api.hosts)
    ensures UsedIsKept(start, api.definitions, desired, ignored, api.hosts)
    ensures !api.faulty ==> ok
    ensures ok ==>
              api.definitions == if Unused(name, desired, ignored, api.hosts)
                                 then old(api.definitions) - {name} else old(api.definitions)
  {
    hide UsedIsKept, OnlyUnusedDeleted, NormalizeServiceName, IsManaged;
    var normalized := NormalizeServiceName(name);
    if !IsManaged(name) || normalized in DesiredNames(desired) || normalized in ignored {
      return true;
    }
    var hosts := api.ListServiceHosts(name);
    if hosts.Failure? {
      return false;
    }
    if hosts.value != 0 {
      return true;
    }
    ghost var before, writes := api.definitions, api.writes;
    ok := api.DeleteService(name);
    OneMoreDeleted(start, before, api.definitions, writes, base, desired, ignored, api.hosts, name);
  }

  ghost predicate NoDeletes(writes: seq<Write>, base: nat) {
    base <= |writes| && forall i | base <= i < |writes| :: writes[i].Put?
  }

  /** What is declared here is used, if its name normalizes like the one its definition is kept under. */
  lemma DeclaredIsUsed(
    desired: seq<ContainerService>, ignored: set<string>, hosts: map<string, nat>, name: string)
    requires |Backing(desired, name)| > 0
    ensures NormalizeServiceName(KeptUnder(name)) == NormalizeServiceName(name) ==>
              !Unused(KeptUnder(name), desired, ignored, hosts)
  {
    hide NormalizeServiceName, KeptUnder;
  }

  /**
   * What a cycle with synchronization leaves: if names that share a definition do not ask for different things, every
   * declaration that is not frozen has its definition in step; one may have been deleted as unused after that.
   */
  ghost predicate DefinitionsSynced(
    desired: seq<ContainerService>, frozen: set<string>, definitions: map<string, Definition>, ignored: set<string>,
    hosts: map<string, nat>, deleted: bool)
  {
    exists unique ::
      && AggregatedUnfrozen(desired, frozen, unique)
      && (Compatible(unique) ==>
            forall n | n in unique ::
              InSync(definitions, n, unique[n]) || (deleted && Unused(KeptUnder(n), desired, ignored, hosts)))
  }

  lemma SyncedIsInStep(
    desired: seq<ContainerService>, frozen: set<string>, definitions: map<string, Definition>, ignored: set<string>,
    hosts: map<string, nat>, unique: map<string, ServiceDef>)
    requires AggregatedUnfrozen(desired, frozen, unique)
    requires Compatible(unique) ==> AllInSync(definitions, unique, unique.Keys)
    ensures DefinitionsSynced(desired, frozen, definitions, ignored, hosts, false)
  {
    hide AggregatedUnfrozen, InSync, Unused, Compatible, KeptUnder;
  }

  lemma DeletingKeepsInStep(
    desired: seq<ContainerService>, frozen: set<string>, before: map<string, Definition>, after: map<string,
    Definition>,
    ignored: set<string>, hosts: map<string, nat>)
    requires DefinitionsSynced(desired, frozen, before, ignored, hosts, false)
    requires UsedIsKept(before, after, desired, ignored, hosts)
    ensures DefinitionsSynced(desired, frozen, after, ignored, hosts, true)
  {
    hide AggregatedUnfrozen, Unused, Compatible, KeptUnder;
    var unique :| AggregatedUnfrozen(desired, frozen, unique)
                  && (Compatible(unique) ==>
                        forall n | n in unique ::
                          InSync(before, n, unique[n]) || (false && Unused(KeptUnder(n), desired, ignored, hosts)));
    if Compatible(unique) {
      forall n | n in unique
        ensures InSync(after, n, unique[n]) || Unused(KeptUnder(n), desired, ignored, hosts)
      {
        assert InSync(before, n, unique[n]);
      }
    }
  }

  /** Some enabled, uncontested declaration has this definition. */
  ghost predicate PutPermitted(desired: seq<ContainerService>, name: string) {
    exists svc :: svc in desired && svc.serviceEnabled && name == FullName(svc.serviceName)
                  && NormalizeServiceName(svc.serviceName) !in ConflictedNames(desired)
  }

  /** Every declared name normalizes like the full name its definition is kept under (see Serve.FreezesOwnName). */
  ghost predicate NamesNormalize(desired: seq<ContainerService>) {
    forall svc | svc in desired && svc.serviceEnabled ::
      NormalizeServiceName(FullName(svc.serviceName)) == NormalizeServiceName(svc.serviceName)
  }

  /** A definition may be written exactly when some enabled declaration under its full name is not frozen. */
  lemma WritableIff(desired: seq<ContainerService>, name: string)
    ensures !PutPermitted(desired, name) <==>
            forall svc | svc in desired && svc.serviceEnabled && FullName(svc.serviceName) == name ::
              NormalizeServiceName(svc.serviceName) in ConflictedNames(desired)
  {
    hide NormalizeServiceName, ConflictedNames;
  }

  /** The definition of a contested service is neither written nor deleted. */
  lemma ContestedDefinitionIsFrozen(
    desired: seq<ContainerService>, ignored: set<string>, hosts: map<string, nat>, svc: ContainerService)
    requires svc in desired && svc.serviceEnabled && DesiredServiceKey(svc) in Conflicts(desired)
    requires NamesNormalize(desired)
    ensures var name := FullName(svc.serviceName);
            !PutPermitted(desired, name) && !Unused(name, desired, ignored, hosts)
  {
    hide NormalizeServiceName, Conflicts, FullName;
    assert NormalizeServiceName(svc.serviceName) in ConflictedNames(desired);
    assert NormalizeServiceName(svc.serviceName) in DesiredNames(desired);
    forall other | other in desired && other.serviceEnabled && FullName(other.serviceName) == FullName(svc.serviceName)
      ensures NormalizeServiceName(other.serviceName) in ConflictedNames(desired)
    {
      assert NormalizeServiceName(FullName(other.serviceName)) == NormalizeServiceName(FullName(svc.serviceName));
    }
    hide ConflictedNames;
    WritableIff(desired, FullName(svc.serviceName));
  }
}
