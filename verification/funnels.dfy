/**
 * Which funnels DockTail may take down. `funnel reset` wipes every funnel of the node, so the
 * set of managed keys is all that protects the funnels somebody else set up; and it protects only those listed.
 */
module FunnelOwnership {
  import opened Decimal
  import opened FunnelNode
  import opened FunnelStatus
  import opened Types

  function NormalizeDesiredFunnelProtocol(protocol: string): string {
    if protocol == "http" then "https" else protocol
  }

  function DesiredFunnelKey(svc: ContainerService): string {
    FunnelKey(svc.funnelFunnelPort, svc.funnelPath, svc.funnelProtocol)
  }

  function DesiredFunnelDestination(svc: ContainerService): string {
    (if svc.funnelProtocol in {"tcp", "tls-terminated-tcp"} then "tcp://" else "http://")
    + svc.ipAddress + ":" + svc.funnelTargetPort
  }

  predicate CurrentFunnelMatchesDesired(current: CurrentFunnel, svc: ContainerService) {
    && current.publicPort != ""
    && !(current.protocol == "" && current.destination == "")
    && (current.protocol == "" || current.protocol == NormalizeDesiredFunnelProtocol(svc.funnelProtocol))
    && !(IsHttpFunnelProtocol(svc.funnelProtocol)
         && NormalizeFunnelPath(current.path) != NormalizeFunnelPath(svc.funnelPath))
    && (current.destination == "" || current.destination == DesiredFunnelDestination(svc))
  }

  /**
   * A listed funnel counts as in place if something is known of it and whatever is known agrees with what is declared.
   */
  lemma MatchesIff(current: CurrentFunnel, svc: ContainerService)
    requires SupportedProtocol(svc.funnelProtocol)
    ensures var http := svc.funnelProtocol in {"http", "https"};
            CurrentFunnelMatchesDesired(current, svc) <==>
              && current.publicPort != "" && (current.protocol != "" || current.destination != "")
              && (current.protocol != "" ==> current.protocol == if http then "https" else svc.funnelProtocol)
              && (current.destination != "" ==>
                    current.destination ==
                    (if http then "http://" else "tcp://") + svc.ipAddress + ":" + svc.funnelTargetPort)
              && (http ==> (if current.path == "" then "/" else current.path)
                           == if svc.funnelPath == "" then "/" else svc.funnelPath)
  {
  }

  predicate SupportedProtocol(protocol: string) {
    protocol in {"https", "http", "tcp", "tls-terminated-tcp"}
  }

  /**
   * What the node can be asked for: a supported protocol and a numeric port. The label parser makes sure of it, except
   * for the number of a TCP port (see Labels.FunnelConfigIsServable).
   */
  predicate Servable(svc: ContainerService) {
    SupportedProtocol(svc.funnelProtocol) && Numeric(svc.funnelFunnelPort)
  }

  /** The node refuses to change what kind of funnel a port has. */
  predicate Accepts(ports: Ports, svc: ContainerService) {
    && Servable(svc)
    && (svc.funnelFunnelPort in ports ==> ports[svc.funnelFunnelPort].Web? == IsHttpFunnelProtocol(svc.funnelProtocol))
  }

  /** What the node funnels after accepting an add. */
  function AfterAdd(ports: Ports, svc: ContainerService): Ports {
    var port, destination := svc.funnelFunnelPort, DesiredFunnelDestination(svc);
    if IsHttpFunnelProtocol(svc.funnelProtocol)
    then WithMount(ports, port, NormalizeFunnelPath(svc.funnelPath), destination)
    else WithForward(ports, port, svc.funnelProtocol == "tls-terminated-tcp", destination)
  }

  /** How an accepted funnel is listed: a TCP status carries no backend address. */
  function EntryOf(svc: ContainerService): CurrentFunnel {
    if IsHttpFunnelProtocol(svc.funnelProtocol)
    then CurrentFunnel(svc.funnelFunnelPort, NormalizeFunnelPath(svc.funnelPath), "https",
                       DesiredFunnelDestination(svc))
    else Bare(svc.funnelFunnelPort, svc.funnelProtocol)
  }

  lemma EntryMatches(svc: ContainerService)
    requires Servable(svc)
    ensures CurrentFunnelMatchesDesired(EntryOf(svc), svc)
  {
  }

  /** An accepted funnel goes to the declared address and the port the container port is reached at. */
  lemma AcceptedGoesToBackend(ports: Ports, svc: ContainerService)
    requires WellFormed(ports) && Accepts(ports, svc)
    ensures GoesTo(AfterAdd(ports, svc), svc, svc.ipAddress + ":" + svc.funnelTargetPort)
  {
    AddIsListed(ports, svc);
    AfterAddIs(ports, svc);
    DestinationIs(svc);
    hide Listed, WellFormed, Numeric, AfterAdd, DesiredFunnelDestination, EntryOf, Accepts;
  }

  lemma DestinationIs(svc: ContainerService)
    requires SupportedProtocol(svc.funnelProtocol)
    ensures var address := svc.ipAddress + ":" + svc.funnelTargetPort;
            DesiredFunnelDestination(svc) ==
            if svc.funnelProtocol in {"http", "https"} then "http://" + address else "tcp://" + address
  {
    var address := svc.ipAddress + ":" + svc.funnelTargetPort;
    assert "http://" + address == "http://" + svc.ipAddress + ":" + svc.funnelTargetPort;
    assert "tcp://" + address == "tcp://" + svc.ipAddress + ":" + svc.funnelTargetPort;
  }

  lemma AfterAddIs(ports: Ports, svc: ContainerService)
    requires Accepts(ports, svc)
    ensures var now, port := AfterAdd(ports, svc), svc.funnelFunnelPort;
            var path, destination := if svc.funnelPath == "" then "/"
              else svc.funnelPath, DesiredFunnelDestination(svc);
            && SupportedProtocol(svc.funnelProtocol)
            && (svc.funnelProtocol in {"http", "https"} ==>
                  && Behind(now, OnPath(port, path)) == Some(Mounted(destination))
                  && DesiredFunnelKey(svc) == port + "|" + path
                  && EntryOf(svc) == CurrentFunnel(port, path, "https", destination))
            && (svc.funnelProtocol in {"tcp", "tls-terminated-tcp"} ==>
                  && Behind(now, OnPort(port)) ==
                     Some(Forwarded(svc.funnelProtocol == "tls-terminated-tcp", destination))
                  && DesiredFunnelKey(svc) == port && EntryOf(svc) == CurrentFunnel(port, "", svc.funnelProtocol, ""))
  {
    hide Numeric, DesiredFunnelDestination;
  }

  /** The node funnels the declared public endpoint, of the declared kind, to this address, and lists it. */
  ghost predicate GoesTo(ports: Ports, svc: ContainerService, address: string) {
    var port, path := svc.funnelFunnelPort, if svc.funnelPath == "" then "/" else svc.funnelPath;
    && (svc.funnelProtocol in {"http", "https"} ==>
          && Behind(ports, OnPath(port, path)) == Some(Mounted("http://" + address))
          && port + "|" + path in Listed(ports)
          && Listed(ports)[port + "|" + path] == CurrentFunnel(port, path, "https", "http://" + address))
    && (svc.funnelProtocol in {"tcp", "tls-terminated-tcp"} ==>
          && Behind(ports, OnPort(port)) ==
             Some(Forwarded(svc.funnelProtocol == "tls-terminated-tcp", "tcp://" + address))
          && port in Listed(ports) && Listed(ports)[port] == CurrentFunnel(port, "", svc.funnelProtocol, ""))
  }

  /** An accepted funnel is what the status then lists under its key, and nothing else in it changes. */
  lemma AddIsListed(ports: Ports, svc: ContainerService)
    requires WellFormed(ports) && Accepts(ports, svc)
    ensures WellFormed(AfterAdd(ports, svc))
    ensures Listed(AfterAdd(ports, svc)) == Listed(ports)[DesiredFunnelKey(svc) := EntryOf(svc)]
  {
    hide Listed, WellFormed, Numeric;
    var port, destination := svc.funnelFunnelPort, DesiredFunnelDestination(svc);
    if IsHttpFunnelProtocol(svc.funnelProtocol) {
      assert destination != "";
      MountIsListed(ports, port, NormalizeFunnelPath(svc.funnelPath), destination);
    } else {
      ForwardIsListed(ports, port, svc.funnelProtocol == "tls-terminated-tcp", destination);
    }
  }

  /** An accepted funnel leaves everything else on the node as it is, listed or not. */
  lemma AddTouches(ports: Ports, svc: ContainerService)
    requires Accepts(ports, svc)
    ensures Untouched(ports, AfterAdd(ports, svc), {DesiredFunnelKey(svc)})
  {
    hide Untouched, Numeric;
    var port, destination := svc.funnelFunnelPort, DesiredFunnelDestination(svc);
    if IsHttpFunnelProtocol(svc.funnelProtocol) {
      MountTouches(ports, port, NormalizeFunnelPath(svc.funnelPath), destination);
    } else {
      ForwardTouches(ports, port, svc.funnelProtocol == "tls-terminated-tcp", destination);
    }
  }

  /**
   * What the comparison can and cannot see: whatever the node funnels besides, a funnel added for `was` and read back
   * matches `now` if and only if it is a TCP funnel or its backend is the same. A changed TCP backend goes unnoticed.
   */
  lemma OnlyHttpBackendsAreCompared(
    ports: Ports, host: string, funnels: Funnels, was: ContainerService, now: ContainerService)
    requires WellFormed(ports) && Accepts(ports, was) && Lists(Render(AfterAdd(ports, was), host), funnels)
    requires SupportedProtocol(now.funnelProtocol)
    requires was.funnelFunnelPort == now.funnelFunnelPort && DesiredFunnelKey(was) == DesiredFunnelKey(now)
    requires NormalizeDesiredFunnelProtocol(was.funnelProtocol) == NormalizeDesiredFunnelProtocol(now.funnelProtocol)
    ensures DesiredFunnelKey(now) in funnels
    ensures CurrentFunnelMatchesDesired(funnels[DesiredFunnelKey(now)], now) <==>
            !IsHttpFunnelProtocol(now.funnelProtocol) || DesiredFunnelDestination(was) == DesiredFunnelDestination(now)
  {
    AddIsListed(ports, was);
    ReadsAsListed(AfterAdd(ports, was), host, funnels);
    hide Listed, WellFormed, Lists, Render, AfterAdd;
    EntriesCompare(was, now);
  }

  lemma EntriesCompare(was: ContainerService, now: ContainerService)
    requires Servable(was) && SupportedProtocol(now.funnelProtocol)
    requires was.funnelFunnelPort == now.funnelFunnelPort && DesiredFunnelKey(was) == DesiredFunnelKey(now)
    requires NormalizeDesiredFunnelProtocol(was.funnelProtocol) == NormalizeDesiredFunnelProtocol(now.funnelProtocol)
    ensures CurrentFunnelMatchesDesired(EntryOf(was), now) <==>
            !IsHttpFunnelProtocol(now.funnelProtocol) || DesiredFunnelDestination(was) == DesiredFunnelDestination(now)
  {
    if IsHttpFunnelProtocol(now.funnelProtocol) {
      var port := now.funnelFunnelPort;
      var p, q := NormalizeFunnelPath(was.funnelPath), NormalizeFunnelPath(now.funnelPath);
      assert DesiredFunnelKey(was) == port + "|" + p && DesiredFunnelKey(now) == port + "|" + q;
      assert p == DesiredFunnelKey(was)[|port| + 1..] == q;
      assert DesiredFunnelDestination(was) != "";
    }
  }

  // ---- the desired side ----

  function DesiredKeys(desired: seq<ContainerService>): set<string> {
    set svc | svc in desired && svc.funnelEnabled :: DesiredFunnelKey(svc)
  }

  /** Two declarations claim one public endpoint. */
  ghost predicate HasDuplicates(desired: seq<ContainerService>) {
    exists i, j | 0 <= i < j < |desired| ::
      desired[i].funnelEnabled && desired[j].funnelEnabled
        && DesiredFunnelKey(desired[i]) == DesiredFunnelKey(desired[j])
  }

  type Desired = map<string, ContainerService>

  ghost predicate Indexes(desired: seq<ContainerService>, index: Desired) {
    && index.Keys == DesiredKeys(desired)
    && forall key | key in index ::
         index[key] in desired && index[key].funnelEnabled && DesiredFunnelKey(index[key]) == key
  }

  method IndexDesiredFunnels(desired: seq<ContainerService>) returns (index: Desired, duplicates: nat)
    ensures Indexes(desired, index)
    ensures duplicates > 0 <==> HasDuplicates(desired)
  {
    index, duplicates := map[], 0;
    for i := 0 to |desired|
      invariant Indexes(desired[..i], index)
      invariant duplicates > 0 <==> HasDuplicates(desired[..i])
    {
      var svc := desired[i];
      IndexStep(desired, i, index);
      if svc.funnelEnabled {
        var key := DesiredFunnelKey(svc);
        if key in index {
          duplicates := duplicates + 1;
        }
        index := index[key := svc];
      }
    }
    assert desired[..|desired|] == desired;
  }

  lemma IndexStep(desired: seq<ContainerService>, i: nat, index: Desired)
    requires i < |desired| && Indexes(desired[..i], index)
    ensures var svc := desired[i];
            && Indexes(desired[..i + 1], if svc.funnelEnabled then index[DesiredFunnelKey(svc) := svc] else index)
            && (HasDuplicates(desired[..i + 1]) <==>
                HasDuplicates(desired[..i]) || (svc.funnelEnabled && DesiredFunnelKey(svc) in index))
  {
    var svc, more, less := desired[i], desired[..i + 1], desired[..i];
    hide DesiredFunnelKey;
    assert more == less + [svc];
    assert forall s :: s in more <==> s in less || s == svc;
    assert DesiredKeys(more) == DesiredKeys(less) + (if svc.funnelEnabled then {DesiredFunnelKey(svc)} else {});
    DuplicatesStep(less, svc);
    assert DesiredFunnelKey(svc) in DesiredKeys(less) <==> DesiredFunnelKey(svc) in index;
  }

  lemma DuplicatesStep(less: seq<ContainerService>, svc: ContainerService)
    ensures HasDuplicates(less + [svc]) <==>
            HasDuplicates(less) || (svc.funnelEnabled && DesiredFunnelKey(svc) in DesiredKeys(less))
  {
    hide DesiredFunnelKey;
    var more, key := less + [svc], DesiredFunnelKey(svc);
    assert more[|less|] == svc && forall i | 0 <= i < |less| :: more[i] == less[i];
    if svc.funnelEnabled && key in DesiredKeys(less) {
      var s :| s in less && s.funnelEnabled && DesiredFunnelKey(s) == key;
      var i :| 0 <= i < |less| && less[i] == s;
      assert more[i] == s;
    }
  }

  // ---- the node and what DockTail does to it ----

  /** A funnel command issued: an add for a key, or a reset of `was` decided on a status listing the keys `seen`. */
  datatype FunnelEvent = AddTried(key: string) | ResetTried(seen: set<string>, was: Ports, done: bool)

  class Node {
    const faulty: bool
    const host: string
    var ports: Ports
    var log: seq<FunnelEvent>

    ghost predicate Valid()
      reads this
    {
      WellFormed(ports)
    }

    /** The funnels as they are listed. */
    ghost function Funnels(): Funnels
      reads this
    {
      Listed(ports)
    }

    constructor (host: string, ports: Ports, faulty: bool)
      requires WellFormed(ports)
      ensures Valid() && this.host == host && this.ports == ports && this.faulty == faulty && log == []
    {
      this.host, this.ports, this.faulty, log := host, ports, faulty, [];
    }

    /** A failed read, or one that finds no funnels in what the command printed, is possible on a faulty node. */
    method GetCurrentFunnels() returns (r: Result<Funnels>)
      requires Valid()
      ensures r.Success? ==> r.value == Funnels() || (faulty && r.value == map[])
      ensures !faulty ==> r.Success?
    {
      var fails: bool := *;
      var looksEmpty: bool := *;
      if faulty && fails {
        return if looksEmpty then Success(map[]) else Failure;
      }
      var status := Render(ports, host);
      RenderedPorts(ports, host);
      var funnels := ParseFunnelStatus(status);
      ReadsAsListed(ports, host, funnels);
      return Success(funnels);
    }

    /** Whether the cleanup's context is still live. */
    method Live() returns (live: bool)
      ensures !faulty ==> live
    {
      var expired: bool := *;
      live := !(faulty && expired);
    }

    /** `tailscale funnel`; an accepted command need not have created the funnel on a faulty node. */
    method RunAdd(svc: ContainerService) returns (ok: bool)
      requires Valid()
      modifies this
      ensures Valid() && log == old(log) + [AddTried(DesiredFunnelKey(svc))]
      ensures ports == old(ports) || (Accepts(old(ports), svc) && ports == AfterAdd(old(ports), svc))
      ensures !faulty ==> ok == Accepts(old(ports), svc)
      ensures !faulty && ok ==> ports == AfterAdd(old(ports), svc)
    {
      var fails: bool := *;
      var applied: bool := *;
      ok := if faulty then !fails else Accepts(ports, svc);
      if Accepts(ports, svc) && (!faulty || applied) {
        AddIsListed(ports, svc);
        ports := AfterAdd(ports, svc);
      }
      log := log + [AddTried(DesiredFunnelKey(svc))];
    }

    method RunReset(seen: set<string>) returns (ok: bool)
      requires Valid()
      modifies this
      ensures Valid() && log == old(log) + [ResetTried(seen, old(ports), ok)]
      ensures ports == old(ports) || ports == map[]
      ensures !faulty ==> ok && ports == map[]
    {
      var fails: bool := *;
      var applied: bool := *;
      ok := !(faulty && fails);
      log := log + [ResetTried(seen, ports, ok)];
      if !faulty || applied {
        ports := map[];
      }
    }

    /** Somebody else changes the node's funnels between two cycles. */
    method Interfere(now: Ports)
      requires WellFormed(now)
      modifies this`ports
      ensures Valid() && ports == now
    {
      ports := now;
    }
  }

  /** Every key in `keys` got an add after position `from`. */
  ghost predicate AddedAfter(log: seq<FunnelEvent>, from: nat, keys: set<string>) {
    forall key | key in keys :: exists j | from <= j < |log| :: log[j] == AddTried(key)
  }

  /**
   * Every reset since `base` was decided on a status all of whose funnels were managed, one of
   * them no longer desired, and if it succeeded an add of every desired funnel followed it.
   */
  ghost predicate ResetsJustified(log: seq<FunnelEvent>, base: nat, managed: set<string>, desired: set<string>) {
    && base <= |log|
    && forall i | base <= i < |log| && log[i].ResetTried? ::
         && log[i].seen <= managed && !(log[i].seen <= desired)
         && (log[i].done ==> AddedAfter(log, i + 1, desired))
  }

  ghost predicate OnlyAdds(log: seq<FunnelEvent>, base: nat) {
    base <= |log| && forall i | base <= i < |log| :: log[i].AddTried?
  }

  /** Whatever was reset, all the funnels listed had once been wanted. */
  ghost predicate ResetsOwned(log: seq<FunnelEvent>, everDesired: set<string>) {
    forall i | 0 <= i < |log| && log[i].ResetTried? ::
      WellFormed(log[i].was) && log[i].seen == Listed(log[i].was).Keys && log[i].seen <= everDesired
  }

  /**
   * The reset saw everything that was listed, all of it among `owned`; and all it could wipe was among `owned` if
   * and only if the mounts that proxy nothing, which are not listed, were. None at all is the usual case.
   */
  ghost predicate SawOnly(event: FunnelEvent, owned: set<string>)
    requires event.ResetTried?
  {
    && event.seen == Listed(event.was).Keys && event.seen <= owned
    && (FunneledKeys(event.was) <= owned <==> MuteKeys(event.was) <= owned)
  }

  lemma SeenIsSawOnly(event: FunnelEvent, owned: set<string>)
    requires event.ResetTried? && WellFormed(event.was) && event.seen == Listed(event.was).Keys && event.seen <= owned
    ensures SawOnly(event, owned)
  {
    hide Listed, MuteKeys, FunneledKeys;
    MutesAreUnlisted(event.was);
  }

  /** What the node funnels, what was issued to it, and which keys are managed. */
  datatype Standing = Standing(ports: Ports, log: seq<FunnelEvent>, managed: set<string>)

  class FunnelClient {
    const node: Node
    var managedFunnels: set<string>
    /** Every key some cycle so far wanted. */
    ghost var everDesired: set<string>

    /** DockTail owns only what it once wanted, and never reset a node that listed a funnel it had not. */
    ghost predicate Valid()
      reads this, node
    {
      node.Valid() && managedFunnels <= everDesired && ResetsOwned(node.log, everDesired)
    }

    ghost function Now(): Standing
      reads this, node
    {
      Standing(node.ports, node.log, managedFunnels)
    }

    constructor (node: Node)
      requires node.Valid() && node.log == []
      ensures Valid() && this.node == node && managedFunnels == {} && everDesired == {}
    {
      this.node, managedFunnels, everDesired := node, {}, {};
    }

    /** Adds one funnel and checks that the node then lists it as declared. */
    method AddFunnel(svc: ContainerService) returns (ok: bool)
      requires node.Valid()
      modifies node
      ensures node.Valid()
      ensures SupportedProtocol(svc.funnelProtocol) ==> node.log == old(node.log) + [AddTried(DesiredFunnelKey(svc))]
      ensures !SupportedProtocol(svc.funnelProtocol) ==> node.log == old(node.log) && !ok
      ensures node.ports == old(node.ports)
              || (Accepts(old(node.ports), svc) && node.ports == AfterAdd(old(node.ports), svc))
      ensures ok ==> DesiredFunnelKey(svc) in node.Funnels()
                     && CurrentFunnelMatchesDesired(node.Funnels()[DesiredFunnelKey(svc)], svc)
      ensures !node.faulty && Accepts(old(node.ports), svc) ==> ok && node.ports == AfterAdd(old(node.ports), svc)
    {
      hide Listed, AfterAdd, WellFormed;
      if !SupportedProtocol(svc.funnelProtocol) {
        return false;
      }
      if Accepts(node.ports, svc) {
        AddIsListed(node.ports, svc);
        EntryMatches(svc);
      }
      var accepted := node.RunAdd(svc);
      if !accepted {
        return false;
      }
      var read := node.GetCurrentFunnels();
      if read.Failure? {
        return false;
      }
      var key := DesiredFunnelKey(svc);
      ok := key in read.value && CurrentFunnelMatchesDesired(read.value[key], svc);
    }

    /**
     * Adds or updates what is not listed as desired; answers which keys are in place afterwards, and which by an add.
     */
    method ApplyDesired(index: Desired, current: Funnels)
      returns (successful: set<string>, failed: nat, ghost added: set<string>)
      requires node.Valid() && forall key | key in index :: DesiredFunnelKey(index[key]) == key
      modifies node
      ensures node.Valid()
      ensures Logged(index, current, index.Keys, old(node.log), node.log)
      ensures Tally(index, current, index.Keys, successful, added, failed)
      ensures OnlyGrew(old(node.ports), node.ports, index.Keys) && added <= node.Funnels().Keys
      ensures !node.faulty && Fitting(index, old(node.ports))
              && (current == old(node.Funnels()) || current == map[]) ==>
                && failed == 0 && successful == index.Keys
                && Applied(index, index.Keys, old(node.Funnels()), node.Funnels())
      ensures InPlace(index, current) ==> node.log == old(node.log) && node.ports == old(node.ports)
    {
      ghost var before, start := Now(), node.Funnels();
      ghost var exact := !node.faulty && Fitting(index, node.ports) && (current == start || current == map[]);
      NothingDone(index, start, node.log);
      assert exact ==> OnTrack(index, current, {}, start, node.ports);
      NothingTallied(index, current, before, exact);
      hide Applied, Listed, WellFormed, DesiredFunnelKey, Fitting, InPlace, Course, Tally, Logged, OnlyGrew;
      successful, failed, added := ApplyAll(index, current, before, exact);
      CourseEnds(index, current, before, Now(), successful, added, failed, exact);
    }

    /** The loop over the keys, in any order. */
    method ApplyAll(index: Desired, current: Funnels, ghost before: Standing, ghost exact: bool)
      returns (successful: set<string>, failed: nat, ghost added: set<string>)
      requires node.Valid() && forall key | key in index :: DesiredFunnelKey(index[key]) == key
      requires (exact ==> !node.faulty) && Course(index, current, {}, before, Now(), {}, {}, 0, exact)
      modifies node
      ensures node.Valid() && managedFunnels == old(managedFunnels)
      ensures Course(index, current, index.Keys, before, Now(), successful, added, failed, exact)
    {
      hide WellFormed, DesiredFunnelKey, Course, ListedAs;
      successful, failed, added := {}, 0, {};
      ghost var done: set<string> := {};
      var todo := index.Keys;
      while todo != {}
        invariant node.Valid() && index.Keys == done + todo && done !! todo
        invariant Course(index, current, done, before, Now(), successful, added, failed, exact)
      {
        var key :| key in todo;
        var ok := ApplyKey(index, current, key, done, before, exact, successful, added, failed);
        todo, done := todo - {key}, done + {key};
        added := AlsoAdded(index, current, added, key, ok);
        successful, failed := if ok then successful + {key} else successful, if ok then failed else failed + 1;
      }
      assert done == index.Keys;
    }

    /** A key that is listed as desired is left alone; any other is added. */
    method ApplyKey(
      index: Desired, current: Funnels, key: string, ghost done: set<string>, ghost before: Standing, ghost exact: bool,
      ghost successful: set<string>, ghost added: set<string>, ghost failed: nat)
      returns (ok: bool)
      requires node.Valid() && key in index && key !in done && DesiredFunnelKey(index[key]) == key
      requires exact ==> !node.faulty
      requires Course(index, current, done, before, Now(), successful, added, failed, exact)
      modifies node
      ensures node.Valid()
      ensures Course(index, current, done + {key}, before, Now(), if ok then successful + {key} else successful,
                     AlsoAdded(index, current, added, key, ok), if ok then failed else failed + 1, exact)
    {
      hide Course, Logged, Applied, CurrentFunnelMatchesDesired, Listed, WellFormed, DesiredFunnelKey, Fitting,
           OnlyGrew, SupportedProtocol;
      ghost var was := Now();
      if ListedAs(index, current, key) {
        CourseInPlace(index, current, done, before, was, successful, added, failed, exact, key);
        return true;
      }
      CourseIsLogged(index, current, done, before, was, successful, added, failed, exact);
      ok := ApplyOne(index, current, key, done, Listed(before.ports), before.log);
      CourseAdded(index, current, done, before, was, Now(), successful, added, failed, exact, key, ok);
    }

    method ApplyOne(
      index: Desired, ghost current: Funnels, key: string, ghost done: set<string>, ghost start: Funnels,
      ghost log: seq<FunnelEvent>)
      returns (ok: bool)
      requires node.Valid() && key in index && key !in done && DesiredFunnelKey(index[key]) == key
      requires Logged(index, current, done, log, node.log) && !ListedAs(index, current, key)
      modifies node
      ensures node.Valid()
      ensures Logged(index, current, done + {key}, log, node.log)
      ensures OnlyGrew(old(node.ports), node.ports, {key})
      ensures ok ==> key in node.Funnels() && SupportedProtocol(index[key].funnelProtocol)
      ensures !node.faulty && Fitting(index, old(node.ports)) && Applied(index, done, start, old(node.Funnels())) ==>
                ok && Fitting(index, node.ports) && Applied(index, done + {key}, start, node.Funnels())
    {
      ghost var before, was := node.ports, node.log;
      ok := AddFunnel(index[key]);
      hide Listed, AfterAdd, WellFormed, CurrentFunnelMatchesDesired, Logged, OnlyGrew, SupportedProtocol, Accepts,
           ListedAs;
      LoggedOneMore(index, current, done, log, was, node.log, key);
      AddGrew(before, index[key], node.ports);
      if !node.faulty && Fitting(index, before) && Applied(index, done, start, Listed(before)) {
        FittingAccepts(index, before, key);
        AddIsListed(before, index[key]);
        AppliedOneMore(index, done, start, before, key);
      }
    }

    /**
     * One cycle. Duplicate claims change nothing; a key becomes managed only by being wanted now. `read` is what the
     * status gave, nothing if reading failed; `added` are the adds that succeeded; `wiped` says that a reset did.
     * Whatever fails, these say which keys are managed afterwards: what is in place, what was added, and what is
     * no longer wanted if it was read and not reset. So a managed funnel can be forgotten while it is still there (see
     * ListedIsForgottenIff), and then no reset follows (see RunWithout).
     */
    method ReconcileFunnels(desired: seq<ContainerService>)
      returns (ok: bool, ghost read: Funnels, ghost added: set<string>, ghost wiped: bool)
      requires Valid()
      modifies this, node
      ensures Valid() && everDesired == old(everDesired) + DesiredKeys(desired)
      ensures old(node.log) <= node.log
      ensures HasDuplicates(desired) ==>
                !ok && managedFunnels == old(managedFunnels) && node.log == old(node.log)
                  && node.ports == old(node.ports)
      ensures managedFunnels <= old(managedFunnels) + DesiredKeys(desired)
      ensures read == old(node.Funnels()) || (node.faulty && read == map[])
      ensures !HasDuplicates(desired) ==>
                CycleOf(DesiredKeys(desired), InPlaceKeys(desired, read), read, old(Now()), Now(), ok, added, wiped)
      ensures DesiredSupported(desired) ==>
                ResetsJustified(node.log, |old(node.log)|, old(managedFunnels), DesiredKeys(desired))
      ensures !node.faulty && !HasDuplicates(desired) && DesiredFits(desired, old(node.ports), old(managedFunnels)) ==>
                ok && Reconciled(desired, old(node.Funnels()), old(managedFunnels), node.Funnels(), managedFunnels)
      ensures !node.faulty && !HasDuplicates(desired) && DesiredFits(desired, old(node.ports), old(managedFunnels)) ==>
                HttpGoWhereDeclared(desired, node.Funnels())
      ensures !node.faulty && ListedAsDesired(desired, old(node.Funnels()))
              && !NeedsReset(DesiredKeys(desired), old(node.Funnels()), old(managedFunnels)) ==>
                node.log == old(node.log) && node.ports == old(node.ports)
    {
      everDesired := everDesired + DesiredKeys(desired);
      var status := node.GetCurrentFunnels();
      var current := if status.Success? then status.value else map[];
      read, added, wiped := current, {}, false;
      NothingReset(node.log, managedFunnels, DesiredKeys(desired));
      var index, duplicates := IndexDesiredFunnels(desired);
      hide Reconciled, ListedAsDesired, DesiredSupported, ResetsJustified, HasDuplicates, InPlace, SettledFrom, Listed,
           DesiredFits, NeedsReset, WellFormed, Fitting, ResetsOwned, CycleOf, InPlaceIn, InPlaceKeys, AfterReset,
           HttpGoWhereDeclared;
      if duplicates > 0 {
        return false, read, added, wiped;
      }
      ghost var start, managed, ports := node.Funnels(), managedFunnels, node.ports;
      InPlaceMeansListed(desired, index, start);
      InPlaceOfIndex(desired, index, read);
      ok, added, wiped := Settle(index, current);
      if DesiredSupported(desired) {
        SupportedIndex(desired, index);
      }
      if !node.faulty && DesiredFits(desired, ports, managed) {
        FitsIndex(desired, index, ports, managed);
        SettledIsReconciled(desired, index, start, managed, node.Funnels(), managedFunnels);
        DesiredGoWhereDeclared(desired, node.ports);
      }
    }

    /** Resets if some managed funnel is stale and no foreign one is listed, then applies what is desired. */
    method Settle(index: Desired, current: Funnels) returns (ok: bool, ghost added: set<string>, ghost wiped: bool)
      requires Valid() && index.Keys <= everDesired
      requires forall key | key in index :: DesiredFunnelKey(index[key]) == key
      requires current == node.Funnels() || (node.faulty && current == map[])
      modifies this`managedFunnels, node
      ensures Valid()
      ensures SettledBy(index, current, old(Now()), Now(), ok, added, wiped, node.faulty)
    {
      var stale := set key | key in current && key in managedFunnels && key !in index;
      var unmanaged := set key | key in current && key !in managedFunnels;
      StaleWithoutForeign(index.Keys, current, managedFunnels);
      StaleIsListed(index.Keys, current, managedFunnels);
      hide SettledBy, Applied, NeedsReset, AllSupported, InPlace, ResetsOwned, Listed, WellFormed, Fitting, InPlaceIn,
           StaleIn, AppliedOver, DesiredFunnelKey;
      added, wiped := {}, false;
      ghost var before := Now();
      if stale == {} || unmanaged != {} {
        ok, added := Apply(index, current, stale);
        AddsAlone(index, current, before, Now(), ok, added, everDesired, node.faulty);
        return;
      }
      var done := node.RunReset(current.Keys);
      ghost var reset := Now();
      ResetAlone(index, current, before, reset, everDesired, done, node.faulty);
      if !done {
        return false, added, wiped;
      }
      NothingListed();
      wiped := true;
      ok, added := Apply(index, map[], {});
      AddsAfterReset(index, current, before, reset, Now(), ok, added, everDesired, node.faulty);
    }

    /** Applies what is desired; managed is then what succeeded, besides what is kept. */
    method Apply(index: Desired, listed: Funnels, kept: set<string>) returns (ok: bool, ghost added: set<string>)
      requires node.Valid() && forall key | key in index :: DesiredFunnelKey(index[key]) == key
      requires listed == node.Funnels() || listed == map[]
      requires kept <= node.Funnels().Keys && kept !! index.Keys
      modifies this`managedFunnels, node
      ensures node.Valid() && managedFunnels <= index.Keys + kept
      ensures AppliedOver(index, listed, kept, old(Now()), Now(), ok, added)
      ensures !node.faulty && Fitting(index, old(node.ports)) ==>
                && ok && managedFunnels == index.Keys + kept
                && Applied(index, index.Keys, old(node.Funnels()), node.Funnels())
      ensures InPlace(index, listed) ==> node.log == old(node.log) && node.ports == old(node.ports)
    {
      hide Applied, Listed, WellFormed, DesiredFunnelKey, Fitting, InPlace, Tally, Logged, OnlyGrew, AppliedOver;
      ghost var before := Now();
      var successful, failed: nat;
      successful, failed, added := ApplyDesired(index, listed);
      managedFunnels := successful + kept;
      ok := failed == 0;
      Tallied(index, listed, kept, before, Now(), successful, added, failed);
    }

    /** On shutdown the funnels go too, but only if every one of them that is listed is DockTail's. */
    method CleanupFunnels() returns (ok: bool)
      requires Valid()
      modifies this`managedFunnels, node
      ensures Valid() && managedFunnels <= old(managedFunnels) && everDesired == old(everDesired)
      ensures node.log == old(node.log) ==> node.ports == old(node.ports) && managedFunnels == old(managedFunnels)
      ensures node.log == old(node.log) ||
              exists seen, done ::
                && node.log == old(node.log) + [ResetTried(seen, old(node.ports), done)]
                && seen != {} && SawOnly(ResetTried(seen, old(node.ports), done), old(managedFunnels))
                && done == ok
      ensures !node.faulty ==> ok
      ensures !node.faulty ==>
                if old(node.Funnels()) != map[] && old(node.Funnels()).Keys <= old(managedFunnels)
                then node.ports == map[] && managedFunnels == {} && node.log != old(node.log)
                else node.log == old(node.log)
    {
      hide Listed, WellFormed, SawOnly;
      var read := node.GetCurrentFunnels();
      ok := true;
      if read.Failure? || read.value == map[] {
        return;
      }
      var owned := set key | key in read.value && key in managedFunnels;
      var unmanaged := set key | key in read.value && key !in managedFunnels;
      assert forall key | key in read.value :: key in owned || key in unmanaged;
      var some :| some in read.value;
      if owned == {} || unmanaged != {} {
        return;
      }
      var live := node.Live();
      if !live {
        return false;
      }
      ghost var was, log := node.ports, node.log;
      ok := node.RunReset(read.value.Keys);
      SeenIsSawOnly(ResetTried(read.value.Keys, was, ok), managedFunnels);
      OwnReset(log, node.log, ResetTried(read.value.Keys, was, ok), everDesired);
      if ok {
        managedFunnels := {};
      }
    }
  }

  lemma OwnReset(log: seq<FunnelEvent>, now: seq<FunnelEvent>, event: FunnelEvent, ever: set<string>)
    requires ResetsOwned(log, ever) && now == log + [event] && event.ResetTried? && WellFormed(event.was)
    requires event.seen == Listed(event.was).Keys && event.seen <= ever
    ensures ResetsOwned(now, ever)
  {
    hide Listed, WellFormed;
  }

  /** The first command is this reset; if it failed, the only one. */
  ghost predicate ResetFirst(log: seq<FunnelEvent>, now: seq<FunnelEvent>, event: FunnelEvent)
    requires event.ResetTried?
  {
    log + [event] <= now && OnlyAdds(now, |log| + 1) && (!event.done ==> now == log + [event])
  }

  // ---- which keys are managed afterwards ----

  ghost function InPlaceIn(index: Desired, listed: Funnels): set<string> {
    set key | key in index && ListedAs(index, listed, key)
  }

  ghost function StaleIn(wanted: set<string>, read: Funnels, managed: set<string>): set<string> {
    set key | key in read && key in managed && key !in wanted
  }

  /** The desired funnels that are listed as declared. */
  ghost function InPlaceKeys(desired: seq<ContainerService>, listed: Funnels): set<string> {
    set svc | svc in desired && svc.funnelEnabled && DesiredFunnelKey(svc) in listed
              && CurrentFunnelMatchesDesired(listed[DesiredFunnelKey(svc)], svc) :: DesiredFunnelKey(svc)
  }

  /**
   * What is managed after a cycle that read `read`: what it found in place, what it added, and unless it wiped the
   * node what it saw that is no longer wanted.
   */
  ghost function ManagedAfter(
    wanted: set<string>, inPlace: set<string>, read: Funnels, managed: set<string>, wiped: bool, added: set<string>)
    : set<string>
  {
    if wiped then added else inPlace + added + StaleIn(wanted, read, managed)
  }

  /**
   * A cycle, whatever failed in it: a reset comes first, if one is due, and changes nothing more if it fails; then only
   * what is wanted is touched, and what is managed is listed.
   */
  ghost predicate CycleOf(
    wanted: set<string>, inPlace: set<string>, read: Funnels, before: Standing, after: Standing, ok: bool,
    added: set<string>, wiped: bool)
  {
    var due := NeedsReset(wanted, read, before.managed);
    && (wiped ==> due)
    && (due ==> ResetFirst(before.log, after.log, ResetTried(read.Keys, before.ports, wiped)))
    && (due && !wiped ==> !ok && after.managed == before.managed)
    && (!due ==> OnlyAdds(after.log, |before.log|) && before.log <= after.log)
    && (!due ==> Untouched(before.ports, after.ports, wanted))
    && (!due || wiped ==>
          && after.managed == ManagedAfter(wanted, inPlace, read, before.managed, wiped, added)
          && AddedAfter(after.log, |before.log|, added) && added <= wanted
          && after.managed <= Listed(after.ports).Keys && (ok <==> wanted <= after.managed))
  }

  /**
   * When a managed funnel that is there is forgotten by a cycle without a reset: one no longer wanted if and only if
   * the status read empty, one still wanted if and only if it was not seen as declared and adding it failed.
   */
  lemma ListedIsForgottenIff(
    desired: seq<ContainerService>, read: Funnels, before: Standing, after: Standing, ok: bool, added: set<string>,
    key: string)
    requires CycleOf(DesiredKeys(desired), InPlaceKeys(desired, read), read, before, after, ok, added, false)
    requires read == Listed(before.ports) || read == map[]
    requires !NeedsReset(DesiredKeys(desired), read, before.managed)
    requires key in before.managed && key in Listed(before.ports)
    ensures key !in after.managed <==>
            if key in DesiredKeys(desired) then key !in added && key !in InPlaceKeys(desired, read) else read == map[]
    ensures key !in DesiredKeys(desired) ==> key in Listed(after.ports)
  {
    hide Listed, CurrentFunnelMatchesDesired, DesiredFunnelKey, NeedsReset, AddedAfter, OnlyAdds, Untouched;
    InPlaceIsDesired(desired, read);
    if key !in DesiredKeys(desired) {
      UntouchedStays(before.ports, after.ports, DesiredKeys(desired), key);
    }
  }

  lemma InPlaceIsDesired(desired: seq<ContainerService>, read: Funnels)
    ensures InPlaceKeys(desired, read) <= DesiredKeys(desired) * read.Keys
  {
    hide CurrentFunnelMatchesDesired, DesiredFunnelKey;
  }

  lemma InPlaceOfIndex(desired: seq<ContainerService>, index: Desired, read: Funnels)
    requires Indexes(desired, index)
    ensures !HasDuplicates(desired) ==> InPlaceIn(index, read) == InPlaceKeys(desired, read)
  {
    hide CurrentFunnelMatchesDesired, DesiredFunnelKey, HasDuplicates, Indexes;
    if !HasDuplicates(desired) {
      forall key ensures key in InPlaceIn(index, read) <==> key in InPlaceKeys(desired, read) {
        InPlaceKeyAt(desired, index, read, key);
      }
    }
  }

  lemma InPlaceKeyAt(desired: seq<ContainerService>, index: Desired, read: Funnels, key: string)
    requires Indexes(desired, index) && !HasDuplicates(desired)
    ensures key in InPlaceIn(index, read) <==> key in InPlaceKeys(desired, read)
  {
    hide CurrentFunnelMatchesDesired, DesiredFunnelKey, HasDuplicates;
    if key in InPlaceKeys(desired, read) {
      var svc :| svc in desired && svc.funnelEnabled && DesiredFunnelKey(svc) == key && key in read
                 && CurrentFunnelMatchesDesired(read[key], svc);
      IndexHoldsAll(desired, index, svc);
    }
  }

  // ---- applying ----

  /** The keys in `done` that an add is tried for. */
  ghost function Tried(index: Desired, current: Funnels, done: set<string>): set<string> {
    set key | key in done && key in index
              && !ListedAs(index, current, key) && SupportedProtocol(index[key].funnelProtocol)
  }

  /** Of the keys in `done`, those listed as desired or added succeeded, and the others were counted. */
  ghost predicate Tally(
    index: Desired, current: Funnels, done: set<string>, successful: set<string>, added: set<string>, failed: nat)
  {
    && added <= Tried(index, current, done)
    && (forall key :: key in successful <==>
          key in done && key in index && (key in added || ListedAs(index, current, key)))
    && (failed == 0 <==> successful == done)
  }

  ghost function AlsoAdded(index: Desired, current: Funnels, added: set<string>, key: string, ok: bool): set<string>
    requires key in index
  {
    if ok && !ListedAs(index, current, key) then added + {key} else added
  }

  /** The log grew by adds only, among them one for every key in `done` that needs one. */
  ghost predicate Logged(
    index: Desired, current: Funnels, done: set<string>, log: seq<FunnelEvent>, now: seq<FunnelEvent>)
  {
    log <= now && OnlyAdds(now, |log|) && AddedAfter(now, |log|, Tried(index, current, done))
  }

  lemma LoggedInPlace(
    index: Desired, current: Funnels, done: set<string>, log: seq<FunnelEvent>, now: seq<FunnelEvent>, key: string)
    requires Logged(index, current, done, log, now) && key in index && ListedAs(index, current, key)
    ensures Logged(index, current, done + {key}, log, now)
  {
    hide ListedAs, AddedAfter, OnlyAdds;
    TriedOneMore(index, current, done, key);
  }

  lemma LoggedOneMore(
    index: Desired, current: Funnels, done: set<string>, log: seq<FunnelEvent>, was: seq<FunnelEvent>,
    now: seq<FunnelEvent>, key: string)
    requires Logged(index, current, done, log, was) && key in index && !ListedAs(index, current, key)
    requires now == if SupportedProtocol(index[key].funnelProtocol) then was + [AddTried(key)] else was
    ensures Logged(index, current, done + {key}, log, now)
  {
    hide ListedAs, AddedAfter, OnlyAdds, SupportedProtocol, Tried;
    TriedOneMore(index, current, done, key);
    if SupportedProtocol(index[key].funnelProtocol) {
      AddLogged(key, was, now, |log|, Tried(index, current, done));
    }
  }

  lemma AddLogged(key: string, log: seq<FunnelEvent>, now: seq<FunnelEvent>, base: nat, tried: set<string>)
    requires OnlyAdds(log, base) && AddedAfter(log, base, tried) && now == log + [AddTried(key)]
    ensures OnlyAdds(now, base) && AddedAfter(now, base, tried + {key})
  {
    assert now[|log|] == AddTried(key) && forall j | 0 <= j < |log| :: now[j] == log[j];
  }

  lemma NothingTallied(index: Desired, current: Funnels, before: Standing, exact: bool)
    requires exact ==> OnTrack(index, current, {}, Listed(before.ports), before.ports)
    ensures Course(index, current, {}, before, before, {}, {}, 0, exact)
  {
    hide Listed, OnTrack, Untouched;
    NothingGrew(before.ports, index.Keys);
  }

  /** Where the loop is that applies the index; `exact` if nothing can fail. */
  ghost predicate Course(
    index: Desired, current: Funnels, done: set<string>, before: Standing, after: Standing, successful: set<string>,
    added: set<string>, failed: nat, exact: bool)
  {
    && Logged(index, current, done, before.log, after.log)
    && Tally(index, current, done, successful, added, failed)
    && OnlyGrew(before.ports, after.ports, index.Keys) && added <= Listed(after.ports).Keys
    && (exact ==> failed == 0 && OnTrack(index, current, done, Listed(before.ports), after.ports))
    && (InPlace(index, current) ==> after.log == before.log && after.ports == before.ports)
  }

  lemma CourseIsLogged(
    index: Desired, current: Funnels, done: set<string>, before: Standing, after: Standing, successful: set<string>,
    added: set<string>, failed: nat, exact: bool)
    requires Course(index, current, done, before, after, successful, added, failed, exact)
    ensures Logged(index, current, done, before.log, after.log)
    ensures exact ==> Fitting(index, after.ports) && Applied(index, done, Listed(before.ports), Listed(after.ports))
  {
  }

  lemma CourseInPlace(
    index: Desired, current: Funnels, done: set<string>, before: Standing, now: Standing, successful: set<string>,
    added: set<string>, failed: nat, exact: bool, key: string)
    requires Course(index, current, done, before, now, successful, added, failed, exact)
    requires key in index && key !in done && ListedAs(index, current, key)
    ensures Course(index, current, done + {key}, before, now, successful + {key},
                   AlsoAdded(index, current, added, key, true), failed, exact)
  {
    hide Logged, Applied, CurrentFunnelMatchesDesired, Listed, Fitting, OnlyGrew, Tally, InPlace;
    LoggedInPlace(index, current, done, before.log, now.log, key);
    AlreadyApplied(index, done, Listed(before.ports), Listed(now.ports), key);
    TallyStep(index, current, done, successful, added, failed, key, true);
  }

  lemma CourseAdded(
    index: Desired, current: Funnels, done: set<string>, before: Standing, was: Standing, now: Standing,
    successful: set<string>, added: set<string>, failed: nat, exact: bool, key: string, ok: bool)
    requires Course(index, current, done, before, was, successful, added, failed, exact)
    requires key in index && key !in done && !ListedAs(index, current, key)
    requires Logged(index, current, done + {key}, before.log, now.log) && OnlyGrew(was.ports, now.ports, {key})
    requires ok ==> key in Listed(now.ports) && SupportedProtocol(index[key].funnelProtocol)
    requires exact ==> ok && Fitting(index, now.ports)
                       && Applied(index, done + {key}, Listed(before.ports), Listed(now.ports))
    ensures Course(index, current, done + {key}, before, now, if ok then successful + {key} else successful,
                   AlsoAdded(index, current, added, key, ok), if ok then failed else failed + 1, exact)
  {
    InPlaceAt(index, current, key);
    hide Logged, Applied, ListedAs, Listed, Fitting, OnlyGrew, Tally, InPlace, SupportedProtocol;
    GrewOneMore(before.ports, was.ports, now.ports, index.Keys, key);
    TallyStep(index, current, done, successful, added, failed, key, ok);
  }

  lemma CourseEnds(
    index: Desired, current: Funnels, before: Standing, after: Standing, successful: set<string>, added: set<string>,
    failed: nat, exact: bool)
    requires Course(index, current, index.Keys, before, after, successful, added, failed, exact)
    ensures Logged(index, current, index.Keys, before.log, after.log)
    ensures Tally(index, current, index.Keys, successful, added, failed)
    ensures OnlyGrew(before.ports, after.ports, index.Keys) && added <= Listed(after.ports).Keys
    ensures exact ==>
              failed == 0 && successful == index.Keys
              && Applied(index, index.Keys, Listed(before.ports), Listed(after.ports))
    ensures InPlace(index, current) ==> after.log == before.log && after.ports == before.ports
  {
    hide Listed, Logged, OnlyGrew, Fitting, Applied, InPlace;
  }

  lemma TallyStep(
    index: Desired, current: Funnels, done: set<string>, successful: set<string>, added: set<string>, failed: nat,
    key: string, ok: bool)
    requires Tally(index, current, done, successful, added, failed) && key in index && key !in done
    requires ListedAs(index, current, key) ==> ok
    requires ok && !ListedAs(index, current, key) ==> SupportedProtocol(index[key].funnelProtocol)
    ensures Tally(index, current, done + {key}, if ok then successful + {key} else successful,
                  AlsoAdded(index, current, added, key, ok), if ok then failed else failed + 1)
  {
    hide ListedAs, SupportedProtocol;
    assert successful <= done;
    if ok {
      assert successful + {key} == done + {key} <==> successful == done;
    } else {
      assert key !in successful && successful != done + {key};
    }
  }

  /** What applying the index over `listed` did, whatever failed. */
  ghost predicate AppliedOver(
    index: Desired, listed: Funnels, kept: set<string>, before: Standing, after: Standing, ok: bool, added: set<string>)
  {
    && before.log <= after.log && OnlyAdds(after.log, |before.log|)
    && Untouched(before.ports, after.ports, index.Keys)
    && after.managed == InPlaceIn(index, listed) + added + kept && added <= index.Keys
    && after.managed <= Listed(after.ports).Keys && (ok <==> index.Keys <= after.managed)
    && AddedAfter(after.log, |before.log|, added)
    && (listed == map[] && AllSupported(index) ==> AddedAfter(after.log, |before.log|, index.Keys))
  }

  lemma Tallied(
    index: Desired, listed: Funnels, kept: set<string>, before: Standing, after: Standing, successful: set<string>,
    added: set<string>, failed: nat)
    requires listed == Listed(before.ports) || listed == map[]
    requires kept <= Listed(before.ports).Keys && kept !! index.Keys
    requires Tally(index, listed, index.Keys, successful, added, failed)
    requires Logged(index, listed, index.Keys, before.log, after.log)
    requires OnlyGrew(before.ports, after.ports, index.Keys) && added <= Listed(after.ports).Keys
    requires after.managed == successful + kept
    ensures AppliedOver(index, listed, kept, before, after, failed == 0, added)
    ensures successful <= index.Keys
  {
    hide CurrentFunnelMatchesDesired, SupportedProtocol, Listed, Untouched, OnlyAdds, AddedAfter;
    assert successful == InPlaceIn(index, listed) + added;
    AddedAmong(after.log, |before.log|, Tried(index, listed, index.Keys), added);
    if listed == map[] && AllSupported(index) {
      assert Tried(index, listed, index.Keys) == index.Keys;
    }
  }

  lemma AddedAmong(log: seq<FunnelEvent>, from: nat, keys: set<string>, some: set<string>)
    requires AddedAfter(log, from, keys) && some <= keys
    ensures AddedAfter(log, from, some)
  {
  }

  lemma TriedOneMore(index: Desired, current: Funnels, done: set<string>, key: string)
    requires key in index
    ensures var tried := Tried(index, current, done);
            Tried(index, current, done + {key}) ==
            if !ListedAs(index, current, key) && SupportedProtocol(index[key].funnelProtocol) then tried + {key}
            else tried
  {
    hide ListedAs, SupportedProtocol;
  }

  /** Nothing but what has one of these keys changed, and nothing left the list. */
  ghost predicate OnlyGrew(before: Ports, after: Ports, keys: set<string>) {
    Untouched(before, after, keys) && Listed(before).Keys <= Listed(after).Keys
  }

  lemma NothingGrew(ports: Ports, keys: set<string>)
    ensures OnlyGrew(ports, ports, keys)
  {
    hide Listed, Behind;
  }

  lemma GrewOneMore(start: Ports, before: Ports, after: Ports, keys: set<string>, key: string)
    requires OnlyGrew(start, before, keys) && OnlyGrew(before, after, {key}) && key in keys
    ensures OnlyGrew(start, after, keys) && Listed(before).Keys <= Listed(after).Keys
  {
    hide Listed, Behind, IdKey;
  }

  lemma AddGrew(before: Ports, svc: ContainerService, after: Ports)
    requires WellFormed(before) && (after == before || (Accepts(before, svc) && after == AfterAdd(before, svc)))
    ensures OnlyGrew(before, after, {DesiredFunnelKey(svc)})
  {
    hide Listed, AfterAdd, WellFormed, Accepts, DesiredFunnelKey, Untouched;
    if after == before {
      NothingGrew(before, {DesiredFunnelKey(svc)});
    } else {
      AddTouches(before, svc);
      AddIsListed(before, svc);
    }
  }

  ghost predicate AllSupported(index: Desired) {
    forall key | key in index :: SupportedProtocol(index[key].funnelProtocol)
  }

  /**
   * Every funnel can be asked for: no two of them, and none of them and what is there, make different uses of a port.
   */
  ghost predicate Fitting(index: Desired, ports: Ports) {
    && (forall key | key in index :: Accepts(ports, index[key]))
    && (forall a, b | a in index && b in index && index[a].funnelFunnelPort == index[b].funnelFunnelPort ::
          IsHttpFunnelProtocol(index[a].funnelProtocol) == IsHttpFunnelProtocol(index[b].funnelProtocol))
  }

  ghost predicate InPlace(index: Desired, funnels: Funnels) {
    forall key | key in index :: key in funnels && CurrentFunnelMatchesDesired(funnels[key], index[key])
  }

  /** The keys in `done` are listed as declared, and nothing else was touched. */
  ghost predicate Applied(index: Desired, done: set<string>, start: Funnels, now: Funnels) {
    && now.Keys == start.Keys + done
    && (forall key | key in done && key in index :: key in now && CurrentFunnelMatchesDesired(now[key], index[key]))
    && (forall key | key in start && key !in done :: now[key] == start[key])
  }

  /** What was read is what there was or nothing; what is still to be added fits, and what is done is applied. */
  ghost predicate OnTrack(index: Desired, read: Funnels, done: set<string>, start: Funnels, ports: Ports) {
    (read == start || read == map[]) && Fitting(index, ports) && Applied(index, done, start, Listed(ports))
  }

  predicate ListedAs(index: Desired, funnels: Funnels, key: string)
    requires key in index
  {
    key in funnels && CurrentFunnelMatchesDesired(funnels[key], index[key])
  }

  lemma InPlaceAt(index: Desired, funnels: Funnels, key: string)
    requires key in index
    ensures InPlace(index, funnels) ==> ListedAs(index, funnels, key)
  {
    hide CurrentFunnelMatchesDesired;
  }

  lemma NothingDone(index: Desired, start: Funnels, log: seq<FunnelEvent>)
    ensures Applied(index, {}, start, start) && OnlyAdds(log, |log|) && AddedAfter(log, |log|, {})
  {
    hide CurrentFunnelMatchesDesired;
  }

  lemma AlreadyApplied(index: Desired, done: set<string>, start: Funnels, now: Funnels, key: string)
    requires key in index && key !in done
    ensures Applied(index, done, start, now) && key in start && CurrentFunnelMatchesDesired(start[key], index[key]) ==>
              Applied(index, done + {key}, start, now)
  {
    hide CurrentFunnelMatchesDesired;
  }

  lemma FittingAccepts(index: Desired, ports: Ports, key: string)
    requires Fitting(index, ports) && key in index
    ensures Accepts(ports, index[key]) && Fitting(index, AfterAdd(ports, index[key]))
  {
    hide Numeric, DesiredFunnelDestination;
  }

  lemma AppliedOneMore(index: Desired, done: set<string>, start: Funnels, ports: Ports, key: string)
    requires WellFormed(ports) && key in index && Accepts(ports, index[key]) && DesiredFunnelKey(index[key]) == key
    requires Applied(index, done, start, Listed(ports)) && key !in done
    ensures Applied(index, done + {key}, start, Listed(AfterAdd(ports, index[key])))
  {
    hide CurrentFunnelMatchesDesired, Listed, AfterAdd, DesiredFunnelKey, EntryOf, WellFormed, Numeric;
    AddIsListed(ports, index[key]);
    EntryMatches(index[key]);
    hide Accepts;
  }

  ghost predicate DesiredSupported(desired: seq<ContainerService>) {
    forall svc | svc in desired && svc.funnelEnabled :: SupportedProtocol(svc.funnelProtocol)
  }

  /** Some funnel listed is not wanted any more, and all listed ones are managed. */
  ghost predicate NeedsReset(wanted: set<string>, current: Funnels, managed: set<string>) {
    current.Keys <= managed && !(current.Keys <= wanted)
  }

  /** What is left on the node when the desired funnels are applied. */
  ghost function AfterReset(wanted: set<string>, ports: Ports, managed: set<string>): Ports {
    if NeedsReset(wanted, Listed(ports), managed) then map[] else ports
  }

  /** The desired funnels can be asked for, next to each other and to what is then on the node. */
  ghost predicate DesiredFits(desired: seq<ContainerService>, ports: Ports, managed: set<string>) {
    && (forall svc | svc in desired && svc.funnelEnabled ::
        Accepts(AfterReset(DesiredKeys(desired), ports, managed), svc))
    && (forall a, b | a in desired && b in desired && a.funnelEnabled && b.funnelEnabled
                      && a.funnelFunnelPort == b.funnelFunnelPort ::
          IsHttpFunnelProtocol(a.funnelProtocol) == IsHttpFunnelProtocol(b.funnelProtocol))
  }

  lemma FitsIndex(desired: seq<ContainerService>, index: Desired, ports: Ports, managed: set<string>)
    requires Indexes(desired, index) && DesiredFits(desired, ports, managed)
    ensures Fitting(index, AfterReset(index.Keys, ports, managed))
  {
    hide DesiredFunnelKey, Accepts, Listed;
  }

  ghost predicate ListedAsDesired(desired: seq<ContainerService>, funnels: Funnels) {
    forall svc | svc in desired && svc.funnelEnabled ::
      DesiredFunnelKey(svc) in funnels && CurrentFunnelMatchesDesired(funnels[DesiredFunnelKey(svc)], svc)
  }

  /** Every desired HTTP funnel is listed with the declared address and the port its container port is reached at. */
  ghost predicate HttpGoWhereDeclared(desired: seq<ContainerService>, funnels: Funnels) {
    forall svc | svc in desired && svc.funnelEnabled && svc.funnelProtocol in {"http", "https"} ::
      var key := svc.funnelFunnelPort + "|" + if svc.funnelPath == "" then "/" else svc.funnelPath;
      && key in funnels && funnels[key].protocol == "https"
      && funnels[key].destination == "http://" + svc.ipAddress + ":" + svc.funnelTargetPort
  }

  lemma DesiredGoWhereDeclared(desired: seq<ContainerService>, ports: Ports)
    requires WellFormed(ports) && ListedAsDesired(desired, Listed(ports))
    ensures HttpGoWhereDeclared(desired, Listed(ports))
  {
    IdsListed(ports);
    hide Listed, WellFormed, IdKey;
    forall svc | svc in desired && svc.funnelEnabled && svc.funnelProtocol in {"http", "https"}
      ensures var key := svc.funnelFunnelPort + "|" + if svc.funnelPath == "" then "/" else svc.funnelPath;
              && key in Listed(ports) && Listed(ports)[key].protocol == "https"
              && Listed(ports)[key].destination == "http://" + svc.ipAddress + ":" + svc.funnelTargetPort
    {
      var key := DesiredFunnelKey(svc);
      var id :| id in Ids(ports) && IdKey(id) == key;
      ListedGoesWhereDeclared(ports, id, svc);
      hide CurrentFunnelMatchesDesired, Listing, Ids, DesiredFunnelDestination;
    }
  }

  lemma ListedGoesWhereDeclared(ports: Ports, id: FunnelId, svc: ContainerService)
    requires id in Ids(ports) && svc.funnelProtocol in {"http", "https"}
    requires CurrentFunnelMatchesDesired(Listing(ports, id), svc)
    ensures Listing(ports, id).protocol == "https"
    ensures Listing(ports, id).destination == "http://" + svc.ipAddress + ":" + svc.funnelTargetPort
  {
    MatchesIff(Listing(ports, id), svc);
    hide CurrentFunnelMatchesDesired;
  }

  /**
   * What a cycle without faults leaves: everything desired in place; if foreign funnels are listed, all are untouched.
   */
  ghost predicate Reconciled(
    desired: seq<ContainerService>, start: Funnels, managed: set<string>, now: Funnels, managedNow: set<string>)
  {
    && ListedAsDesired(desired, now)
    && if start.Keys <= managed then now.Keys == managedNow == DesiredKeys(desired)
       else && now.Keys == start.Keys + DesiredKeys(desired)
            && managedNow == (managed * start.Keys) + DesiredKeys(desired)
            && forall key | key in start && key !in DesiredKeys(desired) :: now[key] == start[key]
  }

  lemma StaleWithoutForeign(wanted: set<string>, current: Funnels, managed: set<string>)
    ensures var stale := set key | key in current && key in managed && key !in wanted;
            var unmanaged := set key | key in current && key !in managed;
            stale != {} && unmanaged == {} <==> NeedsReset(wanted, current, managed)
  {
    var stale := set key | key in current && key in managed && key !in wanted;
    var unmanaged := set key | key in current && key !in managed;
    assert forall key | key in current && key !in managed :: key in unmanaged;
    assert forall key | key in current && key in managed && key !in wanted :: key in stale;
  }

  lemma StaleIsListed(wanted: set<string>, current: Funnels, managed: set<string>)
    ensures var stale := set key | key in current && key in managed && key !in wanted;
            stale == StaleIn(wanted, current, managed) && stale <= current.Keys && stale !! wanted
  {
  }

  /** All a cycle does about the index, given what it read. */
  ghost predicate SettledBy(
    index: Desired, current: Funnels, before: Standing, after: Standing, ok: bool, added: set<string>, wiped: bool,
    faulty: bool)
  {
    && before.log <= after.log && after.managed <= before.managed + index.Keys
    && CycleOf(index.Keys, InPlaceIn(index, current), current, before, after, ok, added, wiped)
    && (AllSupported(index) ==> ResetsJustified(after.log, |before.log|, before.managed, index.Keys))
    && (!faulty && Fitting(index, AfterReset(index.Keys, before.ports, before.managed)) ==>
          ok && SettledFrom(index, Listed(before.ports), before.managed, Listed(after.ports), after.managed))
    && (!faulty && InPlace(index, current) && !NeedsReset(index.Keys, current, before.managed) ==>
          after.log == before.log && after.ports == before.ports)
  }

  lemma ResetAlone(
    index: Desired, current: Funnels, before: Standing, after: Standing, ever: set<string>, done: bool, faulty: bool)
    requires after.log == before.log + [ResetTried(current.Keys, before.ports, done)] && after.managed == before.managed
    requires NeedsReset(index.Keys, current, before.managed) && before.managed <= ever
    requires WellFormed(before.ports) && (current == Listed(before.ports) || current == map[])
    requires ResetsOwned(before.log, ever) && (!faulty ==> done)
    ensures !done ==> SettledBy(index, current, before, after, false, {}, false, faulty)
    ensures current == Listed(before.ports) && ResetsOwned(after.log, ever)
  {
    hide Listed, WellFormed, InPlaceIn, Untouched, Fitting, SettledFrom, AfterReset, InPlace;
  }

  lemma NothingReset(log: seq<FunnelEvent>, managed: set<string>, desired: set<string>)
    ensures ResetsJustified(log, |log|, managed, desired) && OnlyAdds(log, |log|)
  {
  }

  lemma AddsAlone(
    index: Desired, current: Funnels, before: Standing, after: Standing, ok: bool, added: set<string>,
    ever: set<string>, faulty: bool)
    requires AppliedOver(index, current, StaleIn(index.Keys, current, before.managed), before, after, ok, added)
    requires !NeedsReset(index.Keys, current, before.managed) && ResetsOwned(before.log, ever)
    requires before.managed <= ever && index.Keys <= ever && (faulty || current == Listed(before.ports))
    requires after.managed <= index.Keys + StaleIn(index.Keys, current, before.managed)
    requires !faulty && Fitting(index, before.ports) ==>
               && ok && after.managed == index.Keys + StaleIn(index.Keys, current, before.managed)
               && Applied(index, index.Keys, Listed(before.ports), Listed(after.ports))
    requires InPlace(index, current) ==> after.log == before.log && after.ports == before.ports
    ensures SettledBy(index, current, before, after, ok, added, false, faulty)
    ensures ResetsOwned(after.log, ever) && after.managed <= ever
  {
    AddsLogged(index, current, before, after, ok, added, ever);
    StaleIsListed(index.Keys, current, before.managed);
    AfterResetIs(index.Keys, before.ports, before.managed);
    hide AfterReset, Listed, InPlaceIn, NeedsReset, Fitting, Applied, SettledFrom, InPlace, CycleOf, ResetsJustified,
         ResetsOwned, AppliedOver, AllSupported;
    if !faulty && Fitting(index, before.ports) {
      AppliedSettles(index, before.ports, before.managed, Listed(after.ports));
    }
  }

  lemma AddsLogged(
    index: Desired, current: Funnels, before: Standing, after: Standing, ok: bool, added: set<string>,
    ever: set<string>)
    requires AppliedOver(index, current, StaleIn(index.Keys, current, before.managed), before, after, ok, added)
    requires !NeedsReset(index.Keys, current, before.managed) && ResetsOwned(before.log, ever)
    ensures ResetsJustified(after.log, |before.log|, before.managed, index.Keys) && ResetsOwned(after.log, ever)
    ensures CycleOf(index.Keys, InPlaceIn(index, current), current, before, after, ok, added, false)
    ensures before.log <= after.log
  {
    hide Listed, WellFormed, InPlaceIn, StaleIn, NeedsReset, Untouched, AllSupported;
    assert forall i | 0 <= i < |before.log| :: after.log[i] == before.log[i];
  }

  lemma AddsAfterReset(
    index: Desired, current: Funnels, before: Standing, reset: Standing, after: Standing, ok: bool, added: set<string>,
    ever: set<string>, faulty: bool)
    requires reset.log == before.log + [ResetTried(current.Keys, before.ports, true)] && ResetsOwned(reset.log, ever)
    requires NeedsReset(index.Keys, current, before.managed) && current == Listed(before.ports)
    requires AppliedOver(index, map[], {}, reset, after, ok, added) && (!faulty ==> reset.ports == map[])
    requires after.managed <= index.Keys <= ever
    requires !faulty && Fitting(index, reset.ports) ==>
               && ok && after.managed == index.Keys
               && Applied(index, index.Keys, Listed(reset.ports), Listed(after.ports))
    ensures SettledBy(index, current, before, after, ok, added, true, faulty)
    ensures ResetsOwned(after.log, ever) && after.managed <= ever
  {
    ResetThenAdds(index, current, before, reset, after, ok, added, ever);
    AfterResetIs(index.Keys, before.ports, before.managed);
    hide AfterReset, Listed, InPlaceIn, NeedsReset, Fitting, Applied, SettledFrom, InPlace, CycleOf, ResetsJustified,
         ResetsOwned, AppliedOver, AllSupported, StaleIn;
    if !faulty && Fitting(index, reset.ports) {
      AppliedSettles(index, before.ports, before.managed, Listed(after.ports));
      assert index.Keys + {} == index.Keys;
    }
  }

  lemma ResetThenAdds(
    index: Desired, current: Funnels, before: Standing, reset: Standing, after: Standing, ok: bool, added: set<string>,
    ever: set<string>)
    requires reset.log == before.log + [ResetTried(current.Keys, before.ports, true)] && ResetsOwned(reset.log, ever)
    requires NeedsReset(index.Keys, current, before.managed)
    requires AppliedOver(index, map[], {}, reset, after, ok, added)
    ensures AllSupported(index) ==> ResetsJustified(after.log, |before.log|, before.managed, index.Keys)
    ensures ResetsOwned(after.log, ever) && before.log <= after.log
    ensures CycleOf(index.Keys, InPlaceIn(index, current), current, before, after, ok, added, true)
  {
    hide Listed, WellFormed, Untouched, AllSupported, ListedAs, InPlaceIn;
    assert forall i | 0 <= i < |reset.log| :: after.log[i] == reset.log[i];
    assert after.log[|before.log|] == ResetTried(current.Keys, before.ports, true);
    NothingInPlace(index);
  }

  lemma NothingInPlace(index: Desired)
    ensures InPlaceIn(index, map[]) == {}
  {
  }

  lemma AfterResetIs(wanted: set<string>, ports: Ports, managed: set<string>)
    ensures if NeedsReset(wanted, Listed(ports), managed)
            then AfterReset(wanted, ports, managed) == map[] && Listed(map[]) == map[]
            else AfterReset(wanted, ports, managed) == ports
  {
    NothingListed();
    hide Listed;
  }

  lemma AppliedSettles(index: Desired, ports: Ports, managed: set<string>, now: Funnels)
    requires Applied(index, index.Keys, Listed(AfterReset(index.Keys, ports, managed)), now)
    ensures var kept := if NeedsReset(index.Keys, Listed(ports), managed) then {}
                        else StaleIn(index.Keys, Listed(ports), managed);
            SettledFrom(index, Listed(ports), managed, now, index.Keys + kept)
  {
    AfterResetIs(index.Keys, ports, managed);
    hide CurrentFunnelMatchesDesired, Listed;
  }

  ghost predicate SettledFrom(
    index: Desired, start: Funnels, managed: set<string>, now: Funnels, managedNow: set<string>) {
    && InPlace(index, now)
    && if NeedsReset(index.Keys, start, managed) then now.Keys == managedNow == index.Keys
       else && now.Keys == start.Keys + index.Keys
            && managedNow == index.Keys + (managed * start.Keys)
            && forall key | key in start && key !in index.Keys :: now[key] == start[key]
  }

  lemma SupportedIndex(desired: seq<ContainerService>, index: Desired)
    requires DesiredSupported(desired) && Indexes(desired, index)
    ensures AllSupported(index)
  {
  }

  /** Without duplicates the index holds every enabled declaration. */
  lemma IndexHoldsAll(desired: seq<ContainerService>, index: Desired, svc: ContainerService)
    requires Indexes(desired, index) && !HasDuplicates(desired) && svc in desired && svc.funnelEnabled
    ensures DesiredFunnelKey(svc) in index && index[DesiredFunnelKey(svc)] == svc
  {
    hide DesiredFunnelKey;
    var key := DesiredFunnelKey(svc);
    assert key in DesiredKeys(desired);
    var i :| 0 <= i < |desired| && desired[i] == svc;
    var j :| 0 <= j < |desired| && desired[j] == index[key];
    if i < j {
      assert desired[i].funnelEnabled;
    } else if j < i {
      assert desired[j].funnelEnabled;
    }
  }

  lemma SettledIsReconciled(
    desired: seq<ContainerService>, index: Desired, start: Funnels, managed: set<string>, now: Funnels,
    managedNow: set<string>)
    requires Indexes(desired, index) && !HasDuplicates(desired) && SettledFrom(index, start, managed, now, managedNow)
    ensures Reconciled(desired, start, managed, now, managedNow)
  {
    hide DesiredFunnelKey, CurrentFunnelMatchesDesired;
    forall svc | svc in desired && svc.funnelEnabled
      ensures DesiredFunnelKey(svc) in now && CurrentFunnelMatchesDesired(now[DesiredFunnelKey(svc)], svc)
    {
      IndexHoldsAll(desired, index, svc);
    }
    assert index.Keys == DesiredKeys(desired);
  }

  lemma InPlaceMeansListed(desired: seq<ContainerService>, index: Desired, funnels: Funnels)
    requires Indexes(desired, index)
    ensures ListedAsDesired(desired, funnels) ==> InPlace(index, funnels)
  {
  }

  // ---- whole runs ----

  /** What can happen to a node: a reconcile cycle, a cleanup, or somebody else's change to its funnels. */
  datatype Step = Cycle(desired: seq<ContainerService>) | Cleanup | Foreign(ports: Ports)

  function Wanted(steps: seq<Step>): set<string> {
    set step, svc | step in steps && step.Cycle? && svc in step.desired && svc.funnelEnabled :: DesiredFunnelKey(svc)
  }

  lemma WantedStep(steps: seq<Step>, i: nat)
    requires i < |steps|
    ensures Wanted(steps[..i + 1]) == Wanted(steps[..i]) + if steps[i].Cycle? then DesiredKeys(steps[i].desired) else {}
  {
    hide DesiredFunnelKey;
    assert forall step :: step in steps[..i + 1] <==> step in steps[..i] || step == steps[i];
  }

  /**
   * The log grew from marks[k] to marks[k + 1] in step k, and a reset in it saw only what had been wanted by then: all
   * it could wipe had been if and only if every mount that proxies nothing had been.
   */
  ghost predicate StepOwned(log: seq<FunnelEvent>, marks: seq<nat>, steps: seq<Step>, k: nat)
    requires k < |steps| < |marks|
  {
    && marks[k] <= marks[k + 1] <= |log|
    && forall i | marks[k] <= i < marks[k + 1] && log[i].ResetTried? :: SawOnly(log[i], Wanted(steps[..k + 1]))
  }

  ghost predicate ResetsOwnedSoFar(log: seq<FunnelEvent>, marks: seq<nat>, steps: seq<Step>) {
    && |marks| == |steps| + 1 && marks[0] == 0 && marks[|steps|] == |log|
    && forall k: nat | k < |steps| :: StepOwned(log, marks, steps, k)
  }

  lemma OneMoreStep(
    log: seq<FunnelEvent>, marks: seq<nat>, steps: seq<Step>, step: Step, now: seq<FunnelEvent>, wanted: set<string>)
    requires ResetsOwnedSoFar(log, marks, steps) && log <= now
    requires wanted == Wanted(steps + [step]) && ResetsOwned(now, wanted)
    ensures ResetsOwnedSoFar(now, marks + [|now|], steps + [step])
  {
    hide Wanted, Listed, WellFormed, SawOnly;
    var more, longer := steps + [step], marks + [|now|];
    forall k: nat | k < |more| ensures StepOwned(now, longer, more, k) {
      if k < |steps| {
        assert StepOwned(log, marks, steps, k) && more[..k + 1] == steps[..k + 1];
      } else {
        assert more[..k + 1] == more;
        forall i | marks[k] <= i < |now| && now[i].ResetTried? ensures SawOnly(now[i], wanted) {
          SeenIsSawOnly(now[i], wanted);
        }
      }
    }
  }

  /**
   * Over any run from a fresh start, with other parties changing funnels in between, every funnel listed when a reset
   * was decided had been wanted by DockTail in some cycle up to then, and so had every managed key. A reset wipes
   * what is not listed as well: a foreign mount that proxies nothing goes with it (see TextFunnelIsWiped).
   */
  method RunSteps(node: Node, steps: seq<Step>) returns (client: FunnelClient, ghost marks: seq<nat>)
    requires node.Valid() && node.log == []
    requires forall step | step in steps && step.Foreign? :: WellFormed(step.ports)
    modifies node
    ensures client.node == node && client.managedFunnels <= client.everDesired == Wanted(steps)
    ensures ResetsOwnedSoFar(node.log, marks, steps)
  {
    client := new FunnelClient(node);
    marks := [0];
    assert steps[..0] == [];
    hide WellFormed, ResetsOwned, ResetsOwnedSoFar, Wanted, ResetsJustified, Reconciled, DesiredFits, Listed,
         DesiredSupported, SawOnly, NeedsReset, CycleOf;
    NoStepYet();
    for i := 0 to |steps|
      invariant client.node == node && fresh(client)
      invariant client.Valid() && client.everDesired == Wanted(steps[..i])
      invariant ResetsOwnedSoFar(node.log, marks, steps[..i])
    {
      WantedStep(steps, i);
      assert steps[i] in steps && steps[..i + 1] == steps[..i] + [steps[i]];
      ghost var log := node.log;
      match steps[i] {
        case Cycle(desired) =>
          var _, _, _, _ := client.ReconcileFunnels(desired);
        case Cleanup =>
          var _ := client.CleanupFunnels();
        case Foreign(ports) =>
          node.Interfere(ports);
      }
      OneMoreStep(log, marks, steps[..i], steps[i], node.log, client.everDesired);
      marks := marks + [|node.log|];
    }
    assert steps[..|steps|] == steps;
  }

  lemma NoStepYet()
    ensures Wanted([]) == {} && ResetsOwnedSoFar([], [0], [])
  {
  }

  // ---- what is not listed is wiped as well ----

  /** A node with a text on one port and DockTail's last funnel on another: the text is not seen, and is reset too. */
  lemma TextFunnelIsNotSeen(p: string, q: string, backend: string)
    requires Numeric(p) && Numeric(q) && p != q && backend != ""
    ensures var ports := map[p := Web(map["/" := ""]), q := Web(map["/" := backend])];
            && WellFormed(ports) && MuteKeys(ports) == {p + "|/"} && Listed(ports).Keys == {q + "|/"}
            && NeedsReset({}, Listed(ports), {q + "|/"}) && AfterReset({}, ports, {q + "|/"}) == map[]
  {
    hide Numeric;
    var ports: Ports := map[p := Web(map["/" := ""]), q := Web(map["/" := backend])];
    assert MuteIds(ports) == {OnPath(p, "/")};
    assert Ids(ports) == {OnPath(q, "/")};
    IdKeyOfPath(p, "/");
    IdKeyOfPath(q, "/");
    assert p + "|" + "/" == p + "|/" && q + "|" + "/" == q + "|/";
    hide IdKey, Ids, MuteIds, Listing, WellFormed;
    assert MuteKeys(ports) == {p + "|/"};
    assert Listed(ports).Keys == IdKeys(ports) == {q + "|/"};
    assert q + "|/" in Listed(ports).Keys;
  }

  /**
   * The run that wipes what was never wanted: on a node where somebody funnels only what does not show, one cycle for
   * one funnel and a shutdown leave nothing, and the reset took the foreign mounts along.
   */
  method TextFunnelIsWiped(node: Node, svc: ContainerService) returns (client: FunnelClient)
    requires node.Valid() && !node.faulty && node.log == [] && node.Funnels() == map[]
    requires svc.funnelEnabled && Accepts(node.ports, svc)
    modifies node
    ensures client.Valid() && client.node == node && node.ports == map[]
    ensures exists log, was ::
              && node.log == log + [ResetTried({DesiredFunnelKey(svc)}, was, true)]
              && MuteKeys(old(node.ports)) - {DesiredFunnelKey(svc)} <= MuteKeys(was)
  {
    client := new FunnelClient(node);
    ghost var ports, key := node.ports, DesiredFunnelKey(svc);
    OneFits(ports, svc);
    hide WellFormed, ResetsOwned, Listed, DesiredFits, HasDuplicates, DesiredKeys, SawOnly, DesiredFunnelKey, Accepts,
         MuteKeys, InPlaceKeys, ResetsJustified, ListedAsDesired, DesiredSupported, CycleOf, Reconciled, NeedsReset;
    ghost var before := client.Now();
    var _, read, added, wiped := client.ReconcileFunnels([svc]);
    OnlyTouched(svc, before, client.Now(), true, added, wiped);
    AloneIsManaged(svc, client.Now());
    ghost var was, log, managed := node.ports, node.log, client.managedFunnels;
    var ok := client.CleanupFunnels();
    ResetOfAll(log, node.log, was, managed, key);
  }

  lemma AloneIsManaged(svc: ContainerService, now: Standing)
    requires DesiredKeys([svc]) == {DesiredFunnelKey(svc)}
    requires Reconciled([svc], map[], {}, Listed(now.ports), now.managed)
    ensures Listed(now.ports).Keys == now.managed == {DesiredFunnelKey(svc)} && Listed(now.ports) != map[]
  {
    hide Listed, DesiredFunnelKey, ListedAsDesired, DesiredKeys;
    assert DesiredFunnelKey(svc) in Listed(now.ports).Keys;
  }

  lemma ResetOfAll(log: seq<FunnelEvent>, now: seq<FunnelEvent>, was: Ports, managed: set<string>, key: string)
    requires Listed(was).Keys == {key}
    requires exists seen, done ::
               && now == log + [ResetTried(seen, was, done)]
               && seen != {} && SawOnly(ResetTried(seen, was, done), managed) && done
    ensures now == log + [ResetTried({key}, was, true)]
  {
    hide Listed, MuteKeys, FunneledKeys;
  }

  lemma OneFits(ports: Ports, svc: ContainerService)
    requires svc.funnelEnabled && Accepts(ports, svc) && Listed(ports) == map[]
    ensures DesiredFits([svc], ports, {}) && !HasDuplicates([svc]) && DesiredKeys([svc]) == {DesiredFunnelKey(svc)}
  {
    hide Accepts, DesiredFunnelKey, Listed;
  }

  lemma OnlyTouched(
    svc: ContainerService, before: Standing, after: Standing, ok: bool, added: set<string>, wiped: bool)
    requires DesiredKeys([svc]) == {DesiredFunnelKey(svc)}
    requires CycleOf(DesiredKeys([svc]), InPlaceKeys([svc], map[]), map[], before, after, ok, added, wiped)
    ensures MuteKeys(before.ports) - {DesiredFunnelKey(svc)} <= MuteKeys(after.ports)
  {
    hide Listed, MuteKeys, DesiredFunnelKey, InPlaceKeys, Untouched, AddedAfter;
    forall key | key in MuteKeys(before.ports) && key != DesiredFunnelKey(svc) ensures key in MuteKeys(after.ports) {
      UntouchedStays(before.ports, after.ports, DesiredKeys([svc]), key);
    }
  }

  // ---- a forgotten funnel ----

  lemma WantedInStep(steps: seq<Step>, i: nat)
    requires i < |steps| && steps[i].Cycle?
    ensures DesiredKeys(steps[i].desired) <= Wanted(steps)
  {
    hide DesiredFunnelKey;
    assert steps[i] in steps;
  }

  /** A listed funnel that is not managed keeps a cycle from resetting, and stays if it is not wanted. */
  lemma ForeignBlocksReset(
    wanted: set<string>, inPlace: set<string>, read: Funnels, before: Standing, after: Standing, ok: bool,
    added: set<string>, wiped: bool, key: string)
    requires CycleOf(wanted, inPlace, read, before, after, ok, added, wiped)
    requires read == Listed(before.ports) || read == map[]
    requires key in Listed(before.ports) && key !in before.managed && key !in wanted
    ensures before.log <= after.log && OnlyAdds(after.log, |before.log|) && key in Listed(after.ports)
  {
    hide Listed, OnlyAdds, AddedAfter, Untouched;
    UntouchedStays(before.ports, after.ports, wanted, key);
  }

  lemma AddsOnwards(a: seq<FunnelEvent>, b: seq<FunnelEvent>, c: seq<FunnelEvent>)
    requires a <= b <= c && OnlyAdds(b, |a|) && OnlyAdds(c, |b|)
    ensures OnlyAdds(c, |a|)
  {
    assert forall i | 0 <= i < |b| :: c[i] == b[i];
  }

  /**
   * As long as a listed funnel that is not managed stays unwanted and nobody takes it away, there is no reset at all,
   * neither by a cycle nor at shutdown. That holds for a foreign funnel, and for one of DockTail's own that it forgot:
   * it stays public for good.
   */
  method RunWithout(client: FunnelClient, key: string, steps: seq<Step>)
    requires client.Valid() && key in client.node.Funnels() && key !in client.managedFunnels && key !in Wanted(steps)
    requires forall step | step in steps && step.Foreign? :: WellFormed(step.ports) && key in Listed(step.ports)
    modifies client, client.node
    ensures client.Valid() && key in client.node.Funnels() && key !in client.managedFunnels
    ensures old(client.node.log) <= client.node.log && OnlyAdds(client.node.log, |old(client.node.log)|)
  {
    ghost var log := client.node.log;
    assert OnlyAdds(log, |log|);
    hide WellFormed, ResetsOwned, Listed, HasDuplicates, Wanted, ResetsJustified, Reconciled, DesiredFits, InPlaceKeys,
         DesiredSupported, SawOnly, OnlyAdds, CycleOf, DesiredKeys, ListedAsDesired, NeedsReset;
    for i := 0 to |steps|
      invariant client.Valid() && key in client.node.Funnels() && key !in client.managedFunnels
      invariant log <= client.node.log && OnlyAdds(client.node.log, |log|)
    {
      ghost var before := client.Now();
      assert steps[i] in steps;
      NothingReset(before.log, {}, {});
      match steps[i] {
        case Cycle(desired) =>
          WantedInStep(steps, i);
          var ok, read, added, wiped := client.ReconcileFunnels(desired);
          if !HasDuplicates(desired) {
            ForeignBlocksReset(DesiredKeys(desired), InPlaceKeys(desired, read), read, before, client.Now(), ok, added,
                               wiped, key);
          }
        case Cleanup =>
          var _ := client.CleanupFunnels();
          ForeignIsSeen(before, client.node.log, key);
        case Foreign(ports) =>
          client.node.Interfere(ports);
      }
      AddsOnwards(log, before.log, client.node.log);
    }
  }

  lemma ForeignIsSeen(before: Standing, now: seq<FunnelEvent>, key: string)
    requires key in Listed(before.ports) && key !in before.managed
    requires now == before.log ||
             exists seen, done ::
               && now == before.log + [ResetTried(seen, before.ports, done)]
               && seen != {} && SawOnly(ResetTried(seen, before.ports, done), before.managed)
    ensures now == before.log
  {
    hide Listed, MuteKeys, FunneledKeys;
  }
}
