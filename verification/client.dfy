/** DockTail's Tailscale client: the commands one reconcile cycle issues. */
module Client {
  import opened Types
  import opened Serve
  import opened ServeStatus
  import opened Desired
  import opened Daemon
  import opened AddPhase
  import opened Guard
  import opened Reconcile
  import opened Trace
  import opened Cycle
  import opened ControlPlane
  import opened FunnelOwnership

  class Client {
    const daemon: Tailscaled
    const api: Api
    const funnels: FunnelClient
    const ignoredServices: set<string>
    const apiSyncEnabled: bool
    const deleteUnusedServices: bool

    constructor (
      daemon: Tailscaled, api: Api, funnels: FunnelClient, ignore: seq<string>, apiSyncEnabled: bool,
      deleteUnusedServices: bool)
      ensures this.daemon == daemon && this.api == api && this.funnels == funnels
      ensures this.apiSyncEnabled == apiSyncEnabled && this.deleteUnusedServices == deleteUnusedServices
      ensures forall n :: n in ignoredServices <==> n != "" && exists s :: s in ignore && NormalizeServiceName(s) == n
    {
      this.daemon, this.api, this.funnels := daemon, api, funnels;
      this.ignoredServices := set s | s in ignore && NormalizeServiceName(s) != "" :: NormalizeServiceName(s);
      this.apiSyncEnabled, this.deleteUnusedServices := apiSyncEnabled, deleteUnusedServices;
    }

    ghost function Now(): Moment
      reads daemon
    {
      Moment(daemon.host, daemon.log)
    }

    /** Runs one command the watch permits. */
    method Issue(cmd: Command, ghost w: Watch) returns (r: Outcome)
      requires Guarded(w, daemon.log, daemon.host.serve) && Permitted(w, daemon.log, |daemon.log|, cmd)
      modifies daemon
      ensures Guarded(w, daemon.log, daemon.host.serve)
      ensures daemon.log == old(daemon.log) + [Event(cmd, r)]
      ensures !daemon.faulty ==> (daemon.host, r) == Execute(old(daemon.host), cmd)
      ensures daemon.host in {old(daemon.host), Execute(old(daemon.host), cmd).0}
    {
      r := daemon.Run(cmd);
      GuardStep(w, old(daemon.log), old(daemon.host), cmd, r, daemon.host);
    }

    /** Drain, then clear; a service that is not managed or is ignored is refused. */
    method RemoveService(name: string, ghost w: Watch) returns (ok: bool)
      requires Guarded(w, daemon.log, daemon.host.serve) && NormalizeServiceName(name) !in w.frozen
      modifies daemon
      ensures Guarded(w, daemon.log, daemon.host.serve)
      ensures !daemon.faulty && IsManaged(name) && !IsIgnored(ignoredServices, name) ==>
                ok && daemon.host == Removed(old(daemon.host), name) && |daemon.log| == |old(daemon.log)| + 2
      ensures !IsManaged(name) || IsIgnored(ignoredServices, name) ==>
                daemon.host == old(daemon.host) && daemon.log == old(daemon.log)
      ensures OthersKept(old(daemon.host), daemon.host, name)
      ensures if !IsManaged(name) then !ok
              else if IsIgnored(ignoredServices, name) then ok
              else RemoveTraced(old(daemon.log), daemon.log, name, ok)
    {
      hide Guarded, Execute, NormalizeServiceName, Removed, OthersKept;
      DrainThenClear(daemon.host, name);
      RemovalKeepsOthers(daemon.host, name);
      if !IsManaged(name) {
        return false;
      }
      if IsIgnored(ignoredServices, name) {
        return true;
      }
      var live := daemon.Live();
      if !live {
        return false;
      }
      var drained := Issue(Drain(name), w);
      live := daemon.Live();
      if !live {
        return false;
      }
      var cleared := Issue(Clear(name), w);
      ok := cleared == Done || cleared == NotFound;
    }

    /** Adds one service; a kind conflict clears the whole service and tries once more. */
    method AddService(svc: ContainerService, ghost w: Watch) returns (ok: bool)
      requires Guarded(w, daemon.log, daemon.host.serve) && DesiredServiceKey(svc) !in w.contested
      modifies daemon
      ensures Guarded(w, daemon.log, daemon.host.serve)
      ensures !daemon.faulty && ServeAddArgs(svc).Success? ==> daemon.host == Added(old(daemon.host), svc)
      ensures AddTraced(old(daemon.log), daemon.log, svc, ok)
    {
      var args := ServeAddArgs(svc);
      if args.Failure? {
        NothingTried(daemon.log, svc);
        return false;
      }
      KeyOfService(svc);
      hide AddTraced, Execute, Guarded;
      ghost var log := daemon.log;
      var added := Issue(ServeAdd(args.value), w);
      if added != Conflict {
        TriedOnce(log, daemon.log, svc, added);
        return added == Done;
      }
      ok := ClearAndRetry(svc, args.value, log, w);
    }

    /** After a kind conflict: the service is cleared, and if that works added once more. */
    method ClearAndRetry(
      svc: ContainerService, args: ServeArgs, ghost log: seq<Event>, ghost w: Watch)
      returns (ok: bool)
      requires ServeAddArgs(svc) == Success(args) && DesiredServiceKey(svc) !in w.contested
      requires daemon.log == log + [Event(ServeAdd(args), Conflict)]
      requires Guarded(w, daemon.log, daemon.host.serve) && |log| >= w.base
      modifies daemon
      ensures Guarded(w, daemon.log, daemon.host.serve)
      ensures !daemon.faulty ==>
                daemon.host == Execute(Execute(old(daemon.host), Clear("svc:" + svc.serviceName)).0, ServeAdd(args)).0
      ensures AddTraced(log, daemon.log, svc, ok)
    {
      ClearAnswers(daemon.host, "svc:" + svc.serviceName);
      KeyOfService(svc);
      hide AddTraced, Execute, Guarded;
      var cleared := Issue(Clear("svc:" + svc.serviceName), w);
      if cleared != Done && cleared != NotFound {
        ClearFailed(log, daemon.log, svc, cleared);
        return false;
      }
      var retried := Issue(ServeAdd(args), w);
      TriedAgain(log, daemon.log, svc, cleared, retried);
      ok := retried == Done;
    }

    lemma ClearAnswers(host: Host, name: string)
      ensures Gone(Execute(host, Clear(name)).1)
    {
    }

    method RemoveAll(toRemove: Current, ghost w: Watch)
      requires Guarded(w, daemon.log, daemon.host.serve)
      requires forall key | key in toRemove ::
                 && IsManaged(toRemove[key].serviceName) && !IsIgnored(ignoredServices, toRemove[key].serviceName)
                 && NormalizeServiceName(toRemove[key].serviceName) !in w.frozen
      modifies daemon
      ensures Guarded(w, daemon.log, daemon.host.serve)
      ensures !daemon.faulty ==> daemon.host == WithoutNames(old(daemon.host), RemoveNames(toRemove))
      ensures toRemove == map[] ==> daemon.log == old(daemon.log) && daemon.host == old(daemon.host)
      ensures old(daemon.log) <= daemon.log
    {
      hide Guarded, NormalizeServiceName, WithoutNames;
      NothingRemoved(daemon.host);
      var todo := toRemove.Keys;
      ghost var names: set<string> := {};
      while todo != {}
        invariant todo <= toRemove.Keys
        invariant Guarded(w, daemon.log, daemon.host.serve)
        invariant names == set key | key in toRemove && key !in todo :: toRemove[key].serviceName
        invariant !daemon.faulty ==> daemon.host == WithoutNames(old(daemon.host), names)
        invariant toRemove == map[] ==> daemon.log == old(daemon.log) && daemon.host == old(daemon.host)
        invariant old(daemon.log) <= daemon.log
      {
        var key :| key in todo;
        todo := todo - {key};
        RemovedOneMore(old(daemon.host), names, toRemove[key].serviceName);
        names := names + {toRemove[key].serviceName};
        var _ := RemoveService(toRemove[key].serviceName, w);
      }
      assert names == RemoveNames(toRemove);
    }

    /** One key of the add loop: a failed path removal skips the key. */
    method ProcessAdd(svc: ContainerService, oldPath: Option<ServiceEndpoint>, ghost w: Watch) returns (ok: bool)
      requires Guarded(w, daemon.log, daemon.host.serve) && DesiredServiceKey(svc) !in w.contested
      requires oldPath.Some? ==>
                 IsHttp(oldPath.value.protocol) &&
                 KeyOf(Endpoint(oldPath.value.serviceName, oldPath.value.port)) == DesiredServiceKey(svc)
      modifies daemon
      ensures Guarded(w, daemon.log, daemon.host.serve)
      ensures !daemon.faulty && ServeAddArgs(svc).Success? ==> daemon.host == Processed(old(daemon.host), svc, oldPath)
      ensures ProcessTraced(old(daemon.log), daemon.log, svc, oldPath, ok)
    {
      hide Guarded, Execute, ServeAddArgs, Added, TriedTwice;
      if oldPath.Some? {
        var removed := Issue(OffCommand(oldPath.value), w);
        if removed != Done {
          OffAllOrNothing(old(daemon.host), oldPath.value);
          return false;
        }
      }
      ok := AddService(svc, w);
    }

    method AddAll(toAdd: Adds, pathsToRemove: Paths, ghost w: Watch) returns (failed: nat)
      requires Guarded(w, daemon.log, daemon.host.serve)
      requires forall key | key in toAdd :: DesiredServiceKey(toAdd[key]) == key && key !in w.contested
      requires forall key | key in pathsToRemove ::
                 var view := pathsToRemove[key];
                 IsHttp(view.protocol) && KeyOf(Endpoint(view.serviceName, view.port)) == key
      modifies daemon
      ensures Guarded(w, daemon.log, daemon.host.serve)
      ensures !daemon.faulty && Fits(old(daemon.host.serve), toAdd, pathsToRemove) ==>
                && Progress(old(daemon.host.serve), toAdd, pathsToRemove, toAdd.Keys, daemon.host.serve)
                && AdvertisedOk(old(daemon.host.advertised), toAdd, toAdd.Keys, daemon.host)
      ensures toAdd == map[] ==> failed == 0 && daemon.log == old(daemon.log) && daemon.host == old(daemon.host)
      ensures old(daemon.log) <= daemon.log && AddsTallied(daemon.log, |old(daemon.log)|, toAdd, toAdd.Keys, failed)
    {
      ghost var start, log := daemon.host, daemon.log;
      ghost var fits := !daemon.faulty && Fits(start.serve, toAdd, pathsToRemove);
      NothingAdded(start, log, toAdd, pathsToRemove, fits);
      hide Guarded, KeyOf, DesiredServiceKey, PathAt, Adding, Progress, AdvertisedOk, Fits, AddsTallied;
      failed := 0;
      var todo := toAdd.Keys;
      ghost var done: set<string> := {};
      while todo != {}
        invariant toAdd.Keys == done + todo && done !! todo
        invariant Guarded(w, daemon.log, daemon.host.serve)
        invariant Adding(start, log, toAdd, pathsToRemove, done, daemon.host, daemon.log, failed, fits)
      {
        var key :| key in todo;
        ghost var before, was := daemon.host, daemon.log;
        var ok := ProcessAdd(toAdd[key], PathAt(pathsToRemove, key), w);
        AddedOneMore(start, log, toAdd, pathsToRemove, done, before, was, daemon.host, daemon.log, failed, fits, key,
                     ok);
        failed := failed + if ok then 0 else 1;
        todo, done := todo - {key}, done + {key};
      }
      assert done == toAdd.Keys;
      AllAdded(start, log, toAdd, pathsToRemove, daemon.host, daemon.log, failed, fits);
    }

    /** Restores every name once; the commands run one after the other. */
    method AdvertiseAll(names: set<string>, ghost w: Watch) returns (failed: nat)
      requires Guarded(w, daemon.log, daemon.host.serve)
      requires forall n | n in names :: NormalizeServiceName(n) !in w.frozen
      modifies daemon
      ensures Guarded(w, daemon.log, daemon.host.serve)
      ensures !daemon.faulty ==>
                failed == 0 && Restored(old(daemon.host), old(daemon.log), daemon.host, daemon.log, names)
      ensures names == {} ==> daemon.log == old(daemon.log) && failed == 0 && daemon.host == old(daemon.host)
      ensures old(daemon.log) <= daemon.log
      ensures AdvertisesTallied(daemon.log, |old(daemon.log)|, names, {}, failed)
    {
      hide Guarded, NormalizeServiceName, Restored, Execute, AdvertisesTallied, Advertising;
      failed := 0;
      var todo := names;
      ghost var done: set<string>, host, log := {}, daemon.host, daemon.log;
      NoneRestored(host, log, names, !daemon.faulty);
      while todo != {}
        invariant names == done + todo && done !! todo
        invariant Guarded(w, daemon.log, daemon.host.serve)
        invariant Advertising(host, log, names, done, todo, daemon.host, daemon.log, failed, !daemon.faulty)
      {
        var name :| name in todo;
        var ok := AdvertiseService(name, done, host, log, names, todo, failed, w);
        todo, done := todo - {name}, done + {name};
        failed := failed + if ok then 0 else 1;
      }
      assert done == names;
      AllRestored(host, log, names, daemon.host, daemon.log, failed, !daemon.faulty);
    }

    method AdvertiseService(
      name: string, ghost done: set<string>, ghost host: Host, ghost log: seq<Event>, ghost names: set<string>,
      ghost todo: set<string>, ghost failed: nat, ghost w: Watch)
      returns (ok: bool)
      requires Guarded(w, daemon.log, daemon.host.serve) && NormalizeServiceName(name) !in w.frozen
      requires name !in done && name in todo && todo <= names
      requires Advertising(host, log, names, done, todo, daemon.host, daemon.log, failed, !daemon.faulty)
      modifies daemon
      ensures Guarded(w, daemon.log, daemon.host.serve)
      ensures AdvertiseTraced(old(daemon.log), daemon.log, name, ok)
      ensures Advertising(host, log, names, done + {name}, todo - {name}, daemon.host, daemon.log,
                          failed + if ok then 0 else 1, !daemon.faulty)
    {
      hide Guarded, Advertising, Execute;
      ghost var before, was := daemon.host, daemon.log;
      var live := daemon.Live();
      if !live {
        RestoredNext(host, log, names, done, todo, before, was, before, was, failed, !daemon.faulty, name, false);
        return false;
      }
      var outcome := Issue(Advertise(name), w);
      ok := outcome == Done;
      RestoredNext(host, log, names, done, todo, before, was, daemon.host, daemon.log, failed, !daemon.faulty, name,
                   ok);
    }

    /** The services whose definitions may be written: a contested name's definition is frozen too. */
    function Syncable(desired: seq<ContainerService>, frozen: set<string>): (r: seq<ContainerService>)
      ensures forall svc | svc in r :: svc in desired && NormalizeServiceName(svc.serviceName) !in frozen
    {
      if desired == [] then []
      else
        var rest := Syncable(desired[..|desired| - 1], frozen);
        var last := desired[|desired| - 1];
        if NormalizeServiceName(last.serviceName) in frozen then rest else rest + [last]
    }

    /** A PUT is for a service an enabled, uncontested container declares; a DELETE is for an unused one. */
    ghost predicate WritePermitted(desired: seq<ContainerService>, hosts: map<string, nat>, write: Write) {
      match write
      case Put(name, _) => PutPermitted(desired, name)
      case Delete(name) => Unused(name, desired, ignoredServices, hosts)
    }

    ghost predicate WritesPermitted(
      desired: seq<ContainerService>, hosts: map<string, nat>, writes: seq<Write>, base: nat) {
      base <= |writes| && forall i | base <= i < |writes| :: WritePermitted(desired, hosts, writes[i])
    }

    /** The control-plane half of freezing: no write of a cycle concerns the definition of a contested service. */
    lemma ContestedDefinitionStays(
      desired: seq<ContainerService>, hosts: map<string, nat>, writes: seq<Write>, base: nat, svc: ContainerService)
      requires WritesPermitted(desired, hosts, writes, base) && NamesNormalize(desired)
      requires svc in desired && svc.serviceEnabled && DesiredServiceKey(svc) in Conflicts(desired)
      ensures forall i | base <= i < |writes| :: writes[i].name != FullName(svc.serviceName)
    {
      hide Conflicts, PutPermitted, Unused, FullName, NamesNormalize;
      ContestedDefinitionIsFrozen(desired, ignoredServices, hosts, svc);
      forall i | base <= i < |writes| ensures writes[i].name != FullName(svc.serviceName) {
        assert WritePermitted(desired, hosts, writes[i]);
      }
    }

    method SyncDefinitions(desired: seq<ContainerService>, frozen: set<string>)
      requires frozen == ConflictedNames(desired)
      modifies api`definitions, api`writes
      ensures WritesPermitted(desired, api.hosts, api.writes, |old(api.writes)|)
      ensures NoDeletes(api.writes, |old(api.writes)|)
      ensures !api.faulty ==> DefinitionsSynced(desired, frozen, api.definitions, ignoredServices, api.hosts, false)
    {
      hide Compatible, AllInSync, KeepsPortsAndAddrs;
      var ok, unique := SyncServiceDefinitions(api, Syncable(desired, frozen));
      PutsArePermitted(desired, frozen, unique, api.writes, |old(api.writes)|);
      SyncableAggregated(desired, frozen, unique);
      hide Aggregated, AggregatedUnfrozen;
      if !api.faulty {
        SyncedIsInStep(desired, frozen, api.definitions, ignoredServices, api.hosts, unique);
      }
    }

    lemma PutsArePermitted(
      desired: seq<ContainerService>, frozen: set<string>, unique: map<string, ServiceDef>, writes: seq<Write>,
      base: nat)
      requires frozen == ConflictedNames(desired) && Aggregated(Syncable(desired, frozen), unique)
      requires OnlyPutsOf(writes, base, unique)
      ensures WritesPermitted(desired, api.hosts, writes, base) && NoDeletes(writes, base)
    {
      hide Aggregated, ConflictedNames, FullName, PutPermitted, Syncable;
      forall n | n in unique ensures PutPermitted(desired, FullName(n)) {
        AggregateIsPermitted(desired, frozen, unique, n);
      }
    }

    lemma AggregateIsPermitted(
      desired: seq<ContainerService>, frozen: set<string>, unique: map<string, ServiceDef>, name: string)
      requires frozen == ConflictedNames(desired) && Aggregated(Syncable(desired, frozen), unique) && name in unique
      ensures PutPermitted(desired, FullName(name))
    {
      hide Aggregates, ConflictedNames, NormalizeServiceName, FullName;
      assert AggregatedAt(Syncable(desired, frozen), unique, name);
      assert |Backing(Syncable(desired, frozen), name)| > 0;
      var svc :| svc in Syncable(desired, frozen) && BacksName(svc, name);
      assert svc in desired;
    }

    lemma {:induction false} SyncableBacking(desired: seq<ContainerService>, frozen: set<string>, name: string)
      ensures Backing(Syncable(desired, frozen), name) ==
              if NormalizeServiceName(name) in frozen then [] else Backing(desired, name)
    {
      hide NormalizeServiceName;
      if desired != [] {
        var rest, last := desired[..|desired| - 1], desired[|desired| - 1];
        SyncableBacking(rest, frozen, name);
        var init := Syncable(rest, frozen);
        assert (init + [last])[..|init|] == init;
      }
    }

    lemma SyncableAggregated(desired: seq<ContainerService>, frozen: set<string>, unique: map<string, ServiceDef>)
      requires Aggregated(Syncable(desired, frozen), unique)
      ensures AggregatedUnfrozen(desired, frozen, unique)
    {
      hide NormalizeServiceName, Aggregates;
      forall name
        ensures if |Backing(desired, name)| == 0 || NormalizeServiceName(name) in frozen then name !in unique
                else name in unique && Aggregates(Backing(desired, name), unique[name])
      {
        assert AggregatedAt(Syncable(desired, frozen), unique, name);
        SyncableBacking(desired, frozen, name);
      }
    }

    /** Reads the current state; a failed read counts as an empty one. */
    method ReadCurrent() returns (current: Current)
      ensures WellKeyed(current)
      ensures !daemon.faulty && ColonFree(daemon.host.serve) && PlainHost(daemon.webHost) ==>
                Readable(daemon.host.serve, current)
    {
      var read := ReadCurrentOrFail();
      current := if read.Success? then read.value else map[];
    }

    /** Prefs are read only when some service is enabled. */
    method ReadAdvertised(desired: seq<ContainerService>) returns (advertised: Option<set<string>>)
      ensures !daemon.faulty && DesiredMap(desired) != map[] ==> advertised == Some(daemon.host.advertised)
    {
      if exists svc :: svc in desired && svc.serviceEnabled {
        advertised := daemon.GetAdvertisedServices();
      } else {
        advertised := None;
        forall key ensures key !in DesiredMap(desired) {
        }
      }
    }

    /** The plan of this cycle, carried out: removals, definitions, additions, advertisement repairs. */
    method Apply(
      desired: seq<ContainerService>, desiredMap: Adds, current: Current, advertised: Option<set<string>>,
      frozen: set<string>, ghost w: Watch) returns (failed: nat)
      requires desiredMap == DesiredMap(desired) && frozen == ConflictedNames(desired)
      requires w == WatchOf(desired, w.base, w.start) && Guarded(w, daemon.log, daemon.host.serve)
      requires WellKeyed(current)
      modifies daemon, api`definitions, api`writes
      ensures Guarded(w, daemon.log, daemon.host.serve)
      ensures WritesPermitted(desired, api.hosts, api.writes, |old(api.writes)|)
      ensures !daemon.faulty && ReadFaithfully(desired, ignoredServices, old(daemon.host), current, advertised) ==>
                IsCycle(desired, ignoredServices, old(Now()), Now())
      ensures !apiSyncEnabled ==> api.writes == old(api.writes) && api.definitions == old(api.definitions)
      ensures NoDeletes(api.writes, |old(api.writes)|)
      ensures apiSyncEnabled && !api.faulty ==>
                DefinitionsSynced(desired, frozen, api.definitions, ignoredServices, api.hosts, false)
      ensures !daemon.faulty && ToAdd(current, desiredMap) == map[] ==> failed == 0
      ensures old(daemon.log) <= daemon.log
      ensures failed == 0 ==>
                CarriedOut(daemon.log, |old(daemon.log)|, ToAdd(current, desiredMap),
                           ToAdvertise(current, desiredMap, advertised, frozen, ignoredServices))
    {
      hide CarriedOut, AddsTallied, AdvertisesTallied, DefinitionsSynced, Guarded, ToAdd, PathsToRemove, ToRemove,
           NormalizeServiceName, IsCycle, ReadFaithfully, DesiredMap, Conflicts, ConflictedNames, Progress,
           AdvertisedOk, Fits, WithoutNames, Restored, MissingAdvertisements, WellKeyed, IsIgnored, DesiredServiceKey,
           KeyOf, AddNames, RemoveNames, WritePermitted;
      var toAdd, pathsToRemove, missing := PlanAdds(current, desiredMap, advertised, frozen, ignoredServices);
      var toRemove := PlanRemovals(current, desiredMap, frozen, ignoredServices);
      var toAdvertise := missing - AddNames(toAdd) - RemoveNames(toRemove);
      PlanPermitted(desired, current, advertised, ignoredServices);
      ghost var before := daemon.host;
      RemoveAll(toRemove, w);
      ghost var mid, logRemoved := daemon.host, daemon.log;
      if apiSyncEnabled {
        SyncDefinitions(desired, frozen);
      }
      var addFailed := AddAll(toAdd, pathsToRemove, w);
      ghost var added, logAdded := daemon.host, daemon.log;
      var advertiseFailed := AdvertiseAll(toAdvertise, w);
      failed := addFailed + advertiseFailed;
      if failed == 0 {
        NoFailureMeansCarriedOut(
          old(daemon.log), logRemoved, logAdded, daemon.log, toAdd, toAdvertise, addFailed, advertiseFailed);
      }
      if !daemon.faulty && ReadFaithfully(desired, ignoredServices, old(daemon.host), current, advertised) {
        PlanFitsRead(desired, ignoredServices, before, current, advertised);
        CycleComposed(
          desired, ignoredServices, current, advertised, before, old(daemon.log), added, logAdded, daemon.host,
          daemon.log);
      }
    }

    /** Everything up to the funnels; answers whether all of it went well. */
    method ReconcileServed(desired: seq<ContainerService>, desiredMap: Adds)
      returns (ok: bool, ghost current: Current, ghost advertised: Option<set<string>>)
      requires desiredMap == DesiredMap(desired)
      modifies daemon, api`definitions, api`writes
      ensures Guarded(WatchOf(desired, |old(daemon.log)|, old(daemon.host.serve)), daemon.log, daemon.host.serve)
      ensures WritesPermitted(desired, api.hosts, api.writes, |old(api.writes)|)
      ensures !daemon.faulty && PlainHost(daemon.webHost) && ValidDesired(desired) &&
              LegibleWhereKept(desired, ignoredServices, old(daemon.host.serve)) ==>
                IsCycle(desired, ignoredServices, old(Now()), Now())
      ensures !daemon.faulty && PlainHost(daemon.webHost) && ColonFree(old(daemon.host.serve)) &&
              NothingToAdd(desired, old(daemon.host.serve)) ==>
                ok
      ensures !apiSyncEnabled ==> api.writes == old(api.writes) && api.definitions == old(api.definitions)
      ensures NoDeletes(api.writes, |old(api.writes)|)
      ensures apiSyncEnabled && !api.faulty ==>
                DefinitionsSynced(desired, ConflictedNames(desired), api.definitions, ignoredServices, api.hosts, false)
      ensures WellKeyed(current)
      ensures !daemon.faulty && PlainHost(daemon.webHost) && ColonFree(old(daemon.host.serve)) ==>
                Readable(old(daemon.host.serve), current)
      ensures !daemon.faulty && DesiredMap(desired) != map[] ==> advertised == Some(old(daemon.host.advertised))
      ensures ok ==>
                CarriedOut(daemon.log, |old(daemon.log)|, ToAdd(current, DesiredMap(desired)),
                           ToAdvertise(current, DesiredMap(desired), advertised, ConflictedNames(desired),
                                       ignoredServices))
    {
      hide CarriedOut, WellKeyed, DefinitionsSynced, Guarded, IsCycle, ReadFaithfully, ValidDesired, LegibleWhereKept,
           DesiredMap, Conflicts, ConflictedNames, ColonFree, Readable;
      var frozen := ConflictedNames(desired);
      ghost var w := WatchOf(desired, |daemon.log|, daemon.host.serve);
      NothingIssued(w, daemon.log);
      var read := ReadCurrent();
      var prefs := ReadAdvertised(desired);
      current, advertised := read, prefs;
      if !daemon.faulty && PlainHost(daemon.webHost) {
        FaithfulRead(desired, ignoredServices, daemon.host, current, advertised);
      }
      var failed := Apply(desired, desiredMap, read, prefs, frozen, w);
      ok := failed == 0;
    }

    /**
     * One cycle. Whatever fails and whatever order the maps are walked in, contested endpoints and
     * their services stay within what Guarded allows and definitions within WritesPermitted, and funnels are only reset
     * if all that are listed are DockTail's; with no faults it is a Cycle.IsCycle step. A cycle with a contested
     * endpoint or a funnel declared twice never reports success, and one without faults and with nothing to add fails
     * for no other reason. `current` and `advertised` are what was read: whatever fails, success means that everything
     * these called for was accepted.
     */
    method ReconcileServices(desired: seq<ContainerService>)
      returns (ok: bool, ghost current: Current, ghost advertised: Option<set<string>>)
      requires funnels.Valid()
      modifies daemon, api`definitions, api`writes, funnels, funnels.node
      ensures Guarded(WatchOf(desired, |old(daemon.log)|, old(daemon.host.serve)), daemon.log, daemon.host.serve)
      ensures WritesPermitted(desired, api.hosts, api.writes, |old(api.writes)|)
      ensures !daemon.faulty && PlainHost(daemon.webHost) && ValidDesired(desired) &&
              LegibleWhereKept(desired, ignoredServices, old(daemon.host.serve)) ==>
                IsCycle(desired, ignoredServices, old(Now()), Now())
      ensures WellKeyed(current)
      ensures !daemon.faulty && PlainHost(daemon.webHost) && ColonFree(old(daemon.host.serve)) ==>
                Readable(old(daemon.host.serve), current)
      ensures !daemon.faulty && DesiredMap(desired) != map[] ==> advertised == Some(old(daemon.host.advertised))
      ensures ok ==>
                CarriedOut(daemon.log, |old(daemon.log)|, ToAdd(current, DesiredMap(desired)),
                           ToAdvertise(current, DesiredMap(desired), advertised, ConflictedNames(desired),
                                       ignoredServices))
      ensures !apiSyncEnabled ==> api.writes == old(api.writes) && api.definitions == old(api.definitions)
      ensures !apiSyncEnabled || !deleteUnusedServices ==> NoDeletes(api.writes, |old(api.writes)|)
      ensures apiSyncEnabled && !api.faulty ==>
                DefinitionsSynced(desired, ConflictedNames(desired), api.definitions, ignoredServices, api.hosts,
                                  deleteUnusedServices)
      ensures apiSyncEnabled && deleteUnusedServices && !api.faulty && ok ==>
                forall n | n in api.definitions :: !Unused(n, desired, ignoredServices, api.hosts)
      ensures funnels.Valid() && old(funnels.node.log) <= funnels.node.log
      ensures funnels.managedFunnels <= old(funnels.managedFunnels) + DesiredKeys(desired)
      ensures DesiredSupported(desired) ==>
                ResetsJustified(
                  funnels.node.log, |old(funnels.node.log)|, old(funnels.managedFunnels), DesiredKeys(desired))
      ensures ok ==> Conflicts(desired) == map[] && !HasDuplicates(desired)
      ensures !daemon.faulty && PlainHost(daemon.webHost) && ColonFree(old(daemon.host.serve)) &&
              NothingToAdd(desired, old(daemon.host.serve)) && !funnels.node.faulty &&
              DesiredFits(desired, old(funnels.node.ports), old(funnels.managedFunnels)) ==>
                && (ok <==> Conflicts(desired) == map[] && !HasDuplicates(desired))
                && (!HasDuplicates(desired) ==>
                      Reconciled(desired, old(funnels.node.Funnels()), old(funnels.managedFunnels),
                                 funnels.node.Funnels(), funnels.managedFunnels))
    {
      hide Guarded, IsCycle, ValidDesired, LegibleWhereKept, DesiredMap, Conflicts, ColonFree, WritePermitted,
           NothingToAdd, HasDuplicates, DesiredSupported, DefinitionsSynced, ConflictedNames, Unused, ResetsJustified,
           DesiredFits, Reconciled, DesiredKeys, FunnelNode.WellFormed, FunnelNode.Listed, ResetsOwned, CarriedOut,
           WellKeyed, Readable;
      NothingReset(funnels.node.log, funnels.managedFunnels, DesiredKeys(desired));
      var desiredMap, conflicts := BuildDesiredServiceMap(desired);
      ok, current, advertised := ReconcileServed(desired, desiredMap);
      if apiSyncEnabled && !api.faulty {
        DeletingOnly(desired, api.definitions);
      }
      if !ok {
        return;
      }
      ghost var listed, added, wiped;
      ok, listed, added, wiped := funnels.ReconcileFunnels(desired);
      if !ok {
        return;
      }
      if apiSyncEnabled && deleteUnusedServices {
        DeleteUnused(desired);
      }
      ok := conflicts == map[];
    }

    /** What is in step without deletions is in step up to deletions. */
    lemma DeletingOnly(desired: seq<ContainerService>, definitions: map<string, Definition>)
      requires DefinitionsSynced(desired, ConflictedNames(desired), definitions, ignoredServices, api.hosts, false)
      ensures DefinitionsSynced(desired, ConflictedNames(desired), definitions, ignoredServices, api.hosts, true)
    {
      DeletingKeepsInStep(desired, ConflictedNames(desired), definitions, definitions, ignoredServices, api.hosts);
    }

    method DeleteUnused(desired: seq<ContainerService>)
      modifies api`definitions, api`writes
      ensures old(api.writes) <= api.writes
      ensures forall base: nat | base <= |old(api.writes)|
              && WritesPermitted(desired, api.hosts, old(api.writes), base) ::
                WritesPermitted(desired, api.hosts, api.writes, base)
      ensures old(DefinitionsSynced(desired, ConflictedNames(desired), api.definitions, ignoredServices, api.hosts,
                                    false))
              ==> DefinitionsSynced(desired, ConflictedNames(desired), api.definitions, ignoredServices, api.hosts,
                                    true)
      ensures !api.faulty ==> forall n | n in api.definitions :: !Unused(n, desired, ignoredServices, api.hosts)
    {
      hide PutPermitted, Unused, DefinitionsSynced, ConflictedNames, UsedIsKept;
      ghost var before := api.definitions;
      var _ := DeleteUnusedServiceDefinitions(api, desired, ignoredServices);
      if DefinitionsSynced(desired, ConflictedNames(desired), before, ignoredServices, api.hosts, false) {
        DeletingKeepsInStep(desired, ConflictedNames(desired), before, api.definitions, ignoredServices, api.hosts);
      }
    }

    /** The services a cleanup takes down. */
    function Cleanable(serve: map<Endpoint, Config>): set<string> {
      set e | e in serve && IsManaged(e.name) && !IsIgnored(ignoredServices, e.name) :: e.name
    }

    /**
     * Cleanup on shutdown drains and clears every managed service once, whatever its number of
     * ports. Whatever fails, it touches neither ignored services nor ones DockTail does not manage.
     */
    method CleanupServices() returns (ok: bool, ghost read: Result<Current>)
      modifies daemon
      ensures read.Success? ==> WellKeyed(read.value)
      ensures ok ==> read.Success? && AllGone(daemon.log, |old(daemon.log)|, read.value, ignoredServices)
      ensures !daemon.faulty && PlainHost(daemon.webHost) && ColonFree(old(daemon.host.serve)) ==>
                && ok
                && daemon.host == WithoutNames(old(daemon.host), Cleanable(old(daemon.host.serve)))
                && |daemon.log| == |old(daemon.log)| + 2 * |Cleanable(old(daemon.host.serve))|
      ensures ForeignKept(old(daemon.host), daemon.host, ignoredServices)
    {
      hide Readable, ColonFree, NormalizeServiceName, WithoutNames, Guarded, CleanedSoFar, Cleanable, OthersKept,
           ForeignKept, NamesGone, AllGone, WellKeyed, RemoveTraced;
      ForeignKeptAtFirst(daemon.host, ignoredServices);
      var result := ReadCurrentOrFail();
      read := result;
      if result.Failure? {
        return false, read;
      }
      NoNamesGone(daemon.log);
      ghost var w := Watch(|daemon.log|, {}, {}, daemon.host.serve);
      NothingIssued(w, daemon.log);
      var current, todo, cleaned := result.value, result.value.Keys, {};
      ghost var removed: set<string> := {};
      ok := true;
      NothingRemoved(daemon.host);
      NothingCleaned(current, ignoredServices);
      while todo != {}
        invariant todo <= current.Keys
        invariant Guarded(w, daemon.log, daemon.host.serve)
        invariant CleanedSoFar(current, ignoredServices, todo, cleaned, removed)
        invariant ForeignKept(old(daemon.host), daemon.host, ignoredServices)
        invariant !daemon.faulty ==>
                    && ok && daemon.host == WithoutNames(old(daemon.host), removed)
                    && |daemon.log| == |old(daemon.log)| + 2 * |removed|
        invariant ok ==> NamesGone(daemon.log, |old(daemon.log)|, removed)
      {
        var live := daemon.Live();
        if !live {
          return false, read;
        }
        var key :| key in todo;
        CleanedOneMore(current, ignoredServices, todo, cleaned, removed, key);
        todo := todo - {key};
        var name := current[key].serviceName;
        if name !in cleaned {
          cleaned := cleaned + {name};
          if !IsIgnored(ignoredServices, name) {
            RemovedOneMore(old(daemon.host), removed, name);
            ghost var names := removed;
            removed := removed + {name};
            ghost var before, log := daemon.host, daemon.log;
            KeyedIsManaged(current, key);
            var gone := RemoveService(name, w);
            if ok && gone {
              OneMoreCleared(log, daemon.log, |old(daemon.log)|, names, name);
            }
            ForeignStillKept(old(daemon.host), before, daemon.host, ignoredServices, name);
            ok := ok && gone;
          }
        }
      }
      AllCleaned(old(daemon.host.serve), current, cleaned, removed);
      if ok {
        CleanedAreGone(current, ignoredServices, cleaned, removed, daemon.log, |old(daemon.log)|);
      }
    }

    /** Shutdown: the funnels go first, if all that are listed are DockTail's, and then the services. */
    method CleanupAllServices() returns (ok: bool, ghost read: Result<Current>)
      requires funnels.Valid()
      modifies daemon, funnels, funnels.node
      ensures ok ==> read.Success? && AllGone(daemon.log, |old(daemon.log)|, read.value, ignoredServices)
      ensures funnels.Valid() && ForeignKept(old(daemon.host), daemon.host, ignoredServices)
      ensures funnels.node.log == old(funnels.node.log) ||
              exists seen, done ::
                && funnels.node.log == old(funnels.node.log) + [ResetTried(seen, old(funnels.node.ports), done)]
                && seen != {} && SawOnly(ResetTried(seen, old(funnels.node.ports), done), old(funnels.managedFunnels))
      ensures ok ==> forall i | |old(funnels.node.log)| <= i < |funnels.node.log| && funnels.node.log[i].ResetTried? ::
                funnels.node.log[i].done
      ensures funnels.node.log == old(funnels.node.log) ==> funnels.node.ports == old(funnels.node.ports)
      ensures !daemon.faulty && !funnels.node.faulty && PlainHost(daemon.webHost)
              && ColonFree(old(daemon.host.serve)) ==>
                ok && daemon.host == WithoutNames(old(daemon.host), Cleanable(old(daemon.host.serve)))
      ensures !daemon.faulty && !funnels.node.faulty ==>
                if old(funnels.node.Funnels()).Keys <= old(funnels.managedFunnels)
                then funnels.node.Funnels() == map[]
                else funnels.node.ports == old(funnels.node.ports)
    {
      hide ColonFree, WithoutNames, Cleanable, ForeignKept, AllGone, WellKeyed, FunnelNode.WellFormed,
           FunnelNode.Listed, ResetsOwned;
      read := Failure;
      FunnelNode.NothingListed();
      ForeignKeptAtFirst(daemon.host, ignoredServices);
      var live := daemon.Live();
      if !live {
        return false, read;
      }
      var funnelsOk := funnels.CleanupFunnels();
      live := daemon.Live();
      if !live {
        return false, read;
      }
      ok, read := CleanupServices();
      ok := ok && funnelsOk;
    }

    lemma AllCleaned(serve: map<Endpoint, Config>, current: Current, cleaned: set<string>, removed: set<string>)
      requires CleanedSoFar(current, ignoredServices, {}, cleaned, removed)
      ensures ColonFree(serve) && Readable(serve, current) ==> removed == Cleanable(serve)
    {
      hide IsIgnored, IsManaged, ColonFree, Readable, KeyOf;
      if ColonFree(serve) && Readable(serve, current) {
        CurrentNames(serve, current);
        forall name ensures name in removed <==> name in Cleanable(serve) {
          if name in Cleanable(serve) {
            var e :| e in serve && e.name == name && IsManaged(e.name);
            assert KeyOf(e) in current;
          }
        }
      }
    }

    /** What is read names exactly the managed services served. */
    lemma CurrentNames(serve: map<Endpoint, Config>, current: Current)
      requires ColonFree(serve) && Readable(serve, current)
      ensures forall e | e in serve && IsManaged(e.name) ::
                KeyOf(e) in current && current[KeyOf(e)].serviceName == e.name
      ensures forall key | key in current ::
                exists e | e in serve && IsManaged(e.name) :: e.name == current[key].serviceName
    {
      hide NormalizeServiceName, ReadingOf, IsManaged;
      forall e | e in serve && IsManaged(e.name)
        ensures KeyOf(e) in current && current[KeyOf(e)].serviceName == e.name
      {
        ReadingHasKey(serve, current, e);
      }
      forall key | key in current
        ensures exists e | e in serve && IsManaged(e.name) :: e.name == current[key].serviceName
      {
        ReadingHasKey(serve, current, EndpointAt(serve, key));
      }
    }

    method ReadCurrentOrFail() returns (r: Result<Current>)
      ensures r.Success? ==> WellKeyed(r.value)
      ensures !daemon.faulty ==> r.Success?
      ensures !daemon.faulty && ColonFree(daemon.host.serve) && PlainHost(daemon.webHost) ==>
                Readable(daemon.host.serve, r.value)
    {
      r := daemon.GetCurrentServices();
      if !daemon.faulty && ColonFree(daemon.host.serve) && PlainHost(daemon.webHost) {
        ParsedIsReading(daemon.host.serve, daemon.webHost, r.value);
      }
    }
  }

  /** However the state is read, everything desired is found as declared. */
  ghost predicate NothingToAdd(desired: seq<ContainerService>, serve: map<Endpoint, Config>) {
    forall current | Readable(serve, current) :: ToAdd(current, DesiredMap(desired)) == map[]
  }

  /** Every entry and every advertisement of other services is as before. */
  ghost predicate OthersKept(before: Host, after: Host, name: string) {
    && (forall e: Endpoint | e.name != name :: At(after.serve, e) == At(before.serve, e))
    && (forall n | n != name :: n in after.advertised <==> n in before.advertised)
  }

  lemma RemovalKeepsOthers(host: Host, name: string)
    ensures var drained := Execute(host, Drain(name)).0;
            && OthersKept(host, host, name) && OthersKept(host, drained, name)
            && OthersKept(host, Execute(host, Clear(name)).0, name)
               && OthersKept(host, Execute(drained, Clear(name)).0, name)
  {
  }

  /** Services DockTail does not manage, or was told to ignore, are as before. */
  ghost predicate ForeignKept(before: Host, after: Host, ignored: set<string>) {
    && (forall e: Endpoint | !IsManaged(e.name) || IsIgnored(ignored, e.name) ::
          At(after.serve, e) == At(before.serve, e))
    && (forall n | !IsManaged(n) || IsIgnored(ignored, n) :: n in after.advertised <==> n in before.advertised)
  }

  lemma ForeignKeptAtFirst(host: Host, ignored: set<string>)
    ensures ForeignKept(host, host, ignored)
  {
  }

  lemma ForeignStillKept(start: Host, before: Host, after: Host, ignored: set<string>, name: string)
    requires ForeignKept(start, before, ignored) && OthersKept(before, after, name)
    requires IsManaged(name) && !IsIgnored(ignored, name)
    ensures ForeignKept(start, after, ignored)
  {
    hide NormalizeServiceName;
  }

  /** Of the services not in `todo` any more, each name was looked at once, and removed unless ignored. */
  ghost predicate CleanedSoFar(
    current: Current, ignored: set<string>, todo: set<string>, cleaned: set<string>, removed: set<string>)
  {
    && cleaned == (set key | key in current && key !in todo :: current[key].serviceName)
    && removed == set key | key in current && key !in todo && !IsIgnored(ignored, current[key].serviceName) ::
                    current[key].serviceName
  }

  /** A clear of the service went through, or found nothing. */
  ghost predicate NameGone(log: seq<Event>, base: nat, name: string) {
    Answered(log, base, Event(Clear(name), Done)) || Answered(log, base, Event(Clear(name), NotFound))
  }

  ghost predicate NamesGone(log: seq<Event>, base: nat, names: set<string>) {
    base <= |log| && forall n | n in names :: NameGone(log, base, n)
  }

  /** Every service that was read and is not ignored is gone. */
  ghost predicate AllGone(log: seq<Event>, base: nat, current: Current, ignored: set<string>) {
    forall key | key in current && !IsIgnored(ignored, current[key].serviceName) ::
      NameGone(log, base, current[key].serviceName)
  }

  lemma NoNamesGone(log: seq<Event>)
    ensures NamesGone(log, |log|, {})
  {
  }

  lemma OneMoreCleared(log: seq<Event>, now: seq<Event>, base: nat, names: set<string>, name: string)
    requires NamesGone(log, base, names) && RemoveTraced(log, now, name, true)
    ensures NamesGone(now, base, names + {name})
  {
    hide Answered;
    var o, last :| now == log + [Event(Drain(name), o)] + [Event(Clear(name), last)] && Gone(last);
    forall n | n in names + {name} ensures NameGone(now, base, n) {
      var mid := log + [Event(Drain(name), o)];
      OneMoreEvent(log, Event(Drain(name), o), base, Event(Clear(n), Done));
      OneMoreEvent(log, Event(Drain(name), o), base, Event(Clear(n), NotFound));
      OneMoreEvent(mid, Event(Clear(name), last), base, Event(Clear(n), Done));
      OneMoreEvent(mid, Event(Clear(name), last), base, Event(Clear(n), NotFound));
    }
  }

  lemma KeyedIsManaged(current: Current, key: string)
    requires WellKeyed(current) && key in current
    ensures IsManaged(current[key].serviceName)
  {
  }

  lemma CleanedAreGone(
    current: Current, ignored: set<string>, cleaned: set<string>, removed: set<string>, log: seq<Event>, base: nat)
    requires CleanedSoFar(current, ignored, {}, cleaned, removed) && NamesGone(log, base, removed)
    ensures AllGone(log, base, current, ignored)
  {
    hide NameGone, IsIgnored;
  }

  lemma NothingCleaned(current: Current, ignored: set<string>)
    ensures CleanedSoFar(current, ignored, current.Keys, {}, {})
  {
    hide NormalizeServiceName;
  }

  lemma CleanedOneMore(
    current: Current, ignored: set<string>, todo: set<string>, cleaned: set<string>, removed: set<string>, key: string)
    requires CleanedSoFar(current, ignored, todo, cleaned, removed) && key in todo && key in current
    ensures var name := current[key].serviceName;
            && (name in cleaned ==> CleanedSoFar(current, ignored, todo - {key}, cleaned, removed))
            && (name !in cleaned ==>
                  && name !in removed
                  && CleanedSoFar(current, ignored, todo - {key}, cleaned + {name},
                                  if IsIgnored(ignored, name) then removed else removed + {name}))
  {
    hide IsIgnored;
  }

  /** Where the add phase is: what it made of the configuration, if nothing can fail, and whose add was accepted. */
  ghost predicate Adding(
    start: Host, log: seq<Event>, toAdd: Adds, paths: Paths, done: set<string>, host: Host, now: seq<Event>,
    failed: nat,
    exact: bool)
  {
    && log <= now && AddsTallied(now, |log|, toAdd, done, failed)
    && (exact ==>
          && Fits(start.serve, toAdd, paths)
          && Progress(start.serve, toAdd, paths, done, host.serve) && AdvertisedOk(start.advertised, toAdd, done, host))
    && (toAdd == map[] ==> failed == 0 && now == log && host == start)
  }

  lemma NothingAdded(start: Host, log: seq<Event>, toAdd: Adds, paths: Paths, exact: bool)
    requires exact ==> Fits(start.serve, toAdd, paths)
    ensures Adding(start, log, toAdd, paths, {}, start, log, 0, exact)
  {
    NothingAnswered(log, toAdd);
    StartProgress(start.serve, toAdd, paths);
    NobodyAdvertised(start, toAdd);
    hide Progress, AdvertisedOk, Fits, AddsTallied;
  }

  lemma AddedOneMore(
    start: Host, log: seq<Event>, toAdd: Adds, paths: Paths, done: set<string>, before: Host, was: seq<Event>,
    host: Host, now: seq<Event>, failed: nat, exact: bool, key: string, ok: bool)
    requires Adding(start, log, toAdd, paths, done, before, was, failed, exact) && key in toAdd && key !in done
    requires forall k | k in toAdd :: DesiredServiceKey(toAdd[k]) == k
    requires ProcessTraced(was, now, toAdd[key], PathAt(paths, key), ok)
    requires exact && ServeAddArgs(toAdd[key]).Success? ==> host == Processed(before, toAdd[key], PathAt(paths, key))
    ensures Adding(start, log, toAdd, paths, done + {key}, host, now, failed + if ok then 0 else 1, exact)
  {
    hide Progress, AdvertisedOk, Fits, AddsTallied, ProcessTraced, Processed, DesiredServiceKey, ServeAddArgs;
    TallyOneMore(was, now, |log|, toAdd, done, failed, key, PathAt(paths, key), ok);
    if exact {
      AddLoopStep(start, toAdd, paths, done, before, key);
    }
  }

  lemma AllAdded(
    start: Host, log: seq<Event>, toAdd: Adds, paths: Paths, host: Host, now: seq<Event>, failed: nat, exact: bool)
    requires Adding(start, log, toAdd, paths, toAdd.Keys, host, now, failed, exact)
    ensures log <= now && AddsTallied(now, |log|, toAdd, toAdd.Keys, failed)
    ensures exact ==>
              && Progress(start.serve, toAdd, paths, toAdd.Keys, host.serve)
              && AdvertisedOk(start.advertised, toAdd, toAdd.Keys, host)
    ensures toAdd == map[] ==> failed == 0 && now == log && host == start
  {
    hide Progress, AdvertisedOk, Fits, AddsTallied;
  }

  /** Where the repair of advertisements is. */
  ghost predicate Advertising(
    host: Host, log: seq<Event>, names: set<string>, done: set<string>, todo: set<string>, after: Host, now: seq<Event>,
    failed: nat, exact: bool)
  {
    && log <= now && AdvertisesTallied(now, |log|, names, todo, failed)
    && (exact ==> failed == 0 && Restored(host, log, after, now, done))
    && (names == {} ==> now == log && failed == 0 && after == host)
  }

  lemma NoneRestored(host: Host, log: seq<Event>, names: set<string>, exact: bool)
    ensures Advertising(host, log, names, {}, names, host, log, 0, exact)
  {
    NoneAdvertised(log, names);
    NothingRestored(host, log);
    hide Restored, AdvertisesTallied;
  }

  lemma RestoredNext(
    host: Host, log: seq<Event>, names: set<string>, done: set<string>, todo: set<string>, before: Host,
    was: seq<Event>,
    after: Host, now: seq<Event>, failed: nat, exact: bool, name: string, ok: bool)
    requires Advertising(host, log, names, done, todo, before, was, failed, exact)
    requires name in todo && todo <= names && name !in done && AdvertiseTraced(was, now, name, ok)
    requires exact ==> now == was + [Event(Advertise(name), Execute(before, Advertise(name)).1)]
                       && after == Execute(before, Advertise(name)).0
    ensures Advertising(host, log, names, done + {name}, todo - {name}, after, now, failed + if ok then 0 else 1, exact)
  {
    AdvertiseIsDone(before, name);
    if exact {
      RestoredOneMore(host, log, before, was, done, name);
      assert ok by {
        assert now[|was|] == Event(Advertise(name), Done);
      }
    }
    hide Restored, AdvertisesTallied, Execute, AdvertiseTraced;
    AdvertiseOneMore(was, now, |log|, names, todo, failed, name, ok);
  }

  lemma AdvertiseIsDone(host: Host, name: string)
    ensures Execute(host, Advertise(name)).1 == Done
  {
  }

  lemma AllRestored(
    host: Host, log: seq<Event>, names: set<string>, after: Host, now: seq<Event>, failed: nat, exact: bool)
    requires Advertising(host, log, names, names, {}, after, now, failed, exact)
    ensures log <= now && AdvertisesTallied(now, |log|, names, {}, failed)
    ensures exact ==> failed == 0 && Restored(host, log, after, now, names)
    ensures names == {} ==> now == log && failed == 0 && after == host
  {
    hide Restored, AdvertisesTallied;
  }
}
