/** One whole reconcile cycle, and what it leaves behind. */
module Cycle {
  import opened Types
  import opened Serve
  import opened ServeStatus
  import opened Desired
  import opened Daemon
  import opened AddPhase
  import opened Guard
  import opened Reconcile

  /** The state after a service was drained and cleared. */
  function Removed(host: Host, name: string): Host {
    Host(WithoutName(host.serve, name), host.advertised - {name})
  }

  ghost function WithoutNames(host: Host, names: set<string>): Host {
    Host(map e | e in host.serve && e.name !in names :: host.serve[e], host.advertised - names)
  }

  lemma RemovedOneMore(host: Host, names: set<string>, name: string)
    ensures Removed(WithoutNames(host, names), name) == WithoutNames(host, names + {name})
  {
    assert host.advertised - names - {name} == host.advertised - (names + {name});
  }

  lemma DrainThenClear(host: Host, name: string)
    ensures var drained := Execute(host, Drain(name)).0;
            && Execute(drained, Clear(name)).0 == Removed(host, name)
            && Execute(drained, Clear(name)).1 in {Done, NotFound}
  {
    if name !in Names(host.serve) {
      assert WithoutName(host.serve, name) == host.serve;
    }
  }

  /** Who is advertised once the keys in `done` have been processed. */
  ghost predicate AdvertisedOk(start: set<string>, toAdd: Adds, done: set<string>, now: Host) {
    && start <= now.advertised
    && (forall n | n in now.advertised && n !in start ::
          exists key :: key in done && key in toAdd && n == EndpointOf(toAdd[key]).name)
    && (forall e | e in now.serve && IsTarget(toAdd, e) && KeyOf(e) in done :: e.name in now.advertised)
  }

  lemma AdvertisedStep(
    start: Host, toAdd: Adds, paths: Paths, done: set<string>, now: Host, key: string)
    requires key in toAdd && key !in done && FitsAt(start.serve, toAdd, paths, key)
    requires Progress(start.serve, toAdd, paths, done, now.serve)
    requires AdvertisedOk(start.advertised, toAdd, done, now)
    ensures AdvertisedOk(start.advertised, toAdd, done + {key}, Processed(now, toAdd[key], PathAt(paths, key)))
  {
    var svc := toAdd[key];
    assert EntryOk(start.serve, toAdd, paths, done, now.serve, EndpointOf(svc));
    KeyOfService(svc);
    ProcessedHasEffect(now, start.serve, toAdd, paths, key);
    EffectAdvertises(start.advertised, toAdd, done, now, key, EffectOf(now.serve, svc, PathAt(paths, key)));
  }

  lemma EffectAdvertises(start: set<string>, toAdd: Adds, done: set<string>, now: Host, key: string, effect: Effect)
    requires key in toAdd && DesiredServiceKey(toAdd[key]) == key && ServeAddArgs(toAdd[key]).Success?
    requires AdvertisedOk(start, toAdd, done, now)
    requires effect == Skipped ==> EndpointOf(toAdd[key]) !in now.serve
    ensures AdvertisedOk(start, toAdd, done + {key}, Resulting(now, toAdd[key], effect))
  {
    var own, next := EndpointOf(toAdd[key]), Resulting(now, toAdd[key], effect);
    hide ConfigOf;
    forall e | e in next.serve && IsTarget(toAdd, e) && KeyOf(e) in done + {key} ensures e.name in next.advertised {
      if e != own {
        assert KeyOf(e) != key;
      }
    }
    forall n | n in next.advertised && n !in start
      ensures exists k :: k in done + {key} && k in toAdd && n == EndpointOf(toAdd[k]).name
    {
      if n == own.name {
        assert key in done + {key};
      }
    }
  }

  lemma NothingRemoved(host: Host)
    ensures WithoutNames(host, {}) == host
  {
  }

  lemma OffAllOrNothing(host: Host, view: ServiceEndpoint)
    ensures var (next, outcome) := Execute(host, OffCommand(view)); outcome != Done ==> next == host
  {
  }

  lemma NobodyAdvertised(start: Host, toAdd: Adds)
    ensures AdvertisedOk(start.advertised, toAdd, {}, start)
  {
  }

  lemma AddLoopStep(start: Host, toAdd: Adds, paths: Paths, done: set<string>, now: Host, key: string)
    requires Fits(start.serve, toAdd, paths) && key in toAdd && key !in done
    requires Progress(start.serve, toAdd, paths, done, now.serve) && AdvertisedOk(start.advertised, toAdd, done, now)
    ensures ServeAddArgs(toAdd[key]).Success?
    ensures var next := Processed(now, toAdd[key], PathAt(paths, key));
            && Progress(start.serve, toAdd, paths, done + {key}, next.serve)
            && AdvertisedOk(start.advertised, toAdd, done + {key}, next)
  {
    assert FitsAt(start.serve, toAdd, paths, key);
    assert ServeAddArgs(toAdd[key]).Success?;
    hide Progress, AdvertisedOk, Processed, FitsAt;
    ProgressStep(start.serve, toAdd, paths, done, now, key);
    AdvertisedStep(start, toAdd, paths, done, now, key);
  }

  /** The log grew by one successful `advertise` for each of the names, and by nothing else. */
  ghost predicate OnlyAdvertises(before: seq<Event>, after: seq<Event>, names: set<string>) {
    && |after| == |before| + |names| && before <= after
    && (forall i | |before| <= i < |after| ::
          after[i].cmd.Advertise? && after[i].outcome == Done && after[i].cmd.service in names)
    && (forall n | n in names :: Event(Advertise(n), Done) in after[|before|..])
  }

  /** Those commands, and their effect. */
  ghost predicate Restored(host: Host, before: seq<Event>, now: Host, after: seq<Event>, names: set<string>) {
    now == host.(advertised := host.advertised + names) && OnlyAdvertises(before, after, names)
  }

  lemma NothingRestored(host: Host, log: seq<Event>)
    ensures Restored(host, log, host, log, {})
  {
  }

  lemma RestoredOneMore(host: Host, before: seq<Event>, now: Host, after: seq<Event>, names: set<string>, name: string)
    requires Restored(host, before, now, after, names) && name !in names
    ensures var (next, outcome) := Execute(now, Advertise(name));
            Restored(host, before, next, after + [Event(Advertise(name), outcome)], names + {name})
  {
    var more := after + [Event(Advertise(name), Done)];
    assert more[|before|..] == after[|before|..] + [Event(Advertise(name), Done)];
    assert host.advertised + names + {name} == host.advertised + (names + {name});
  }

  ghost predicate ValidDesired(desired: seq<ContainerService>) {
    forall key | key in DesiredMap(desired) :: ValidService(DesiredMap(desired)[key])
  }

  function WatchOf(desired: seq<ContainerService>, base: nat, start: map<Endpoint, Config>): Watch {
    Watch(base, ConflictedNames(desired), Conflicts(desired).Keys, start)
  }

  /** Services whose endpoints a cycle may remove, and whose missing advertisement it repairs. */
  ghost predicate Repairable(desired: seq<ContainerService>, ignored: set<string>, name: string) {
    NormalizeServiceName(name) !in ConflictedNames(desired) && !IsIgnored(ignored, name)
  }

  /** Some port of the service is to be removed, which takes the whole service down. */
  ghost predicate StaleName(
    desired: seq<ContainerService>, ignored: set<string>, serve: map<Endpoint, Config>, name: string)
  {
    && IsManaged(name) && Repairable(desired, ignored, name)
    && exists e | e in serve :: e.name == name && KeyOf(e) !in DesiredMap(desired)
  }

  /** Every desired endpoint that is served, unless its service is about to be taken down, can be read in one way. */
  ghost predicate LegibleWhereKept(desired: seq<ContainerService>, ignored: set<string>, serve: map<Endpoint, Config>) {
    && ColonFree(serve)
    && forall e | e in serve && KeyOf(e) in DesiredMap(desired) && !StaleName(desired, ignored, serve, e.name) ::
         LegibleAt(serve, e)
  }

  /** The daemon's state and the commands issued to it so far. */
  datatype Moment = Moment(host: Host, log: seq<Event>)

  /** What a cycle on a daemon without faults that read `current` makes of the state it started from. */
  ghost predicate CycleFrom(
    desired: seq<ContainerService>, ignored: set<string>, current: Current, start: Moment, end: Moment)
  {
    var before, after := start.host, end.host;
    var dm, frozen := DesiredMap(desired), ConflictedNames(desired);
    var toAdd, paths := ToAdd(current, dm), PathsToRemove(current, dm);
    var toRemove := ToRemove(current, dm, frozen, ignored);
    var toAdvertise := ToAdvertise(current, dm, Some(before.advertised), frozen, ignored);
    var mid := WithoutNames(before, RemoveNames(toRemove));
    && Readable(before.serve, current)
    && Progress(mid.serve, toAdd, paths, toAdd.Keys, after.serve)
    && AdvertisedOk(mid.advertised + toAdvertise, toAdd, toAdd.Keys, after)
    && (toAdd == map[] && toRemove == map[] ==>
          after.serve == before.serve && OnlyAdvertises(start.log, end.log, toAdvertise))
  }

  /** A cycle on a daemon without faults, whichever way the state was read. */
  ghost predicate IsCycle(desired: seq<ContainerService>, ignored: set<string>, start: Moment, end: Moment) {
    exists current :: CycleFrom(desired, ignored, current, start, end)
  }

  lemma DesiredMapFacts(desired: seq<ContainerService>, key: string)
    requires key in DesiredMap(desired)
    ensures DesiredServiceKey(DesiredMap(desired)[key]) == key && DesiredMap(desired)[key] in desired
    ensures key !in Conflicts(desired) && DesiredMap(desired)[key].serviceEnabled
  {
    assert Claims(desired, key)[0] in Claims(desired, key);
  }

  lemma ReadingHasKey(serve: map<Endpoint, Config>, current: Current, e: Endpoint)
    requires ColonFree(serve) && Readable(serve, current) && ':' !in e.port
    ensures KeyOf(e) in current <==> e in serve && IsManaged(e.name)
    ensures KeyOf(e) in current ==> current[KeyOf(e)].serviceName == e.name && current[KeyOf(e)].port == e.port
  {
    hide IsManaged;
    if KeyOf(e) in current {
      var own := EndpointAt(serve, KeyOf(e));
      KeyInjective(own, e);
    }
  }

  /** What is planned for a key fits what the add phase finds at its endpoint. */
  lemma PlanFitsAt(
    desired: seq<ContainerService>, serve: map<Endpoint, Config>, current: Current, names: set<string>, key: string)
    requires ColonFree(serve) && ValidDesired(desired) && Readable(serve, current)
    requires key in ToAdd(current, DesiredMap(desired))
    requires var e := EndpointOf(DesiredMap(desired)[key]); e in serve && e.name !in names ==> LegibleAt(serve, e)
    ensures var dm := DesiredMap(desired);
            FitsAt(WithoutNames(Host(serve, {}), names).serve, ToAdd(current, dm), PathsToRemove(current, dm), key)
  {
    var dm := DesiredMap(desired);
    var svc := dm[key];
    var e := EndpointOf(svc);
    PlannedIsValid(desired, key);
    hide DesiredMap, ValidDesired, ValidService;
    ReadingHasKey(serve, current, e);
    hide ColonFree, NeedsPathOff;
    if e in serve && e.name !in names {
      ReadsBackExactly(serve, e, current[key]);
      PathOffFits(serve, current, key, svc);
    }
    hide Canonical, ViewOf, LegibleAt, Readable, NeedsAdd;
  }

  lemma PlannedIsValid(desired: seq<ContainerService>, key: string)
    requires ValidDesired(desired) && key in DesiredMap(desired)
    ensures var svc := DesiredMap(desired)[key];
            && ValidService(svc) && DesiredServiceKey(svc) == key == KeyOf(EndpointOf(svc))
            && ':' !in EndpointOf(svc).port && IsManaged(EndpointOf(svc).name)
  {
    DesiredMapFacts(desired, key);
    KeyOfService(DesiredMap(desired)[key]);
    hide DesiredMap, DesiredServiceKey;
  }

  lemma PathOffFits(serve: map<Endpoint, Config>, current: Current, key: string, svc: ContainerService)
    requires var e := EndpointOf(svc);
             e in serve && Canonical(serve[e]) && key in current && current[key] == ViewOf(e, serve[e])
    requires ValidService(svc) && NeedsAdd(current, key, svc)
    ensures var c := serve[EndpointOf(svc)];
            NeedsPathOff(current, key, svc) <==>
              c.Web? && PathOf(c.handlers) != NormalizeServicePath(svc.servicePath)
  {
    ViewTellsPathOff(serve, EndpointOf(svc), svc);
    hide Canonical, ViewOf, ValidService, ServiceConfigChanged, NormalizeServicePath;
  }

  lemma ViewTellsPathOff(serve: map<Endpoint, Config>, e: Endpoint, svc: ContainerService)
    requires e in serve && Canonical(serve[e]) && ValidService(svc)
    requires ServiceConfigChanged(ViewOf(e, serve[e]), svc)
    ensures serve[e].Web? <==> IsHttp(ViewOf(e, serve[e]).protocol)
    ensures serve[e].Web? ==>
              NormalizeServicePath(ViewOf(e, serve[e]).path) == PathOf(serve[e].handlers)
    ensures NormalizeServicePath(NormalizeServicePath(svc.servicePath)) == NormalizeServicePath(svc.servicePath)
  {
    if serve[e].Web? {
      OneMount(serve[e].handlers, "");
    }
  }

  /** The names a cycle takes down are those with a stale port, however the state was read. */
  lemma RemovedIffStale(
    desired: seq<ContainerService>, ignored: set<string>, serve: map<Endpoint, Config>, current: Current, name: string)
    requires ColonFree(serve) && Readable(serve, current)
    ensures name in RemoveNames(ToRemove(current, DesiredMap(desired), ConflictedNames(desired), ignored)) <==>
            StaleName(desired, ignored, serve, name)
  {
    hide NormalizeServiceName, DesiredMap, ConflictedNames, ReadingOf;
    var dm, frozen := DesiredMap(desired), ConflictedNames(desired);
    var toRemove := ToRemove(current, dm, frozen, ignored);
    if name in RemoveNames(toRemove) {
      var key :| key in toRemove && toRemove[key].serviceName == name;
      var e := EndpointAt(serve, key);
      ReadingHasKey(serve, current, e);
    }
    if StaleName(desired, ignored, serve, name) {
      var e :| e in serve && e.name == name && KeyOf(e) !in dm;
      ReadingHasKey(serve, current, e);
      assert IsStale(current, dm, frozen, ignored, KeyOf(e));
      assert toRemove[KeyOf(e)].serviceName == name;
    }
  }

  lemma PlanFits(
    desired: seq<ContainerService>, ignored: set<string>, before: Host, current: Current, names: set<string>)
    requires LegibleWhereKept(desired, ignored, before.serve) && ValidDesired(desired)
             && Readable(before.serve, current)
    requires forall name | StaleName(desired, ignored, before.serve, name) :: name in names
    ensures var dm := DesiredMap(desired);
            Fits(WithoutNames(before, names).serve, ToAdd(current, dm), PathsToRemove(current, dm))
  {
    var dm := DesiredMap(desired);
    var toAdd := ToAdd(current, dm);
    var start := WithoutNames(before, names).serve;
    assert start == WithoutNames(Host(before.serve, {}), names).serve;
    hide StaleName, DesiredMap, LegibleAt, FitsAt, ValidDesired, ColonFree, Readable, PathsToRemove, WithoutNames;
    forall key | key in toAdd ensures FitsAt(start, toAdd, PathsToRemove(current, dm), key) {
      DesiredMapFacts(desired, key);
      KeyOfService(dm[key]);
      PlanFitsAt(desired, before.serve, current, names, key);
    }
  }

  /** What every successful or failed read of the current state looks like. */
  ghost predicate WellKeyed(current: Current) {
    forall key | key in current ::
      IsManaged(current[key].serviceName) && key == KeyOf(Endpoint(current[key].serviceName, current[key].port))
  }

  /** The cycle read a state it can tell apart where that matters. */
  ghost predicate ReadFaithfully(
    desired: seq<ContainerService>, ignored: set<string>, host: Host, current: Current, advertised: Option<set<string>>)
  {
    && LegibleWhereKept(desired, ignored, host.serve) && ValidDesired(desired) && Readable(host.serve, current)
    && (DesiredMap(desired) != map[] ==> advertised == Some(host.advertised))
  }

  lemma FaithfulRead(
    desired: seq<ContainerService>, ignored: set<string>, host: Host, current: Current, advertised: Option<set<string>>)
    requires DesiredMap(desired) != map[] ==> advertised == Some(host.advertised)
    requires ColonFree(host.serve) ==> Readable(host.serve, current)
    ensures LegibleWhereKept(desired, ignored, host.serve) && ValidDesired(desired) ==>
              ReadFaithfully(desired, ignored, host, current, advertised)
  {
  }

  lemma NothingIssued(w: Watch, log: seq<Event>)
    requires w.base == |log|
    ensures Guarded(w, log, w.start)
  {
  }

  /** Whatever was read, the plan leaves contested endpoints and their services' names alone. */
  lemma PlanPermitted(
    desired: seq<ContainerService>, current: Current, advertised: Option<set<string>>, ignored: set<string>)
    requires WellKeyed(current)
    ensures var dm, frozen := DesiredMap(desired), ConflictedNames(desired);
            var toAdd, paths := ToAdd(current, dm), PathsToRemove(current, dm);
            var toRemove := ToRemove(current, dm, frozen, ignored);
            && (forall key | key in toAdd :: DesiredServiceKey(toAdd[key]) == key && key !in Conflicts(desired).Keys)
            && (forall key | key in paths ::
                  IsHttp(paths[key].protocol) && KeyOf(Endpoint(paths[key].serviceName, paths[key].port)) == key)
            && (forall key | key in toRemove ::
                  && IsManaged(toRemove[key].serviceName) && !IsIgnored(ignored, toRemove[key].serviceName)
                  && NormalizeServiceName(toRemove[key].serviceName) !in frozen)
            && (forall n | n in MissingAdvertisements(current, dm, advertised, frozen, ignored) ::
                  NormalizeServiceName(n) !in frozen)
  {
    hide NormalizeServiceName, ServiceConfigChanged;
    forall key | key in DesiredMap(desired)
      ensures DesiredServiceKey(DesiredMap(desired)[key]) == key && key !in Conflicts(desired)
    {
      DesiredMapFacts(desired, key);
    }
  }

  lemma PlanFitsRead(
    desired: seq<ContainerService>, ignored: set<string>, before: Host, current: Current,
    advertised: Option<set<string>>)
    requires ReadFaithfully(desired, ignored, before, current, advertised)
    ensures var dm := DesiredMap(desired);
            var names := RemoveNames(ToRemove(current, dm, ConflictedNames(desired), ignored));
            Fits(WithoutNames(before, names).serve, ToAdd(current, dm), PathsToRemove(current, dm))
  {
    hide DesiredMap, ConflictedNames, StaleName, ToAdd, PathsToRemove, WithoutNames, ToRemove, RemoveNames,
         ValidDesired, Readable, LegibleAt;
    var names := RemoveNames(ToRemove(current, DesiredMap(desired), ConflictedNames(desired), ignored));
    forall name | StaleName(desired, ignored, before.serve, name) ensures name in names {
      RemovedIffStale(desired, ignored, before.serve, current, name);
    }
    PlanFits(desired, ignored, before, current, names);
  }

  lemma CycleComposed(
    desired: seq<ContainerService>, ignored: set<string>, current: Current, advertised: Option<set<string>>,
    before: Host, logBefore: seq<Event>, added: Host, logAdded: seq<Event>, after: Host, logAfter: seq<Event>)
    requires ReadFaithfully(desired, ignored, before, current, advertised)
    requires var dm, frozen := DesiredMap(desired), ConflictedNames(desired);
             var toAdd, paths := ToAdd(current, dm), PathsToRemove(current, dm);
             var toRemove := ToRemove(current, dm, frozen, ignored);
             var toAdvertise := ToAdvertise(current, dm, advertised, frozen, ignored);
             var mid := WithoutNames(before, RemoveNames(toRemove));
             && Progress(mid.serve, toAdd, paths, toAdd.Keys, added.serve)
             && AdvertisedOk(mid.advertised, toAdd, toAdd.Keys, added)
             && Restored(added, logAdded, after, logAfter, toAdvertise)
             && (toAdd == map[] && toRemove == map[] ==> logAdded == logBefore && added == before)
    ensures IsCycle(desired, ignored, Moment(before, logBefore), Moment(after, logAfter))
  {
    hide ToAdd, PathsToRemove, ToRemove, Progress, Readable, ColonFree, ConflictedNames, NormalizeServiceName,
         DesiredMap, AdvertisedOk, OnlyAdvertises, WithoutNames, ValidDesired, LegibleWhereKept;
    var dm, frozen := DesiredMap(desired), ConflictedNames(desired);
    PrefsReadOnlyWhenNeeded(current, dm, before.advertised, frozen, ignored);
    var toAdd := ToAdd(current, dm);
    var toAdvertise := ToAdvertise(current, dm, advertised, frozen, ignored);
    assert toAdvertise == ToAdvertise(current, dm, Some(before.advertised), frozen, ignored);
    RestoredAdvertised(WithoutNames(before, RemoveNames(ToRemove(current, dm, frozen, ignored))).advertised,
                       toAdd, added, after, toAdvertise);
    assert CycleFrom(desired, ignored, current, Moment(before, logBefore), Moment(after, logAfter));
  }

  /** With nothing to serve there is nothing to re-advertise, so not reading the prefs makes no difference. */
  lemma PrefsReadOnlyWhenNeeded(
    current: Current, dm: Adds, advertised: set<string>, frozen: set<string>, ignored: set<string>)
    ensures dm == map[] ==>
              forall read :: ToAdvertise(current, dm, read, frozen, ignored) ==
                             ToAdvertise(current, dm, Some(advertised), frozen, ignored)
  {
    if dm == map[] {
      forall read ensures ToAdvertise(current, dm, read, frozen, ignored) == {} {
        assert MissingAdvertisements(current, dm, read, frozen, ignored) == {};
      }
    }
  }

  lemma RestoredAdvertised(start: set<string>, toAdd: Adds, added: Host, after: Host, names: set<string>)
    requires AdvertisedOk(start, toAdd, toAdd.Keys, added)
    requires after == added.(advertised := added.advertised + names)
    ensures AdvertisedOk(start + names, toAdd, toAdd.Keys, after)
  {
  }
}
