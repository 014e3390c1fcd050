/** When one reconcile cycle is enough, whatever order it adds in. */
module OneCycle {
  import opened Types
  import opened Serve
  import opened ServeStatus
  import opened Desired
  import opened Daemon
  import opened AddPhase
  import opened Reconcile
  import opened Cycle
  import opened Convergence
  import Limits

  /** Adding `svc` takes another mount off its port first. */
  ghost predicate MovesPath(serve: ServeMap, svc: ContainerService) {
    var e := EndpointOf(svc);
    e in serve && serve[e].Web? && PathOf(serve[e].handlers) != NormalizeServicePath(svc.servicePath)
  }

  /**
   * The endpoint's service is taken down first and the add is not planned or finds nothing to move; or another add
   * clears the service, and may do so after this one.
   */
  ghost predicate MayBeLost(desired: Services, ignored: set<string>, serve: ServeMap, e: Endpoint)
    requires ValidDesired(desired) && IsDesired(desired, e)
  {
    var svc := DesiredMap(desired)[KeyOf(e)];
    if StaleName(desired, ignored, serve, e.name) then AsDeclared(desired, serve, e) || MovesPath(serve, svc)
    else SiblingClash(desired, serve, e.name) && !KindClash(serve, svc)
  }

  /** Every desired endpoint that is served can be read in one way. */
  ghost predicate DesiredReadsOneWay(desired: Services, serve: ServeMap) {
    ColonFree(serve) && forall e | e in serve && KeyOf(e) in DesiredMap(desired) :: LegibleAt(serve, e)
  }

  // ---- what one cycle makes of a desired endpoint ----

  /** What is planned for a desired endpoint. */
  lemma PlanAt(desired: Services, serve: ServeMap, current: Current, e: Endpoint)
    requires ValidDesired(desired) && DesiredReadsOneWay(desired, serve) && Readable(serve, current)
    requires IsDesired(desired, e)
    ensures var dm := DesiredMap(desired);
            && (KeyOf(e) in ToAdd(current, dm) <==> !AsDeclared(desired, serve, e))
            && (KeyOf(e) in PathsToRemove(current, dm) <==>
                  !AsDeclared(desired, serve, e) && MovesPath(serve, dm[KeyOf(e)]))
  {
    var svc := DesiredMap(desired)[KeyOf(e)];
    DesiredIsPlain(desired, e);
    NeedsAddMeansDifferent(desired, serve, current, e);
    ReadingHasKey(serve, current, e);
    hide ValidDesired, DesiredMap, ColonFree, AsDeclared, ServiceConfigChanged, Canonical;
    if e in serve {
      assert LegibleAt(serve, e);
      ReadsBackExactly(serve, e, current[KeyOf(e)]);
      if ServiceConfigChanged(current[KeyOf(e)], svc) {
        ViewTellsPathOff(serve, e, svc);
      }
    }
    hide Readable, LegibleAt, ViewOf, ValidService;
  }

  lemma NoClashInGoneService(
    serve: ServeMap, toAdd: Adds, paths: Paths, done: set<string>, removed: set<string>, name: string)
    requires name in removed
    ensures !Wiped(WithoutNames(Host(serve, {}), removed).serve, toAdd, paths, done, name)
  {
  }

  /** The outcome for a desired endpoint; the order of the adds only matters when another one clears its service. */
  lemma DesiredAfterCycle(
    desired: Services, ignored: set<string>, current: Current, start: Moment, next: Moment, e: Endpoint)
    requires ValidDesired(desired) && DesiredReadsOneWay(desired, start.host.serve)
    requires CycleFrom(desired, ignored, current, start, next) && IsDesired(desired, e)
    ensures var serve, now := start.host.serve, At(next.host.serve, e);
            var svc, want := DesiredMap(desired)[KeyOf(e)], Some(DesiredConfig(desired, e));
            if StaleName(desired, ignored, serve, e.name)
            then now == if AsDeclared(desired, serve, e) || MovesPath(serve, svc) then None else want
            else if SiblingClash(desired, serve, e.name) && !KindClash(serve, svc)
            then now == None || (now == want && !AsDeclared(desired, serve, e))
            else now == want
  {
    var dm, frozen, serve := DesiredMap(desired), ConflictedNames(desired), start.host.serve;
    var toAdd, paths := ToAdd(current, dm), PathsToRemove(current, dm);
    var removed := RemoveNames(ToRemove(current, dm, frozen, ignored));
    var mid := WithoutNames(start.host, removed).serve;
    assert mid == WithoutNames(Host(serve, {}), removed).serve;
    assert Progress(mid, toAdd, paths, toAdd.Keys, next.host.serve) && Readable(serve, current);
    DesiredIsPlain(desired, e);
    PlanAt(desired, serve, current, e);
    ToAddTakesDesired(current, dm, KeyOf(e));
    RemovedIffStale(desired, ignored, serve, current, e.name);
    hide CycleFrom, ToRemove, RemoveNames, StaleName, SiblingClash, Wiped, ToAdd, PathsToRemove, ValidDesired,
         ConflictedNames, Readable, LegibleAt, KindClash, Clashes, MovesPath;
    assert EntryOk(mid, toAdd, paths, toAdd.Keys, next.host.serve, e);
    if StaleName(desired, ignored, serve, e.name) {
      NoClashInGoneService(serve, toAdd, paths, toAdd.Keys, removed, e.name);
      ClashWipes(mid, toAdd, paths, toAdd.Keys, e);
      assert e !in mid;
    } else {
      WipedMeansSiblingClash(desired, ignored, serve, current, removed, e.name);
      ClashIsSiblingClash(desired, serve, current, removed, KeyOf(e));
      OthersStay(serve, removed, e);
      MovesFromStart(serve, dm[KeyOf(e)]);
    }
  }

  lemma MovesFromStart(serve: ServeMap, svc: ContainerService)
    ensures MovesPath(serve, svc) || KindClash(serve, svc) ==> EndpointOf(svc) in serve
  {
  }

  // ---- a cycle that loses it ----

  /** The state the add phase of a cycle starts from, with the repaired advertisements. */
  ghost function AddsFrom(desired: Services, ignored: set<string>, current: Current, host: Host): Host {
    var dm, frozen := DesiredMap(desired), ConflictedNames(desired);
    var mid := WithoutNames(host, RemoveNames(ToRemove(current, dm, frozen, ignored)));
    mid.(advertised := mid.advertised + ToAdvertise(current, dm, Some(host.advertised), frozen, ignored))
  }

  /** What is left of an add phase after the keys in `done`. */
  ghost predicate Adding(start: Host, toAdd: Adds, paths: Paths, done: set<string>, now: Host) {
    Progress(start.serve, toAdd, paths, done, now.serve) && AdvertisedOk(start.advertised, toAdd, done, now)
  }

  lemma AddOne(start: Host, toAdd: Adds, paths: Paths, done: set<string>, now: Host, key: string) returns (next: Host)
    requires Fits(start.serve, toAdd, paths) && key in toAdd && key !in done
    requires Adding(start, toAdd, paths, done, now)
    ensures Adding(start, toAdd, paths, done + {key}, next)
    ensures forall e | e != EndpointOf(toAdd[key]) && e !in now.serve :: e !in next.serve
    ensures Clashes(start.serve, toAdd, paths, key)
            && !Wiped(start.serve, toAdd, paths, done, EndpointOf(toAdd[key]).name) ==>
              forall e | e != EndpointOf(toAdd[key]) && e.name == EndpointOf(toAdd[key]).name :: e !in next.serve
  {
    var own := EndpointOf(toAdd[key]);
    AddLoopStep(start, toAdd, paths, done, now, key);
    next := Processed(now, toAdd[key], PathAt(paths, key));
    assert FitsAt(start.serve, toAdd, paths, key) && EntryOk(start.serve, toAdd, paths, done, now.serve, own);
    hide Fits, FitsAt, Progress, AdvertisedOk, Processed, EntryOk, Clashes, Wiped;
    ClearsOnFirstClash(start.serve, toAdd, paths, done, now, key);
    ProcessedHasEffect(now, start.serve, toAdd, paths, key);
    var effect := EffectOf(now.serve, toAdd[key], PathAt(paths, key));
    hide EffectOf, Resulting;
    forall e | e != own
      ensures At(next.serve, e) == if effect == ClearedAndPut && e.name == own.name then None else At(now.serve, e)
    {
      OtherEntry(now, toAdd[key], effect, e);
    }
  }

  /** The rest of an add phase, in some order; what was done before and is gone does not come back. */
  lemma {:induction false} AddRest(start: Host, toAdd: Adds, paths: Paths, done: set<string>, now: Host)
    returns (end: Host)
    requires Fits(start.serve, toAdd, paths) && done <= toAdd.Keys && Adding(start, toAdd, paths, done, now)
    ensures Adding(start, toAdd, paths, toAdd.Keys, end)
    ensures forall e | e !in now.serve && IsTarget(toAdd, e) && KeyOf(e) in done :: e !in end.serve
    decreases toAdd.Keys - done
  {
    hide Fits, Adding;
    if done == toAdd.Keys {
      end := now;
    } else {
      var key :| key in toAdd && key !in done;
      TargetOfKey(start, toAdd, paths, key);
      var next := AddOne(start, toAdd, paths, done, now, key);
      end := AddRest(start, toAdd, paths, done + {key}, next);
    }
  }

  lemma TargetOfKey(start: Host, toAdd: Adds, paths: Paths, key: string)
    requires Fits(start.serve, toAdd, paths) && key in toAdd
    ensures KeyOf(EndpointOf(toAdd[key])) == key
  {
    assert FitsAt(start.serve, toAdd, paths, key);
    KeyOfService(toAdd[key]);
  }

  lemma AnyReading(serve: ServeMap) returns (current: Current)
    requires ColonFree(serve)
    ensures Readable(serve, current)
  {
    hide ReadingOf, IsManaged, ColonFree;
    current := map key | key in ManagedKeys(serve) :: Limits.SomeReading(serve, EndpointAt(serve, key));
    forall b | b in serve && IsManaged(b.name) ensures KeyOf(b) in current && ReadingOf(serve, b, current[KeyOf(b)]) {
      ViewAt(serve, b);
    }
  }

  lemma AddsFit(desired: Services, ignored: set<string>, current: Current, host: Host)
    requires ValidDesired(desired) && DesiredReadsOneWay(desired, host.serve) && Readable(host.serve, current)
    ensures var dm, start := DesiredMap(desired), AddsFrom(desired, ignored, current, host);
            var toAdd, paths := ToAdd(current, dm), PathsToRemove(current, dm);
            Fits(start.serve, toAdd, paths) && Adding(start, toAdd, paths, {}, start)
  {
    var dm, start := DesiredMap(desired), AddsFrom(desired, ignored, current, host);
    var toAdd, paths := ToAdd(current, dm), PathsToRemove(current, dm);
    var names := RemoveNames(ToRemove(current, dm, ConflictedNames(desired), ignored));
    hide DesiredMap, ConflictedNames, StaleName, ToAdd, PathsToRemove, WithoutNames, ToRemove, RemoveNames,
         ValidDesired, Readable, LegibleAt, Fits, Progress, AdvertisedOk, ToAdvertise;
    forall name | StaleName(desired, ignored, host.serve, name) ensures name in names {
      RemovedIffStale(desired, ignored, host.serve, current, name);
    }
    PlanFits(desired, ignored, host, current, names);
    StartProgress(start.serve, toAdd, paths);
    NobodyAdvertised(start, toAdd);
  }

  /** An add phase carried through is a cycle, if there was anything to do. */
  lemma AddsMakeCycle(desired: Services, ignored: set<string>, current: Current, start: Moment, end: Host)
    requires Readable(start.host.serve, current)
    requires var dm, from := DesiredMap(desired), AddsFrom(desired, ignored, current, start.host);
             var toAdd, paths := ToAdd(current, dm), PathsToRemove(current, dm);
             && Adding(from, toAdd, paths, toAdd.Keys, end)
             && (toAdd != map[] || ToRemove(current, dm, ConflictedNames(desired), ignored) != map[])
    ensures CycleFrom(desired, ignored, current, start, Moment(end, start.log))
  {
    hide DesiredMap, ConflictedNames, ToAdd, PathsToRemove, WithoutNames, ToRemove, RemoveNames, Readable, Progress,
         AdvertisedOk, ToAdvertise;
  }

  /** Adding the endpoint first and the one that clears its service next loses it. */
  lemma AddThenClear(start: Host, toAdd: Adds, paths: Paths, e: Endpoint, other: string) returns (end: Host)
    requires Fits(start.serve, toAdd, paths) && Adding(start, toAdd, paths, {}, start)
    requires IsTarget(toAdd, e) && other in toAdd && other != KeyOf(e) && EndpointOf(toAdd[other]).name == e.name
    requires Clashes(start.serve, toAdd, paths, other) && !Clashes(start.serve, toAdd, paths, KeyOf(e))
    ensures Adding(start, toAdd, paths, toAdd.Keys, end) && e !in end.serve
  {
    TargetOfKey(start, toAdd, paths, other);
    hide Fits, Adding, Clashes, EndpointOf;
    var first := AddOne(start, toAdd, paths, {}, start, KeyOf(e));
    OnlyOneDone(start, toAdd, paths, e);
    var second := AddOne(start, toAdd, paths, {} + {KeyOf(e)}, first, other);
    end := AddRest(start, toAdd, paths, {} + {KeyOf(e)} + {other}, second);
  }

  lemma OnlyOneDone(start: Host, toAdd: Adds, paths: Paths, e: Endpoint)
    requires IsTarget(toAdd, e) && !Clashes(start.serve, toAdd, paths, KeyOf(e))
    ensures !Wiped(start.serve, toAdd, paths, {} + {KeyOf(e)}, e.name)
  {
    hide Clashes;
  }

  /** What is found in the plan when another add clears the service of an endpoint that is planned as well. */
  lemma ClearIsPlanned(desired: Services, ignored: set<string>, current: Current, host: Host, e: Endpoint)
    returns (other: string)
    requires ValidDesired(desired) && DesiredReadsOneWay(desired, host.serve) && Readable(host.serve, current)
    requires IsDesired(desired, e) && MayBeLost(desired, ignored, host.serve, e)
    requires !StaleName(desired, ignored, host.serve, e.name)
    ensures var dm, start := DesiredMap(desired), AddsFrom(desired, ignored, current, host).serve;
            var toAdd, paths := ToAdd(current, dm), PathsToRemove(current, dm);
            && other in toAdd && other != KeyOf(e) && EndpointOf(toAdd[other]).name == e.name
            && Clashes(start, toAdd, paths, other)
            && (KeyOf(e) in toAdd ==> IsTarget(toAdd, e) && !Clashes(start, toAdd, paths, KeyOf(e)))
  {
    var dm, serve := DesiredMap(desired), host.serve;
    var removed := RemoveNames(ToRemove(current, dm, ConflictedNames(desired), ignored));
    assert WithoutNames(host, removed).serve == WithoutNames(Host(serve, {}), removed).serve;
    assert ColonFree(serve);
    RemovedIffStale(desired, ignored, serve, current, e.name);
    other :| other in dm && EndpointOf(dm[other]).name == e.name && KindClash(serve, dm[other]);
    EndpointIsDesired(desired, other);
    ToAddTakesDesired(current, dm, other);
    ToAddTakesDesired(current, dm, KeyOf(e));
    hide StaleName, ToAdd, PathsToRemove, ToRemove, RemoveNames, ConflictedNames, Readable, LegibleAt, KindClash,
         Clashes, ValidDesired, DesiredMap;
    ClashIsSiblingClash(desired, serve, current, removed, other);
    ClashIsSiblingClash(desired, serve, current, removed, KeyOf(e));
  }

  /** A service is only taken down or cleared by a cycle that has something to do. */
  lemma LosingIsBusy(desired: Services, ignored: set<string>, serve: ServeMap, current: Current, name: string)
    requires ColonFree(serve) && Readable(serve, current)
    ensures StaleName(desired, ignored, serve, name) ==>
              ToRemove(current, DesiredMap(desired), ConflictedNames(desired), ignored) != map[]
  {
    hide StaleName, DesiredMap, ConflictedNames, Readable, ColonFree, ToRemove;
    RemovedIffStale(desired, ignored, serve, current, name);
  }

  lemma LosingCycle(desired: Services, ignored: set<string>, start: Moment, e: Endpoint) returns (next: Moment)
    requires ValidDesired(desired) && DesiredReadsOneWay(desired, start.host.serve)
    requires IsDesired(desired, e) && MayBeLost(desired, ignored, start.host.serve, e)
    ensures IsCycle(desired, ignored, start, next) && e !in next.host.serve
  {
    var serve := start.host.serve;
    var current := AnyReading(serve);
    var dm, from := DesiredMap(desired), AddsFrom(desired, ignored, current, start.host);
    var toAdd, paths := ToAdd(current, dm), PathsToRemove(current, dm);
    AddsFit(desired, ignored, current, start.host);
    LosingIsBusy(desired, ignored, serve, current, e.name);
    PlanAt(desired, serve, current, e);
    hide StaleName, ToAdd, PathsToRemove, ToRemove, ConflictedNames, Readable, LegibleAt, KindClash, Clashes,
         ValidDesired, DesiredMap, SiblingClash, IsTarget, AddsFrom, Fits, Adding, CycleFrom, DesiredConfig, AsDeclared,
         MovesPath;
    var end: Host;
    if StaleName(desired, ignored, serve, e.name) {
      end := AddRest(from, toAdd, paths, {}, from);
    } else {
      var other := ClearIsPlanned(desired, ignored, current, start.host, e);
      if AsDeclared(desired, serve, e) {
        end := AddRest(from, toAdd, paths, {}, from);
      } else {
        end := AddThenClear(from, toAdd, paths, e, other);
      }
    }
    next := Moment(end, start.log);
    AddsMakeCycle(desired, ignored, current, start, end);
    DesiredAfterCycle(desired, ignored, current, start, next, e);
  }

  /**
   * Exactly when every cycle, whatever it reads and in whatever order it adds, serves a desired endpoint as declared.
   */
  lemma ServedInOneCycleIff(desired: Services, ignored: set<string>, start: Moment, e: Endpoint)
    requires ValidDesired(desired) && DesiredReadsOneWay(desired, start.host.serve) && IsDesired(desired, e)
    ensures (forall next | IsCycle(desired, ignored, start, next) :: AsDeclared(desired, next.host.serve, e)) <==>
            !MayBeLost(desired, ignored, start.host.serve, e)
  {
    if MayBeLost(desired, ignored, start.host.serve, e) {
      var next := LosingCycle(desired, ignored, start, e);
      assert IsCycle(desired, ignored, start, next) && !AsDeclared(desired, next.host.serve, e);
    } else {
      hide CycleFrom, DesiredReadsOneWay, StaleName, SiblingClash, KindClash, DesiredMap, MovesPath, DesiredConfig;
      forall next | IsCycle(desired, ignored, start, next) ensures AsDeclared(desired, next.host.serve, e) {
        var current :| CycleFrom(desired, ignored, current, start, next);
        DesiredAfterCycle(desired, ignored, current, start, next, e);
      }
    }
  }

  ghost predicate AllAsDeclared(desired: Services, serve: ServeMap)
    requires ValidDesired(desired)
  {
    forall e | IsDesired(desired, e) :: AsDeclared(desired, serve, e)
  }

  /** Exactly when one cycle is enough to serve everything desired as declared, whatever the order. */
  lemma OneCycleServesAllIff(desired: Services, ignored: set<string>, start: Moment)
    requires ValidDesired(desired) && DesiredReadsOneWay(desired, start.host.serve)
    ensures (forall next | IsCycle(desired, ignored, start, next) :: AllAsDeclared(desired, next.host.serve)) <==>
            forall e | IsDesired(desired, e) :: !MayBeLost(desired, ignored, start.host.serve, e)
  {
    hide IsCycle, ValidDesired, DesiredReadsOneWay, IsDesired, AsDeclared, MayBeLost;
    forall e | IsDesired(desired, e)
      ensures (forall next | IsCycle(desired, ignored, start, next) :: AsDeclared(desired, next.host.serve, e)) <==>
              !MayBeLost(desired, ignored, start.host.serve, e)
    {
      ServedInOneCycleIff(desired, ignored, start, e);
    }
    if forall next | IsCycle(desired, ignored, start, next) :: AllAsDeclared(desired, next.host.serve) {
      forall e, next | IsDesired(desired, e) && IsCycle(desired, ignored, start, next)
        ensures AsDeclared(desired, next.host.serve, e)
      {
        assert AllAsDeclared(desired, next.host.serve);
      }
    }
  }
}
