/** Repeated reconcile cycles for one desired list settle after two, and then do nothing. */
module Convergence {
  import opened Types
  import opened Serve
  import opened ServeStatus
  import opened Desired
  import opened Daemon
  import opened AddPhase
  import opened Guard
  import opened Reconcile
  import opened Cycle
  import opened Client

  type Services = seq<ContainerService>
  type ServeMap = map<Endpoint, Config>

  /** An entry no cycle may remove: not managed, ignored, or belonging to a contested service; and not desired. */
  ghost predicate Leftover(desired: Services, ignored: set<string>, e: Endpoint) {
    KeyOf(e) !in DesiredMap(desired) && (!IsManaged(e.name) || !Repairable(desired, ignored, e.name))
  }

  ghost predicate IsDesired(desired: Services, e: Endpoint) {
    KeyOf(e) in DesiredMap(desired) && EndpointOf(DesiredMap(desired)[KeyOf(e)]) == e
  }

  ghost function DesiredEndpoints(desired: Services): set<Endpoint> {
    set key | key in DesiredMap(desired) :: EndpointOf(DesiredMap(desired)[key])
  }

  ghost function DesiredConfig(desired: Services, e: Endpoint): Config
    requires ValidDesired(desired) && IsDesired(desired, e)
  {
    assert ValidService(DesiredMap(desired)[KeyOf(e)]);
    ConfigOf(DesiredMap(desired)[KeyOf(e)])
  }

  /** The endpoint is served exactly as its one claimant declares. */
  ghost predicate AsDeclared(desired: Services, serve: ServeMap, e: Endpoint)
    requires ValidDesired(desired) && IsDesired(desired, e)
  {
    e in serve && serve[e] == DesiredConfig(desired, e)
  }

  /** Everything desired, exactly as declared, next to what no cycle may remove. */
  ghost predicate IsGoal(desired: Services, ignored: set<string>, start: ServeMap, goal: ServeMap)
    requires ValidDesired(desired)
  {
    && (forall e | e in goal ::
          || (IsDesired(desired, e) && goal[e] == DesiredConfig(desired, e))
          || (Leftover(desired, ignored, e) && e in start && goal[e] == start[e]))
    && (forall e | IsDesired(desired, e) :: e in goal)
    && (forall e | e in start && Leftover(desired, ignored, e) :: e in goal)
  }

  ghost predicate Within(serve: ServeMap, goal: ServeMap) {
    forall e | e in serve :: e in goal && serve[e] == goal[e]
  }

  ghost predicate AllServed(desired: Services, serve: ServeMap) {
    forall e | IsDesired(desired, e) :: e in serve
  }

  ghost predicate AllAdvertised(desired: Services, ignored: set<string>, advertised: set<string>) {
    forall e | IsDesired(desired, e) && Repairable(desired, ignored, e.name) :: e.name in advertised
  }

  /** The state repeated cycles reach and stay in. */
  ghost predicate Settled(desired: Services, ignored: set<string>, goal: ServeMap, host: Host) {
    Within(host.serve, goal) && AllServed(desired, host.serve) && AllAdvertised(desired, ignored, host.advertised)
  }

  /** A start and a goal whose desired endpoints read in one way, except where the start is taken down anyway. */
  ghost predicate WellPosed(desired: Services, ignored: set<string>, start: ServeMap, goal: ServeMap) {
    && ValidDesired(desired) && LegibleWhereKept(desired, ignored, start)
    && IsGoal(desired, ignored, start, goal) && LegibleWhereKept(desired, ignored, goal)
  }

  /** Nothing is to be removed, and whatever is desired and served reads in one way. */
  ghost predicate Tidy(desired: Services, ignored: set<string>, serve: ServeMap) {
    && ColonFree(serve)
    && (forall name :: !StaleName(desired, ignored, serve, name))
    && (forall e | e in serve && KeyOf(e) in DesiredMap(desired) :: LegibleAt(serve, e))
  }

  lemma DesiredKeyIsEndpoint(desired: Services, e: Endpoint)
    requires ValidDesired(desired) && ':' !in e.port && KeyOf(e) in DesiredMap(desired)
    ensures IsDesired(desired, e) && IsManaged(e.name)
  {
    var svc := DesiredMap(desired)[KeyOf(e)];
    DesiredMapFacts(desired, KeyOf(e));
    assert ValidService(svc);
    KeyOfService(svc);
    KeyInjective(e, EndpointOf(svc));
  }

  lemma EndpointIsDesired(desired: Services, key: string)
    requires key in DesiredMap(desired)
    ensures var e := EndpointOf(DesiredMap(desired)[key]);
            IsDesired(desired, e) && KeyOf(e) == key && IsManaged(e.name) && e.port == DesiredMap(desired)[key].port
  {
    DesiredMapFacts(desired, key);
    KeyOfService(DesiredMap(desired)[key]);
  }

  lemma DesiredIsPlain(desired: Services, e: Endpoint)
    requires ValidDesired(desired) && IsDesired(desired, e)
    ensures IsManaged(e.name) && ':' !in e.port
    ensures ValidService(DesiredMap(desired)[KeyOf(e)]) && EndpointOf(DesiredMap(desired)[KeyOf(e)]) == e
  {
    assert ValidService(DesiredMap(desired)[KeyOf(e)]);
  }

  lemma GoalIsNotStale(
    desired: Services, ignored: set<string>, start: ServeMap, goal: ServeMap, serve: ServeMap, name: string)
    requires ValidDesired(desired) && IsGoal(desired, ignored, start, goal) && Within(serve, goal)
    ensures !StaleName(desired, ignored, serve, name)
  {
    hide ValidDesired, DesiredMap, Repairable, DesiredConfig;
    forall e | e in serve ensures KeyOf(e) in DesiredMap(desired) || Leftover(desired, ignored, e) {
      assert e in goal;
    }
  }

  /** Whatever lies within a goal is tidy. */
  lemma WithinIsTidy(desired: Services, ignored: set<string>, start: ServeMap, goal: ServeMap, serve: ServeMap)
    requires WellPosed(desired, ignored, start, goal) && Within(serve, goal)
    ensures Tidy(desired, ignored, serve)
  {
    hide ValidDesired, DesiredMap, IsGoal, StaleName, Canonical;
    forall name ensures !StaleName(desired, ignored, serve, name) && !StaleName(desired, ignored, goal, name) {
      GoalIsNotStale(desired, ignored, start, goal, serve, name);
      GoalIsNotStale(desired, ignored, start, goal, goal, name);
    }
    forall e | e in serve && KeyOf(e) in DesiredMap(desired) ensures LegibleAt(serve, e) {
      assert LegibleAt(goal, e);
      LegibleInSubset(serve, goal, e);
    }
  }

  lemma LegibleInSubset(serve: ServeMap, goal: ServeMap, e: Endpoint)
    requires Within(serve, goal) && e in serve && LegibleAt(goal, e)
    ensures LegibleAt(serve, e)
  {
    hide Canonical;
    forall b | Overlaps(serve, e, b) ensures serve[b].handlers == serve[e].handlers {
      assert Overlaps(goal, e, b);
    }
  }

  /** A desired endpoint that reads in one way is re-added exactly when it is not served as declared. */
  lemma NeedsAddMeansDifferent(desired: Services, serve: ServeMap, current: Current, e: Endpoint)
    requires ValidDesired(desired) && ColonFree(serve) && Readable(serve, current) && IsDesired(desired, e)
    requires e in serve ==> LegibleAt(serve, e)
    ensures NeedsAdd(current, KeyOf(e), DesiredMap(desired)[KeyOf(e)]) <==> !AsDeclared(desired, serve, e)
  {
    DesiredIsPlain(desired, e);
    hide ColonFree, ValidDesired, DesiredMap, IsManaged, ServiceConfigChanged, ConfigOf, ViewOf;
    ReadingHasKey(serve, current, e);
    if e in serve {
      ReadsBackExactly(serve, e, current[KeyOf(e)]);
      ChangedMeansDifferentConfig(e, serve[e], DesiredMap(desired)[KeyOf(e)]);
    }
  }

  /** A served endpoint that is neither desired nor a leftover makes its service stale. */
  lemma NeitherMeansStale(desired: Services, ignored: set<string>, serve: ServeMap, e: Endpoint)
    requires e in serve && KeyOf(e) !in DesiredMap(desired)
    ensures Leftover(desired, ignored, e) <==> !StaleName(desired, ignored, serve, e.name)
  {
    hide DesiredMap, Repairable;
  }

  // ---- the first cycle ----

  /** Where an entry found after a cycle can come from: added by it, or left alone by it. */
  lemma EntryAfterCycle(
    desired: Services, ignored: set<string>, current: Current, start: Moment, next: Moment, e: Endpoint)
    requires ValidDesired(desired) && CycleFrom(desired, ignored, current, start, next) && e in next.host.serve
    ensures var dm := DesiredMap(desired);
            if IsTarget(ToAdd(current, dm), e) then next.host.serve[e] == DesiredConfig(desired, e)
            else && e in start.host.serve && next.host.serve[e] == start.host.serve[e]
                 && e.name !in RemoveNames(ToRemove(current, dm, ConflictedNames(desired), ignored))
  {
    var dm, frozen := DesiredMap(desired), ConflictedNames(desired);
    var toAdd, paths := ToAdd(current, dm), PathsToRemove(current, dm);
    var mid := WithoutNames(start.host, RemoveNames(ToRemove(current, dm, frozen, ignored)));
    assert Progress(mid.serve, toAdd, paths, toAdd.Keys, next.host.serve);
    hide CycleFrom, ToRemove, RemoveNames, PathsToRemove, Readable, ConflictedNames, Wiped;
    EntryOfProgress(mid.serve, toAdd, paths, next.host.serve, e);
    if !IsTarget(toAdd, e) {
      assert e in mid.serve;
    } else {
      hide ConfigOf;
      assert toAdd[KeyOf(e)] == dm[KeyOf(e)];
    }
  }

  lemma EntryOfProgress(start: ServeMap, toAdd: Adds, paths: Paths, now: ServeMap, e: Endpoint)
    requires Progress(start, toAdd, paths, toAdd.Keys, now) && e in now
    ensures IsTarget(toAdd, e) ==> ServeAddArgs(toAdd[KeyOf(e)]).Success? && now[e] == ConfigOf(toAdd[KeyOf(e)])
    ensures !IsTarget(toAdd, e) ==> e in start && now[e] == start[e]
  {
    hide Wiped, ConfigOf;
    assert EntryOk(start, toAdd, paths, toAdd.Keys, now, e);
  }

  lemma SurvivorIsGoal(
    desired: Services, ignored: set<string>, current: Current, start: ServeMap, goal: ServeMap, e: Endpoint)
    requires WellPosed(desired, ignored, start, goal) && Readable(start, current) && e in start
    requires !IsTarget(ToAdd(current, DesiredMap(desired)), e) && !StaleName(desired, ignored, start, e.name)
    ensures e in goal && start[e] == goal[e]
  {
    hide LegibleAt, Readable, ReadingOf, StaleName, DesiredConfig, DesiredMap, Leftover;
    if KeyOf(e) in DesiredMap(desired) {
      assert LegibleAt(start, e);
      DesiredKeyIsEndpoint(desired, e);
      NeedsAddMeansDifferent(desired, start, current, e);
      hide NeedsAdd;
      assert AsDeclared(desired, start, e);
      GoalHoldsDesired(desired, ignored, start, goal, e);
    } else {
      NeitherMeansStale(desired, ignored, start, e);
    }
  }

  lemma TargetIsDesired(desired: Services, current: Current, e: Endpoint)
    requires IsTarget(ToAdd(current, DesiredMap(desired)), e)
    ensures IsDesired(desired, e)
  {
  }

  /** The first cycle leaves nothing but goal entries; desired ones may still be missing. */
  lemma FirstCycleClears(desired: Services, ignored: set<string>, start: Moment, next: Moment, goal: ServeMap)
    requires WellPosed(desired, ignored, start.host.serve, goal) && IsCycle(desired, ignored, start, next)
    ensures Within(next.host.serve, goal)
  {
    var current :| CycleFrom(desired, ignored, current, start, next);
    hide CycleFrom, WellPosed;
    forall e | e in next.host.serve ensures e in goal && next.host.serve[e] == goal[e] {
      EntryIsGoal(desired, ignored, current, start, next, goal, e);
    }
  }

  lemma EntryIsGoal(
    desired: Services, ignored: set<string>, current: Current, start: Moment, next: Moment, goal: ServeMap, e: Endpoint)
    requires WellPosed(desired, ignored, start.host.serve, goal) && e in next.host.serve
    requires CycleFrom(desired, ignored, current, start, next)
    ensures e in goal && next.host.serve[e] == goal[e]
  {
    hide CycleFrom, WellPosed, DesiredMap, ToAdd, ToRemove, RemoveNames, StaleName, DesiredConfig, IsTarget, Readable,
         ConflictedNames, ValidDesired, IsDesired, ColonFree;
    WellPosedFacts(desired, ignored, start.host.serve, goal);
    CycleFacts(desired, ignored, current, start, next);
    EntryAfterCycle(desired, ignored, current, start, next, e);
    if IsTarget(ToAdd(current, DesiredMap(desired)), e) {
      TargetIsDesired(desired, current, e);
      GoalHoldsDesired(desired, ignored, start.host.serve, goal, e);
    } else {
      RemovedIffStale(desired, ignored, start.host.serve, current, e.name);
      SurvivorIsGoal(desired, ignored, current, start.host.serve, goal, e);
    }
  }

  lemma CycleFacts(desired: Services, ignored: set<string>, current: Current, start: Moment, next: Moment)
    requires CycleFrom(desired, ignored, current, start, next)
    ensures Readable(start.host.serve, current)
  {
  }

  lemma WellPosedFacts(desired: Services, ignored: set<string>, start: ServeMap, goal: ServeMap)
    requires WellPosed(desired, ignored, start, goal)
    ensures ColonFree(start) && ColonFree(goal) && ValidDesired(desired)
  {
  }

  // ---- from a state within the goal on ----

  lemma NothingStale(desired: Services, ignored: set<string>, serve: ServeMap, current: Current)
    requires Tidy(desired, ignored, serve) && Readable(serve, current)
    ensures ToRemove(current, DesiredMap(desired), ConflictedNames(desired), ignored) == map[]
  {
    hide DesiredMap, ConflictedNames, StaleName, ColonFree, LegibleAt, Readable, IsStale;
    var toRemove := ToRemove(current, DesiredMap(desired), ConflictedNames(desired), ignored);
    forall key ensures key !in toRemove {
      if key in toRemove {
        RemovedIffStale(desired, ignored, serve, current, toRemove[key].serviceName);
      }
    }
  }

  lemma OnlyAbsentAdded(
    desired: Services, ignored: set<string>, start: ServeMap, goal: ServeMap, serve: ServeMap, current: Current,
    e: Endpoint)
    requires WellPosed(desired, ignored, start, goal) && Within(serve, goal)
    requires Readable(serve, current) && IsDesired(desired, e)
    ensures KeyOf(e) in ToAdd(current, DesiredMap(desired)) <==> e !in serve
    ensures IsTarget(ToAdd(current, DesiredMap(desired)), e) <==> e !in serve
    ensures KeyOf(e) !in PathsToRemove(current, DesiredMap(desired)) || e in serve
  {
    WithinIsTidy(desired, ignored, start, goal, serve);
    NeedsAddMeansDifferent(desired, serve, current, e);
    GoalHoldsDesired(desired, ignored, start, goal, e);
    DesiredIsPlain(desired, e);
    ReadingHasKey(serve, current, e);
    hide WellPosed, Tidy, DesiredMap, ServiceConfigChanged, DesiredConfig, Readable, ValidDesired;
  }

  lemma NoClashes(
    desired: Services, ignored: set<string>, start: ServeMap, goal: ServeMap, serve: ServeMap, current: Current,
    name: string)
    requires WellPosed(desired, ignored, start, goal) && Within(serve, goal) && Readable(serve, current)
    ensures var toAdd, paths := ToAdd(current, DesiredMap(desired)), PathsToRemove(current, DesiredMap(desired));
            !Wiped(serve, toAdd, paths, toAdd.Keys, name)
  {
    hide WellPosed, Within, DesiredMap, Readable;
    var toAdd := ToAdd(current, DesiredMap(desired));
    forall key | key in toAdd ensures EndpointOf(toAdd[key]) !in serve {
      EndpointIsDesired(desired, key);
      OnlyAbsentAdded(desired, ignored, start, goal, serve, current, EndpointOf(toAdd[key]));
    }
  }

  lemma QuietCycleEntry(
    desired: Services, ignored: set<string>, current: Current, before: Moment, after: Moment, e: Endpoint)
    requires CycleFrom(desired, ignored, current, before, after)
    requires var dm := DesiredMap(desired);
             && ToRemove(current, dm, ConflictedNames(desired), ignored) == map[]
             && !Wiped(before.host.serve, ToAdd(current, dm), PathsToRemove(current, dm), ToAdd(current, dm).Keys,
                       e.name)
    ensures var dm := DesiredMap(desired);
            var toAdd := ToAdd(current, dm);
            At(after.host.serve, e) ==
              if IsTarget(toAdd, e) then
                if KeyOf(e) in PathsToRemove(current, dm) && e !in before.host.serve then None
                else if ServeAddArgs(toAdd[KeyOf(e)]).Success? then Some(ConfigOf(toAdd[KeyOf(e)])) else None
              else At(before.host.serve, e)
  {
    hide ToRemove, Readable, DesiredMap, ToAdd, PathsToRemove, Wiped, ConflictedNames;
    NothingRemoved(before.host);
    var dm := DesiredMap(desired);
    var toAdd := ToAdd(current, dm);
    assert RemoveNames(map[]) == {};
    assert Progress(before.host.serve, toAdd, PathsToRemove(current, dm), toAdd.Keys, after.host.serve);
    assert EntryOk(before.host.serve, toAdd, PathsToRemove(current, dm), toAdd.Keys, after.host.serve, e);
  }

  /** A cycle that starts within the goal adds exactly what is missing and removes nothing. */
  lemma CycleWithinGoal(
    desired: Services, ignored: set<string>, start: ServeMap, goal: ServeMap, current: Current,
    before: Moment, after: Moment, e: Endpoint)
    requires WellPosed(desired, ignored, start, goal) && Within(before.host.serve, goal)
    requires CycleFrom(desired, ignored, current, before, after)
    ensures At(after.host.serve, e) ==
            if IsDesired(desired, e) then Some(DesiredConfig(desired, e)) else At(before.host.serve, e)
  {
    CycleFacts(desired, ignored, current, before, after);
    WithinIsTidy(desired, ignored, start, goal, before.host.serve);
    hide CycleFrom, Readable, LegibleWhereKept, PathsToRemove, Wiped, ConflictedNames, DesiredMap, Tidy, IsGoal,
         ToRemove;
    NothingStale(desired, ignored, before.host.serve, current);
    NoClashes(desired, ignored, start, goal, before.host.serve, current, e.name);
    QuietCycleEntry(desired, ignored, current, before, after, e);
    if IsDesired(desired, e) {
      OnlyAbsentAdded(desired, ignored, start, goal, before.host.serve, current, e);
      GoalHoldsDesired(desired, ignored, start, goal, e);
    } else if IsTarget(ToAdd(current, DesiredMap(desired)), e) {
      TargetIsDesired(desired, current, e);
    }
  }

  lemma GoalHoldsDesired(desired: Services, ignored: set<string>, start: ServeMap, goal: ServeMap, e: Endpoint)
    requires WellPosed(desired, ignored, start, goal) && IsDesired(desired, e)
    ensures e in goal && goal[e] == DesiredConfig(desired, e)
    ensures ServeAddArgs(DesiredMap(desired)[KeyOf(e)]).Success?
  {
    assert ValidService(DesiredMap(desired)[KeyOf(e)]);
  }

  lemma CycleAdvertises(
    desired: Services, ignored: set<string>, start: ServeMap, goal: ServeMap, current: Current,
    before: Moment, after: Moment, e: Endpoint)
    requires WellPosed(desired, ignored, start, goal) && Within(before.host.serve, goal)
    requires CycleFrom(desired, ignored, current, before, after)
    requires IsDesired(desired, e) && Repairable(desired, ignored, e.name)
    ensures e.name in after.host.advertised
  {
    CycleFacts(desired, ignored, current, before, after);
    hide WellPosed, Within, ConflictedNames, DesiredMap, ToAdvertise, ToAdd, ToRemove, CycleFrom, Repairable, Readable;
    OnlyAbsentAdded(desired, ignored, start, goal, before.host.serve, current, e);
    if e !in before.host.serve {
      AddedIsAdvertised(desired, ignored, start, goal, current, before, after, KeyOf(e));
    } else {
      RepairedOrAdded(desired, ignored, start, goal, current, before.host, e);
      hide Tidy;
      WithinIsTidy(desired, ignored, start, goal, before.host.serve);
      NothingStale(desired, ignored, before.host.serve, current);
      AdvertisedStay(desired, ignored, current, before, after);
      if e.name in AddNames(ToAdd(current, DesiredMap(desired))) {
        var key := NameAdded(current, DesiredMap(desired), e.name);
        AddedIsAdvertised(desired, ignored, start, goal, current, before, after, key);
      }
    }
  }

  lemma NameAdded(current: Current, dm: Adds, name: string) returns (key: string)
    requires name in AddNames(ToAdd(current, dm))
    ensures key in ToAdd(current, dm) && key in dm && EndpointOf(dm[key]).name == name
  {
    var toAdd := ToAdd(current, dm);
    key :| key in toAdd && "svc:" + toAdd[key].serviceName == name;
  }

  lemma AdvertisedStay(desired: Services, ignored: set<string>, current: Current, before: Moment, after: Moment)
    requires CycleFrom(desired, ignored, current, before, after)
    requires ToRemove(current, DesiredMap(desired), ConflictedNames(desired), ignored) == map[]
    ensures before.host.advertised <= after.host.advertised
    ensures var dm, frozen := DesiredMap(desired), ConflictedNames(desired);
            ToAdvertise(current, dm, Some(before.host.advertised), frozen, ignored) <= after.host.advertised
  {
    NothingRemoved(before.host);
    hide DesiredMap, ConflictedNames, ToAdvertise, ToAdd, ToRemove, Readable, WithoutNames, Progress;
    assert RemoveNames(map[]) == {};
  }

  lemma RepairedOrAdded(
    desired: Services, ignored: set<string>, start: ServeMap, goal: ServeMap, current: Current, before: Host,
    e: Endpoint)
    requires WellPosed(desired, ignored, start, goal) && Within(before.serve, goal) && Readable(before.serve, current)
    requires e in before.serve && IsDesired(desired, e) && Repairable(desired, ignored, e.name)
    ensures var dm := DesiredMap(desired);
            || e.name in before.advertised
            || e.name in ToAdvertise(current, dm, Some(before.advertised), ConflictedNames(desired), ignored)
            || e.name in AddNames(ToAdd(current, dm))
  {
    hide Tidy, DesiredMap, ConflictedNames, ToAdvertise, NormalizeServiceName, LegibleAt, ReadingOf;
    WithinIsTidy(desired, ignored, start, goal, before.serve);
    NothingStale(desired, ignored, before.serve, current);
    OnlyAbsentAdded(desired, ignored, start, goal, before.serve, current, e);
    DesiredIsPlain(desired, e);
    TidyIsColonFree(desired, ignored, before.serve);
    ReadingHasKey(before.serve, current, e);
    hide WellPosed, Within, Readable, ServiceConfigChanged;
    if e.name !in before.advertised {
      MissingIsRepaired(current, DesiredMap(desired), before.advertised, ConflictedNames(desired), ignored, KeyOf(e));
    }
  }

  lemma TidyIsColonFree(desired: Services, ignored: set<string>, serve: ServeMap)
    requires Tidy(desired, ignored, serve)
    ensures ColonFree(serve)
  {
  }

  lemma MissingIsRepaired(
    current: Current, dm: Adds, advertised: set<string>, frozen: set<string>, ignored: set<string>, key: string)
    requires key in dm && key in current && !NeedsAdd(current, key, dm[key])
    requires current[key].serviceName !in advertised
    requires NormalizeServiceName(current[key].serviceName) !in frozen && !IsIgnored(ignored, current[key].serviceName)
    requires ToRemove(current, dm, frozen, ignored) == map[]
    ensures var name := current[key].serviceName;
            name in ToAdvertise(current, dm, Some(advertised), frozen, ignored) || name in AddNames(ToAdd(current, dm))
  {
    hide NormalizeServiceName, ServiceConfigChanged, ToRemove, ToAdd;
    assert LacksAdvertisement(current, Some(advertised), frozen, ignored, key);
    assert RemoveNames(map[]) == {};
  }

  lemma AddedIsAdvertised(
    desired: Services, ignored: set<string>, start: ServeMap, goal: ServeMap, current: Current,
    before: Moment, after: Moment, key: string)
    requires WellPosed(desired, ignored, start, goal) && Within(before.host.serve, goal)
    requires CycleFrom(desired, ignored, current, before, after)
    requires key in ToAdd(current, DesiredMap(desired))
    ensures EndpointOf(DesiredMap(desired)[key]).name in after.host.advertised
  {
    var toAdd := ToAdd(current, DesiredMap(desired));
    EndpointIsDesired(desired, key);
    var e := EndpointOf(toAdd[key]);
    CycleWithinGoal(desired, ignored, start, goal, current, before, after, e);
    assert IsTarget(toAdd, e);
    hide WellPosed, Readable, Progress, Within, DesiredConfig, ToRemove, ToAdvertise;
  }

  /** Everything desired was put in place and nothing else was touched. */
  ghost predicate ServedOnTop(desired: Services, before: ServeMap, after: ServeMap)
    requires ValidDesired(desired)
  {
    forall e :: At(after, e) == if IsDesired(desired, e) then Some(DesiredConfig(desired, e)) else At(before, e)
  }

  lemma CycleServesOnTop(
    desired: Services, ignored: set<string>, start: ServeMap, goal: ServeMap, before: Moment, after: Moment)
    requires WellPosed(desired, ignored, start, goal) && Within(before.host.serve, goal)
    requires IsCycle(desired, ignored, before, after)
    ensures ServedOnTop(desired, before.host.serve, after.host.serve)
  {
    var current :| CycleFrom(desired, ignored, current, before, after);
    WellPosedFacts(desired, ignored, start, goal);
    hide CycleFrom, WellPosed, DesiredMap, IsDesired, DesiredConfig, Within, ValidDesired;
    forall e
      ensures At(after.host.serve, e) ==
              if IsDesired(desired, e) then Some(DesiredConfig(desired, e)) else At(before.host.serve, e)
    {
      CycleWithinGoal(desired, ignored, start, goal, current, before, after, e);
    }
  }

  lemma OnTopOfGoal(
    desired: Services, ignored: set<string>, start: ServeMap, goal: ServeMap, before: ServeMap, after: ServeMap,
    e: Endpoint)
    requires WellPosed(desired, ignored, start, goal) && Within(before, goal) && ServedOnTop(desired, before, after)
    ensures IsDesired(desired, e) ==> e in after
    ensures e in after ==> e in goal && after[e] == goal[e]
    ensures e in after <==> e in before || e in DesiredEndpoints(desired)
  {
    hide IsDesired, LegibleWhereKept, DesiredMap, DesiredConfig;
    DesiredEndpointsAreDesired(desired, e);
    assert At(after, e) == if IsDesired(desired, e) then Some(DesiredConfig(desired, e)) else At(before, e);
    if IsDesired(desired, e) {
      GoalHoldsDesired(desired, ignored, start, goal, e);
    }
  }

  lemma CycleKeepsGoal(
    desired: Services, ignored: set<string>, start: ServeMap, goal: ServeMap, before: ServeMap, after: ServeMap)
    requires WellPosed(desired, ignored, start, goal) && Within(before, goal) && ServedOnTop(desired, before, after)
    ensures Within(after, goal) && AllServed(desired, after)
    ensures after.Keys == before.Keys + DesiredEndpoints(desired)
  {
    hide WellPosed, IsDesired, ServedOnTop, DesiredEndpoints;
    forall e
      ensures IsDesired(desired, e) ==> e in after
      ensures e in after ==> e in goal && after[e] == goal[e]
      ensures e in after <==> e in before || e in DesiredEndpoints(desired)
    {
      OnTopOfGoal(desired, ignored, start, goal, before, after, e);
    }
  }

  lemma CycleAdvertisesAll(
    desired: Services, ignored: set<string>, start: ServeMap, goal: ServeMap, before: Moment, after: Moment)
    requires WellPosed(desired, ignored, start, goal) && Within(before.host.serve, goal)
    requires IsCycle(desired, ignored, before, after)
    ensures AllAdvertised(desired, ignored, after.host.advertised)
  {
    var current :| CycleFrom(desired, ignored, current, before, after);
    hide CycleFrom, WellPosed, Within, IsDesired, Repairable;
    forall e | IsDesired(desired, e) && Repairable(desired, ignored, e.name) ensures e.name in after.host.advertised {
      CycleAdvertises(desired, ignored, start, goal, current, before, after, e);
    }
  }

  /** From a state within the goal one cycle serves and advertises everything desired. */
  lemma SecondCycleSettles(
    desired: Services, ignored: set<string>, start: ServeMap, goal: ServeMap, before: Moment, after: Moment)
    requires WellPosed(desired, ignored, start, goal) && Within(before.host.serve, goal)
    requires IsCycle(desired, ignored, before, after)
    ensures Settled(desired, ignored, goal, after.host)
    ensures after.host.serve.Keys == before.host.serve.Keys + DesiredEndpoints(desired)
  {
    hide LegibleWhereKept, IsGoal, IsCycle, Within, AllServed, AllAdvertised;
    CycleServesOnTop(desired, ignored, start, goal, before, after);
    CycleKeepsGoal(desired, ignored, start, goal, before.host.serve, after.host.serve);
    CycleAdvertisesAll(desired, ignored, start, goal, before, after);
  }

  lemma DesiredEndpointsAreDesired(desired: Services, e: Endpoint)
    ensures IsDesired(desired, e) <==> e in DesiredEndpoints(desired)
  {
    if e in DesiredEndpoints(desired) {
      var key :| key in DesiredMap(desired) && e == EndpointOf(DesiredMap(desired)[key]);
      EndpointIsDesired(desired, key);
    }
  }

  lemma SettledPlansNothing(
    desired: Services, ignored: set<string>, start: ServeMap, goal: ServeMap, serve: ServeMap, current: Current)
    requires WellPosed(desired, ignored, start, goal) && Readable(serve, current)
    requires Within(serve, goal) && AllServed(desired, serve)
    ensures ToAdd(current, DesiredMap(desired)) == map[]
    ensures ToRemove(current, DesiredMap(desired), ConflictedNames(desired), ignored) == map[]
  {
    hide Tidy, DesiredMap, ConflictedNames, ToRemove, Readable;
    WithinIsTidy(desired, ignored, start, goal, serve);
    NothingStale(desired, ignored, serve, current);
    hide WellPosed;
    var toAdd := ToAdd(current, DesiredMap(desired));
    forall key ensures key !in toAdd {
      if key in DesiredMap(desired) {
        EndpointIsDesired(desired, key);
        OnlyAbsentAdded(desired, ignored, start, goal, serve, current, EndpointOf(DesiredMap(desired)[key]));
      }
    }
  }

  // ---- the goal ----

  /** The goal spelled out. */
  ghost function GoalOf(desired: Services, ignored: set<string>, start: ServeMap): ServeMap
    requires ValidDesired(desired)
  {
    map e | e in DesiredEndpoints(desired) + start.Keys &&
            (IsDesired(desired, e) || (Leftover(desired, ignored, e) && e in start)) ::
      if IsDesired(desired, e) then DesiredConfig(desired, e) else start[e]
  }

  lemma GoalOfAt(desired: Services, ignored: set<string>, start: ServeMap, e: Endpoint)
    requires ValidDesired(desired)
    ensures At(GoalOf(desired, ignored, start), e) ==
            if IsDesired(desired, e) then Some(DesiredConfig(desired, e))
            else if Leftover(desired, ignored, e) then At(start, e)
            else None
  {
    DesiredEndpointsAreDesired(desired, e);
    hide IsDesired, DesiredConfig, ValidDesired, Leftover, DesiredEndpoints;
  }

  lemma GoalAt(desired: Services, ignored: set<string>, start: ServeMap, goal: ServeMap, e: Endpoint)
    requires ValidDesired(desired) && IsGoal(desired, ignored, start, goal)
    ensures At(goal, e) == At(GoalOf(desired, ignored, start), e)
  {
    GoalOfAt(desired, ignored, start, e);
    DesiredIsNotLeftover(desired, ignored);
    hide IsDesired, DesiredConfig, ValidDesired, Leftover, GoalOf;
  }

  /** Every start has one goal, and only one. */
  lemma GoalIsUnique(desired: Services, ignored: set<string>, start: ServeMap, goal: ServeMap)
    requires ValidDesired(desired)
    ensures IsGoal(desired, ignored, start, goal) <==> goal == GoalOf(desired, ignored, start)
  {
    hide IsGoal, GoalOf, ValidDesired;
    GoalOfIsGoal(desired, ignored, start);
    if IsGoal(desired, ignored, start, goal) {
      var g := GoalOf(desired, ignored, start);
      forall e ensures At(goal, e) == At(g, e) {
        GoalAt(desired, ignored, start, goal, e);
      }
      SameEverywhere(goal, g);
    }
  }

  lemma GoalOfIsGoal(desired: Services, ignored: set<string>, start: ServeMap)
    requires ValidDesired(desired)
    ensures IsGoal(desired, ignored, start, GoalOf(desired, ignored, start))
  {
    var g := GoalOf(desired, ignored, start);
    DesiredIsNotLeftover(desired, ignored);
    hide IsDesired, DesiredConfig, ValidDesired, Leftover, GoalOf, DesiredEndpoints;
    forall e
      ensures e in g <==> IsDesired(desired, e) || (Leftover(desired, ignored, e) && e in start)
      ensures e in g ==> g[e] == if IsDesired(desired, e) then DesiredConfig(desired, e) else start[e]
    {
      GoalOfAt(desired, ignored, start, e);
    }
  }

  lemma SameEverywhere(a: ServeMap, b: ServeMap)
    requires forall e :: At(a, e) == At(b, e)
    ensures a == b
  {
    forall e ensures (e in a <==> e in b) && (e in a ==> a[e] == b[e]) {
      assert At(a, e) == At(b, e);
    }
  }

  lemma DesiredIsNotLeftover(desired: Services, ignored: set<string>)
    ensures forall e | IsDesired(desired, e) :: !Leftover(desired, ignored, e)
  {
  }

  // ---- repairing advertisements ----

  /** The services a drained-but-configured state is missing: those a repairing cycle advertises. */
  ghost function Unadvertised(desired: Services, ignored: set<string>, advertised: set<string>): set<string> {
    set key | key in DesiredMap(desired) && Repairable(desired, ignored, EndpointOf(DesiredMap(desired)[key]).name)
              && EndpointOf(DesiredMap(desired)[key]).name !in advertised :: EndpointOf(DesiredMap(desired)[key]).name
  }

  lemma MissingWhenServed(
    desired: Services, ignored: set<string>, start: ServeMap, goal: ServeMap, current: Current, host: Host)
    requires WellPosed(desired, ignored, start, goal) && Readable(host.serve, current)
    requires Within(host.serve, goal) && AllServed(desired, host.serve)
    ensures ToAdvertise(current, DesiredMap(desired), Some(host.advertised), ConflictedNames(desired), ignored) ==
            Unadvertised(desired, ignored, host.advertised)
  {
    SettledPlansNothing(desired, ignored, start, goal, host.serve, current);
    var dm := DesiredMap(desired);
    hide WellPosed, Within, DesiredMap, Readable, AllServed, NeedsAdd, ToAdd, ToRemove;
    forall key | key in dm
      ensures && key in current && current[key].serviceName == EndpointOf(dm[key]).name
              && !NeedsAdd(current, key, dm[key])
    {
      ServedDesired(desired, host.serve, goal, start, current, ignored, key);
    }
    MissingOfServed(current, dm, desired, host.advertised, ignored);
  }

  lemma MissingOfServed(
    current: Current, dm: Adds, desired: Services, advertised: set<string>, ignored: set<string>)
    requires dm == DesiredMap(desired)
    requires ToAdd(current, dm) == map[] && ToRemove(current, dm, ConflictedNames(desired), ignored) == map[]
    requires forall key | key in dm ::
               key in current && current[key].serviceName == EndpointOf(dm[key]).name
                 && !NeedsAdd(current, key, dm[key])
    ensures ToAdvertise(current, dm, Some(advertised), ConflictedNames(desired), ignored) ==
            Unadvertised(desired, ignored, advertised)
  {
    hide DesiredMap, ConflictedNames, ToRemove, ToAdd, NormalizeServiceName, NeedsAdd, EndpointOf;
    assert AddNames(map[]) == {} && RemoveNames(map[]) == {};
    forall key | key in dm
      ensures LacksAdvertisement(current, Some(advertised), ConflictedNames(desired), ignored, key) <==>
              Repairable(desired, ignored, EndpointOf(dm[key]).name) && EndpointOf(dm[key]).name !in advertised
    {
    }
  }

  lemma ServedDesired(
    desired: Services, serve: ServeMap, goal: ServeMap, start: ServeMap, current: Current, ignored: set<string>,
    key: string)
    requires WellPosed(desired, ignored, start, goal) && Within(serve, goal) && AllServed(desired, serve)
    requires Readable(serve, current) && key in DesiredMap(desired)
    ensures var dm := DesiredMap(desired);
            && key in current && current[key].serviceName == EndpointOf(dm[key]).name
            && !NeedsAdd(current, key, dm[key])
  {
    hide Tidy, DesiredMap, ServiceConfigChanged, ReadingOf;
    WithinIsTidy(desired, ignored, start, goal, serve);
    TidyIsColonFree(desired, ignored, serve);
    EndpointIsDesired(desired, key);
    var e := EndpointOf(DesiredMap(desired)[key]);
    DesiredIsPlain(desired, e);
    ReadingHasKey(serve, current, e);
    OnlyAbsentAdded(desired, ignored, start, goal, serve, current, e);
    hide WellPosed, Within, Readable;
  }

  /**
   * A service left drained but configured, as an interrupted cleanup leaves it, gets its
   * advertisement back in one cycle: no endpoint is rewritten, and the only commands are one
   * `advertise` for each missing service.
   */
  lemma DrainedStateIsRepaired(
    desired: Services, ignored: set<string>, start: ServeMap, goal: ServeMap, before: Moment, after: Moment)
    requires WellPosed(desired, ignored, start, goal)
    requires Within(before.host.serve, goal) && AllServed(desired, before.host.serve)
    requires IsCycle(desired, ignored, before, after)
    ensures var names := Unadvertised(desired, ignored, before.host.advertised);
            && after.host == Host(before.host.serve, before.host.advertised + names)
            && OnlyAdvertises(before.log, after.log, names)
    ensures Settled(desired, ignored, goal, after.host)
  {
    var current :| CycleFrom(desired, ignored, current, before, after);
    CycleFacts(desired, ignored, current, before, after);
    hide CycleFrom, WellPosed, DesiredMap, ConflictedNames, Readable, Unadvertised, Settled, Within, AllServed,
         OnlyAdvertises;
    SettledPlansNothing(desired, ignored, start, goal, before.host.serve, current);
    MissingWhenServed(desired, ignored, start, goal, current, before.host);
    SecondCycleSettles(desired, ignored, start, goal, before, after);
    EmptyPlanOnlyAdvertises(desired, ignored, current, before, after);
  }

  /** A cycle with nothing to add and nothing to remove. */
  lemma EmptyPlanOnlyAdvertises(
    desired: Services, ignored: set<string>, current: Current, before: Moment, after: Moment)
    requires CycleFrom(desired, ignored, current, before, after)
    requires ToAdd(current, DesiredMap(desired)) == map[]
    requires ToRemove(current, DesiredMap(desired), ConflictedNames(desired), ignored) == map[]
    ensures var dm, frozen := DesiredMap(desired), ConflictedNames(desired);
            var names := ToAdvertise(current, dm, Some(before.host.advertised), frozen, ignored);
            && after.host == Host(before.host.serve, before.host.advertised + names)
            && OnlyAdvertises(before.log, after.log, names)
  {
    NothingRemoved(before.host);
    hide DesiredMap, ConflictedNames, ToRemove, ToAdd, Readable, ToAdvertise, OnlyAdvertises, Progress, WithoutNames;
    assert RemoveNames(map[]) == {};
    var dm, frozen := DesiredMap(desired), ConflictedNames(desired);
    var names := ToAdvertise(current, dm, Some(before.host.advertised), frozen, ignored);
    assert AdvertisedOk(before.host.advertised + names, map[], {}, after.host);
  }

  lemma NothingUnadvertised(desired: Services, ignored: set<string>, advertised: set<string>)
    requires AllAdvertised(desired, ignored, advertised)
    ensures Unadvertised(desired, ignored, advertised) == {}
  {
    hide Repairable;
    forall key | key in DesiredMap(desired) ensures IsDesired(desired, EndpointOf(DesiredMap(desired)[key])) {
      EndpointIsDesired(desired, key);
    }
    hide IsDesired, DesiredMap;
  }

  lemma NothingAdvertised(before: Moment, after: Moment)
    requires OnlyAdvertises(before.log, after.log, {})
    ensures after.log == before.log
  {
  }

  /** A settled state is left alone: no command is issued and nothing changes. */
  lemma SettledStays(
    desired: Services, ignored: set<string>, start: ServeMap, goal: ServeMap, before: Moment, after: Moment)
    requires WellPosed(desired, ignored, start, goal) && Settled(desired, ignored, goal, before.host)
    requires IsCycle(desired, ignored, before, after)
    ensures after == before
  {
    hide WellPosed, IsCycle, Within, AllServed, AllAdvertised, Unadvertised, OnlyAdvertises;
    DrainedStateIsRepaired(desired, ignored, start, goal, before, after);
    NothingUnadvertised(desired, ignored, before.host.advertised);
    NothingAdvertised(before, after);
    assert before.host.advertised + {} == before.host.advertised;
  }

  // ---- what a cycle keeps ----

  ghost predicate NamesDesired(desired: Services, name: string) {
    exists key | key in DesiredMap(desired) :: EndpointOf(DesiredMap(desired)[key]).name == name
  }

  /** Adding `svc` meets an endpoint of another kind whose mount is no other one, so that the service is cleared. */
  ghost predicate KindClash(serve: ServeMap, svc: ContainerService) {
    var e := EndpointOf(svc);
    && e in serve && KindOf(serve[e]) != svc.serviceProtocol
    && !(serve[e].Web? && PathOf(serve[e].handlers) != NormalizeServicePath(svc.servicePath))
  }

  /** An add to a port of the service `name` meets an endpoint of another kind and clears the service. */
  ghost predicate SiblingClash(desired: Services, serve: ServeMap, name: string) {
    exists key | key in DesiredMap(desired) ::
      EndpointOf(DesiredMap(desired)[key]).name == name && KindClash(serve, DesiredMap(desired)[key])
  }

  lemma ClashIsSiblingClash(desired: Services, serve: ServeMap, current: Current, removed: set<string>, key: string)
    requires ValidDesired(desired) && ColonFree(serve) && Readable(serve, current) && key in DesiredMap(desired)
    requires var e := EndpointOf(DesiredMap(desired)[key]); e.name !in removed && (e in serve ==> LegibleAt(serve, e))
    ensures var dm := DesiredMap(desired);
            var toAdd, paths := ToAdd(current, dm), PathsToRemove(current, dm);
            (key in toAdd && Clashes(WithoutNames(Host(serve, {}), removed).serve, toAdd, paths, key)) <==>
            KindClash(serve, dm[key])
  {
    var dm := DesiredMap(desired);
    var svc := dm[key];
    var e := EndpointOf(svc);
    EndpointIsDesired(desired, key);
    assert ValidService(svc);
    OthersStay(serve, removed, e);
    hide DesiredMap, Readable, LegibleAt, ValidDesired, ToAdd, PathsToRemove, WithoutNames, NormalizeServicePath,
         PathOf, EndpointOf, KindOf;
    ToAddTakesDesired(current, dm, key);
    if e in serve {
      OtherKindIsReAdded(desired, serve, current, key);
    }
  }

  lemma OthersStay(serve: ServeMap, removed: set<string>, e: Endpoint)
    requires e.name !in removed
    ensures At(WithoutNames(Host(serve, {}), removed).serve, e) == At(serve, e)
  {
  }

  lemma ToAddTakesDesired(current: Current, dm: Adds, key: string)
    requires key in dm
    ensures var toAdd := ToAdd(current, dm); key in toAdd ==> toAdd[key] == dm[key]
  {
  }

  /** An endpoint of another kind is to be re-added, with a path to remove first only if its mount differs. */
  lemma OtherKindIsReAdded(desired: Services, serve: ServeMap, current: Current, key: string)
    requires ValidDesired(desired) && ColonFree(serve) && Readable(serve, current) && key in DesiredMap(desired)
    requires var e := EndpointOf(DesiredMap(desired)[key]); e in serve && LegibleAt(serve, e)
    ensures var dm := DesiredMap(desired);
            var c := serve[EndpointOf(dm[key])];
            KindOf(c) != dm[key].serviceProtocol ==>
              && key in ToAdd(current, dm)
              && (key in PathsToRemove(current, dm) <==>
                    c.Web? && PathOf(c.handlers) != NormalizeServicePath(dm[key].servicePath))
  {
    var svc := DesiredMap(desired)[key];
    var e := EndpointOf(svc);
    EndpointIsDesired(desired, key);
    assert ValidService(svc);
    ReadingHasKey(serve, current, e);
    hide DesiredMap, ConfigOf, NormalizeServicePath, PathOf, Canonical, ValidService, ServiceConfigChanged, ColonFree;
    if KindOf(serve[e]) != svc.serviceProtocol {
      ReadsBackExactly(serve, e, current[key]);
      KindOfView(serve, e, svc);
      hide Readable, LegibleAt, ViewOf, KindOf;
      assert current[key] == ViewOf(e, serve[e]);
    }
  }

  lemma KindOfView(serve: ServeMap, e: Endpoint, svc: ContainerService)
    requires e in serve && Canonical(serve[e]) && ValidService(svc) && KindOf(serve[e]) != svc.serviceProtocol
    ensures ServiceConfigChanged(ViewOf(e, serve[e]), svc)
    ensures serve[e].Web? <==> IsHttp(ViewOf(e, serve[e]).protocol)
    ensures serve[e].Web? ==> NormalizeServicePath(ViewOf(e, serve[e]).path) == PathOf(serve[e].handlers)
  {
    ConfigOfIsCanonical(svc);
    ChangedMeansDifferentConfig(e, serve[e], svc);
    ViewTellsPathOff(serve, e, svc);
  }

  lemma KeptIsLegible(desired: Services, ignored: set<string>, serve: ServeMap, key: string)
    requires LegibleWhereKept(desired, ignored, serve) && key in DesiredMap(desired)
    ensures var e := EndpointOf(DesiredMap(desired)[key]);
            e in serve && !StaleName(desired, ignored, serve, e.name) ==> LegibleAt(serve, e)
  {
    hide StaleName, LegibleAt;
    EndpointIsDesired(desired, key);
  }

  lemma WipedMeansSiblingClash(
    desired: Services, ignored: set<string>, serve: ServeMap, current: Current, removed: set<string>, name: string)
    requires ValidDesired(desired) && LegibleWhereKept(desired, ignored, serve) && Readable(serve, current)
    requires name !in removed && !StaleName(desired, ignored, serve, name)
    ensures var dm := DesiredMap(desired);
            var toAdd, paths := ToAdd(current, dm), PathsToRemove(current, dm);
            Wiped(WithoutNames(Host(serve, {}), removed).serve, toAdd, paths, toAdd.Keys, name) <==>
            SiblingClash(desired, serve, name)
  {
    assert ColonFree(serve);
    hide LegibleWhereKept, LegibleAt, ValidDesired, DesiredMap, Readable, PathsToRemove, WithoutNames, KindClash,
         Clashes, StaleName;
    var dm := DesiredMap(desired);
    var toAdd, paths := ToAdd(current, dm), PathsToRemove(current, dm);
    var mid := WithoutNames(Host(serve, {}), removed).serve;
    forall key | key in dm && EndpointOf(dm[key]).name == name
      ensures (key in toAdd && Clashes(mid, toAdd, paths, key)) <==> KindClash(serve, dm[key])
    {
      KeptIsLegible(desired, ignored, serve, key);
      ClashIsSiblingClash(desired, serve, current, removed, key);
    }
  }

  /** What a cycle makes of an endpoint it does not add: gone with its service, wiped by a clash, or as it was. */
  lemma UntargetedAfterCycle(
    desired: Services, ignored: set<string>, current: Current, start: Moment, next: Moment, e: Endpoint)
    requires ValidDesired(desired) && LegibleWhereKept(desired, ignored, start.host.serve)
    requires CycleFrom(desired, ignored, current, start, next)
    requires !IsTarget(ToAdd(current, DesiredMap(desired)), e)
    ensures var serve := start.host.serve;
            At(next.host.serve, e) ==
            if StaleName(desired, ignored, serve, e.name) || SiblingClash(desired, serve, e.name)
            then None
            else At(serve, e)
  {
    var dm, frozen, serve := DesiredMap(desired), ConflictedNames(desired), start.host.serve;
    var toAdd, paths := ToAdd(current, dm), PathsToRemove(current, dm);
    var removed := RemoveNames(ToRemove(current, dm, frozen, ignored));
    var mid := WithoutNames(start.host, removed).serve;
    assert mid == WithoutNames(Host(serve, {}), removed).serve;
    assert Progress(mid, toAdd, paths, toAdd.Keys, next.host.serve) && Readable(serve, current) && ColonFree(serve);
    hide CycleFrom, LegibleWhereKept, DesiredMap, PathsToRemove, ToRemove, RemoveNames, Readable, StaleName,
         SiblingClash, Wiped, ToAdd, ValidDesired, ConflictedNames;
    assert EntryOk(mid, toAdd, paths, toAdd.Keys, next.host.serve, e);
    RemovedIffStale(desired, ignored, serve, current, e.name);
    if !StaleName(desired, ignored, serve, e.name) {
      WipedMeansSiblingClash(desired, ignored, serve, current, removed, e.name);
      OthersStay(serve, removed, e);
    } else {
      assert e !in mid;
    }
  }

  /**
   * The documentation promises that a contested endpoint is left exactly as it is served. With no
   * command failing, that holds if and only if no other port of the same service is about to be
   * re-added over an endpoint of another kind: that add clears the whole service. The same goes
   * for every entry of a contested or ignored service that is not itself desired.
   */
  lemma LeftoverKeptIffNoSiblingClash(
    desired: Services, ignored: set<string>, start: Moment, next: Moment, e: Endpoint)
    requires ValidDesired(desired) && LegibleWhereKept(desired, ignored, start.host.serve)
    requires IsCycle(desired, ignored, start, next)
    requires e in start.host.serve && Leftover(desired, ignored, e)
    ensures At(next.host.serve, e) ==
            if SiblingClash(desired, start.host.serve, e.name) then None else Some(start.host.serve[e])
  {
    var current :| CycleFrom(desired, ignored, current, start, next);
    NeitherMeansStale(desired, ignored, start.host.serve, e);
    assert !IsTarget(ToAdd(current, DesiredMap(desired)), e);
    hide CycleFrom, LegibleWhereKept, ValidDesired, SiblingClash, StaleName, Leftover;
    UntargetedAfterCycle(desired, ignored, current, start, next, e);
  }

  /**
   * Exactly when a contested endpoint stays as it is over a cycle without failures: its full name
   * must normalize to a frozen (or ignored) name, and no sibling add may clash. The first fails for
   * a declared name with leading white space or its own "svc:" prefix (see FreezesOwnName).
   */
  lemma ContestedKeptIff(desired: Services, ignored: set<string>, start: Moment, next: Moment, e: Endpoint)
    requires ValidDesired(desired) && LegibleWhereKept(desired, ignored, start.host.serve)
    requires IsCycle(desired, ignored, start, next)
    requires e in start.host.serve && IsManaged(e.name) && KeyOf(e) in Conflicts(desired)
    ensures At(next.host.serve, e) ==
            if !Repairable(desired, ignored, e.name) && !SiblingClash(desired, start.host.serve, e.name)
            then Some(start.host.serve[e]) else None
  {
    var current :| CycleFrom(desired, ignored, current, start, next);
    assert !IsTarget(ToAdd(current, DesiredMap(desired)), e);
    hide CycleFrom, LegibleWhereKept, ValidDesired, SiblingClash, Repairable, DesiredMap;
    UntargetedAfterCycle(desired, ignored, current, start, next, e);
  }

  /**
   * Exactly when a desired endpoint that is served as declared survives a cycle: no other port of its service
   * is stale, and none is re-added over another kind. Either takes the whole service down, and the endpoint, found
   * unchanged, is not put back before the next cycle.
   */
  lemma UnchangedKeptIff(desired: Services, ignored: set<string>, start: Moment, next: Moment, e: Endpoint)
    requires ValidDesired(desired) && LegibleWhereKept(desired, ignored, start.host.serve)
    requires IsCycle(desired, ignored, start, next)
    requires IsDesired(desired, e) && AsDeclared(desired, start.host.serve, e) && LegibleAt(start.host.serve, e)
    ensures var serve := start.host.serve;
            At(next.host.serve, e) ==
            if StaleName(desired, ignored, serve, e.name) || SiblingClash(desired, serve, e.name) then None
            else Some(serve[e])
  {
    var current :| CycleFrom(desired, ignored, current, start, next);
    CycleFacts(desired, ignored, current, start, next);
    NeedsAddMeansDifferent(desired, start.host.serve, current, e);
    hide NeedsAdd, LegibleAt, DesiredConfig;
    assert !IsTarget(ToAdd(current, DesiredMap(desired)), e);
    hide CycleFrom, LegibleWhereKept, ValidDesired, SiblingClash, StaleName, IsDesired;
    UntargetedAfterCycle(desired, ignored, current, start, next, e);
  }

  // ---- the results ----

  /**
   * For one desired list and a daemon without faults, from any well-posed start: after two cycles
   * everything desired is served exactly as declared and advertised, nothing is left that a cycle
   * may remove, and a third cycle issues no command at all.
   */
  lemma ConvergesInTwoCycles(
    desired: Services, ignored: set<string>, goal: ServeMap, m0: Moment, m1: Moment, m2: Moment, m3: Moment)
    requires WellPosed(desired, ignored, m0.host.serve, goal)
    requires IsCycle(desired, ignored, m0, m1) && IsCycle(desired, ignored, m1, m2) && IsCycle(desired, ignored, m2, m3)
    ensures Settled(desired, ignored, goal, m2.host) && m3 == m2
  {
    hide IsCycle, WellPosed, Settled;
    FirstCycleClears(desired, ignored, m0, m1, goal);
    SecondCycleSettles(desired, ignored, m0.host.serve, goal, m1, m2);
    SettledStays(desired, ignored, m0.host.serve, goal, m2, m3);
  }

  /** With no contested and no ignored service among the desired ones, two cycles reach the goal exactly. */
  lemma TwoCyclesReachGoal(desired: Services, ignored: set<string>, goal: ServeMap, m0: Moment, m1: Moment, m2: Moment)
    requires WellPosed(desired, ignored, m0.host.serve, goal)
    requires IsCycle(desired, ignored, m0, m1) && IsCycle(desired, ignored, m1, m2)
    requires forall name | NamesDesired(desired, name) :: Repairable(desired, ignored, name)
    ensures m2.host.serve == goal
  {
    hide IsCycle, WellPosed, DesiredEndpoints, Repairable;
    FirstCycleClears(desired, ignored, m0, m1, goal);
    SecondCycleSettles(desired, ignored, m0.host.serve, goal, m1, m2);
    hide AllServed, AllAdvertised;
    forall e | e in goal ensures e in m1.host.serve || e in DesiredEndpoints(desired) {
      GoalEntryReached(desired, ignored, goal, m0, m1, e);
    }
  }

  lemma GoalEntryReached(
    desired: Services, ignored: set<string>, goal: ServeMap, start: Moment, next: Moment, e: Endpoint)
    requires WellPosed(desired, ignored, start.host.serve, goal) && e in goal
    requires IsCycle(desired, ignored, start, next)
    requires forall name | NamesDesired(desired, name) :: Repairable(desired, ignored, name)
    ensures e in next.host.serve || e in DesiredEndpoints(desired)
  {
    hide IsCycle, LegibleWhereKept, IsDesired, Leftover, DesiredEndpoints, ValidDesired;
    if IsDesired(desired, e) {
      DesiredEndpointsAreDesired(desired, e);
    } else {
      LeftoverSurvives(desired, ignored, start, next, e);
    }
  }

  lemma LeftoverSurvives(desired: Services, ignored: set<string>, start: Moment, next: Moment, e: Endpoint)
    requires ValidDesired(desired) && LegibleWhereKept(desired, ignored, start.host.serve)
    requires IsCycle(desired, ignored, start, next)
    requires e in start.host.serve && Leftover(desired, ignored, e)
    requires forall name | NamesDesired(desired, name) :: Repairable(desired, ignored, name)
    ensures e in next.host.serve
  {
    hide IsCycle, LegibleWhereKept, ValidDesired, SiblingClash, NamesDesired, Repairable;
    LeftoverKeptIffNoSiblingClash(desired, ignored, start, next, e);
    ClashNamesDesired(desired, start.host.serve, e.name);
  }

  lemma ClashNamesDesired(desired: Services, serve: ServeMap, name: string)
    ensures SiblingClash(desired, serve, name) ==> NamesDesired(desired, name) && IsManaged(name)
  {
    if SiblingClash(desired, serve, name) {
      var key :| key in DesiredMap(desired) && EndpointOf(DesiredMap(desired)[key]).name == name;
      EndpointIsDesired(desired, key);
    }
  }

  /** The reconcile loop over an unchanging desired list. */
  method RunCycles(client: Client, desired: Services, n: nat, ghost goal: ServeMap)
    requires !client.daemon.faulty && PlainHost(client.daemon.webHost)
    requires WellPosed(desired, client.ignoredServices, client.daemon.host.serve, goal) && client.funnels.Valid()
    modifies client.daemon, client.api`definitions, client.api`writes, client.funnels, client.funnels.node
    ensures n >= 2 ==> Settled(desired, client.ignoredServices, goal, client.daemon.host)
    ensures Settled(desired, client.ignoredServices, goal, old(client.daemon.host)) ==>
              client.Now() == old(client.Now())
  {
    ghost var start, ignored := client.Now(), client.ignoredServices;
    hide IsCycle, Settled, Guarded, IsGoal, ValidDesired, LegibleWhereKept, Within;
    for i := 0 to n
      invariant client.funnels.Valid() && (i == 0 ==> client.Now() == start)
      invariant i >= 1 ==> Within(client.daemon.host.serve, goal)
      invariant i >= 2 ==> Settled(desired, ignored, goal, client.daemon.host)
      invariant Settled(desired, ignored, goal, start.host) ==> client.Now() == start
    {
      ghost var before := client.Now();
      if i > 0 {
        WithinIsLegible(desired, ignored, start.host.serve, goal, before.host.serve);
      }
      var _, _, _ := client.ReconcileServices(desired);
      LoopStep(desired, ignored, start, goal, before, client.Now());
    }
  }

  lemma WithinIsLegible(desired: Services, ignored: set<string>, start: ServeMap, goal: ServeMap, serve: ServeMap)
    requires WellPosed(desired, ignored, start, goal) && Within(serve, goal)
    ensures LegibleWhereKept(desired, ignored, serve)
  {
    WithinIsTidy(desired, ignored, start, goal, serve);
    hide WellPosed, Within, LegibleAt, StaleName;
  }

  lemma LoopStep(
    desired: Services, ignored: set<string>, start: Moment, goal: ServeMap, before: Moment, after: Moment)
    requires WellPosed(desired, ignored, start.host.serve, goal) && IsCycle(desired, ignored, before, after)
    requires before == start || Within(before.host.serve, goal)
    ensures Within(after.host.serve, goal)
    ensures Within(before.host.serve, goal) ==> Settled(desired, ignored, goal, after.host)
    ensures Settled(desired, ignored, goal, before.host) ==> after == before
  {
    hide WellPosed, IsCycle, AllServed, AllAdvertised;
    if Within(before.host.serve, goal) {
      SecondCycleSettles(desired, ignored, start.host.serve, goal, before, after);
    } else {
      FirstCycleClears(desired, ignored, before, after, goal);
    }
    if Settled(desired, ignored, goal, before.host) {
      SettledStays(desired, ignored, start.host.serve, goal, before, after);
    }
  }
}
