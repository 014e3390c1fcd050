/** One reconcile cycle: plan from what was read, then issue the commands. */
module Reconcile {
  import opened Types
  import opened Serve
  import opened AddPhase

  type Current = map<string, ServiceEndpoint>

  predicate IsIgnored(ignored: set<string>, serviceName: string) {
    NormalizeServiceName(serviceName) in ignored
  }

  // ---- what a cycle decides, given what it read ----

  predicate NeedsAdd(current: Current, key: string, svc: ContainerService) {
    key !in current || ServiceConfigChanged(current[key], svc)
  }

  predicate NeedsPathOff(current: Current, key: string, svc: ContainerService) {
    && key in current && NeedsAdd(current, key, svc) && IsHttp(current[key].protocol)
    && NormalizeServicePath(current[key].path) != NormalizeServicePath(svc.servicePath)
  }

  function ToAdd(current: Current, desiredMap: Adds): Adds {
    map key | key in desiredMap && NeedsAdd(current, key, desiredMap[key]) :: desiredMap[key]
  }

  function PathsToRemove(current: Current, desiredMap: Adds): Paths {
    map key | key in desiredMap && NeedsPathOff(current, key, desiredMap[key]) :: current[key]
  }

  predicate IsStale(current: Current, desiredMap: Adds, frozen: set<string>, ignored: set<string>, key: string) {
    && key in current && key !in desiredMap
    && NormalizeServiceName(current[key].serviceName) !in frozen
    && !IsIgnored(ignored, current[key].serviceName)
  }

  function ToRemove(current: Current, desiredMap: Adds, frozen: set<string>, ignored: set<string>): Current {
    map key | key in current && IsStale(current, desiredMap, frozen, ignored, key) :: current[key]
  }

  predicate LacksAdvertisement(
    current: Current, advertised: Option<set<string>>, frozen: set<string>, ignored: set<string>, key: string)
    requires key in current
  {
    var name := current[key].serviceName;
    && advertised.Some? && name !in advertised.value
    && NormalizeServiceName(name) !in frozen && !IsIgnored(ignored, name)
  }

  function MissingAdvertisements(
    current: Current, desiredMap: Adds, advertised: Option<set<string>>, frozen: set<string>,
    ignored: set<string>): set<string>
  {
    set key | key in desiredMap && !NeedsAdd(current, key, desiredMap[key]) &&
              LacksAdvertisement(current, advertised, frozen, ignored, key) :: current[key].serviceName
  }

  function AddNames(toAdd: Adds): set<string> {
    set key | key in toAdd :: "svc:" + toAdd[key].serviceName
  }

  function RemoveNames(toRemove: Current): set<string> {
    set key | key in toRemove :: toRemove[key].serviceName
  }

  function ToAdvertise(
    current: Current, desiredMap: Adds, advertised: Option<set<string>>, frozen: set<string>,
    ignored: set<string>): set<string>
  {
    MissingAdvertisements(current, desiredMap, advertised, frozen, ignored)
    - AddNames(ToAdd(current, desiredMap)) - RemoveNames(ToRemove(current, desiredMap, frozen, ignored))
  }

  // ---- filling the plan ----

  method PlanAdds(
    current: Current, desiredMap: Adds, advertised: Option<set<string>>, frozen: set<string>, ignored: set<string>)
    returns (toAdd: Adds, pathsToRemove: Paths, toAdvertise: set<string>)
    ensures toAdd == ToAdd(current, desiredMap)
    ensures pathsToRemove == PathsToRemove(current, desiredMap)
    ensures toAdvertise == MissingAdvertisements(current, desiredMap, advertised, frozen, ignored)
  {
    toAdd, pathsToRemove, toAdvertise := map[], map[], {};
    var todo := desiredMap.Keys;
    while todo != {}
      invariant todo <= desiredMap.Keys
      invariant toAdd == ToAdd(current, desiredMap - todo)
      invariant pathsToRemove == PathsToRemove(current, desiredMap - todo)
      invariant toAdvertise == MissingAdvertisements(current, desiredMap - todo, advertised, frozen, ignored)
    {
      var key :| key in todo;
      PlanStep(current, desiredMap, advertised, frozen, ignored, todo, key);
      todo := todo - {key};
      var svc := desiredMap[key];
      if key !in current {
        toAdd := toAdd[key := svc];
      } else if ServiceConfigChanged(current[key], svc) {
        toAdd := toAdd[key := svc];
        if IsHttp(current[key].protocol) &&
           NormalizeServicePath(current[key].path) != NormalizeServicePath(svc.servicePath)
        {
          pathsToRemove := pathsToRemove[key := current[key]];
        }
      } else if LacksAdvertisement(current, advertised, frozen, ignored, key) {
        toAdvertise := toAdvertise + {current[key].serviceName};
      }
    }
    assert desiredMap - {} == desiredMap;
  }

  lemma PlanStep(
    current: Current, desiredMap: Adds, advertised: Option<set<string>>, frozen: set<string>, ignored: set<string>,
    todo: set<string>, key: string)
    requires todo <= desiredMap.Keys && key in todo
    ensures var before, after, svc := desiredMap - todo, desiredMap - (todo - {key}), desiredMap[key];
            && ToAdd(current, after) ==
               (if NeedsAdd(current, key, svc) then ToAdd(current, before)[key := svc] else ToAdd(current, before))
            && PathsToRemove(current, after) ==
               (if NeedsPathOff(current, key, svc) then PathsToRemove(current, before)[key := current[key]]
                else PathsToRemove(current, before))
            && MissingAdvertisements(current, after, advertised, frozen, ignored) ==
               MissingAdvertisements(current, before, advertised, frozen, ignored) +
               (if !NeedsAdd(current, key, svc) && LacksAdvertisement(current, advertised, frozen, ignored, key)
                then {current[key].serviceName} else {})
  {
    hide NeedsAdd, NeedsPathOff, LacksAdvertisement;
    var before, after := desiredMap - todo, desiredMap - (todo - {key});
    assert after == before[key := desiredMap[key]];
    OneMoreAdd(current, before, key, desiredMap[key]);
    OneMoreRepair(current, before, advertised, frozen, ignored, key, desiredMap[key]);
    hide ToAdd, PathsToRemove, MissingAdvertisements;
  }

  lemma OneMoreAdd(current: Current, before: Adds, key: string, svc: ContainerService)
    requires key !in before
    ensures ToAdd(current, before[key := svc]) ==
            if NeedsAdd(current, key, svc) then ToAdd(current, before)[key := svc] else ToAdd(current, before)
    ensures PathsToRemove(current, before[key := svc]) ==
            if NeedsPathOff(current, key, svc) then PathsToRemove(current, before)[key := current[key]]
            else PathsToRemove(current, before)
  {
    hide NeedsAdd, ServiceConfigChanged, NormalizeServicePath;
  }

  lemma OneMoreRepair(
    current: Current, before: Adds, advertised: Option<set<string>>, frozen: set<string>, ignored: set<string>,
    key: string, svc: ContainerService)
    requires key !in before
    ensures MissingAdvertisements(current, before[key := svc], advertised, frozen, ignored) ==
            MissingAdvertisements(current, before, advertised, frozen, ignored) +
            if !NeedsAdd(current, key, svc) && LacksAdvertisement(current, advertised, frozen, ignored, key)
            then {current[key].serviceName} else {}
  {
    hide ServiceConfigChanged, LacksAdvertisement;
  }

  method PlanRemovals(
    current: Current, desiredMap: Adds, frozen: set<string>, ignored: set<string>)
    returns (toRemove: Current)
    ensures toRemove == ToRemove(current, desiredMap, frozen, ignored)
  {
    hide NormalizeServiceName;
    toRemove := map[];
    var todo := current.Keys;
    while todo != {}
      invariant todo <= current.Keys
      invariant toRemove == map key | key in current && key !in todo &&
                                      IsStale(current, desiredMap, frozen, ignored, key) :: current[key]
    {
      var key :| key in todo;
      todo := todo - {key};
      if NormalizeServiceName(current[key].serviceName) !in frozen && key !in desiredMap {
        if !IsIgnored(ignored, current[key].serviceName) {
          toRemove := toRemove[key := current[key]];
        }
      }
    }
  }
}
