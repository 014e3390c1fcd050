/** Indexing the label-declared services by endpoint, without letting anybody win a contested one. */
module Desired {
  import opened Types
  import opened Serve

  predicate ClaimsKey(svc: ContainerService, key: string) {
    svc.serviceEnabled && DesiredServiceKey(svc) == key
  }

  /** The enabled services declaring `key`, in list order. */
  function Claims(desired: seq<ContainerService>, key: string): (r: seq<ContainerService>)
    ensures forall svc | svc in r :: svc in desired && ClaimsKey(svc, key)
    ensures |r| > 0 <==> exists svc :: svc in desired && ClaimsKey(svc, key)
  {
    if desired == [] then []
    else
      var rest, last := Claims(desired[..|desired| - 1], key), desired[|desired| - 1];
      assert forall svc | svc in desired :: svc == last || svc in desired[..|desired| - 1];
      if ClaimsKey(last, key) then
        assert last in desired;
        rest + [last]
      else rest
  }

  function ContainerNames(services: seq<ContainerService>): (r: seq<string>)
    ensures |r| == |services|
  {
    seq(|services|, i requires 0 <= i < |services| => services[i].containerName)
  }

  function Keys(desired: seq<ContainerService>): set<string> {
    set svc | svc in desired && svc.serviceEnabled :: DesiredServiceKey(svc)
  }

  /** The endpoints exactly one container claims, with that claim. */
  function DesiredMap(desired: seq<ContainerService>): map<string, ContainerService> {
    map key | key in Keys(desired) && |Claims(desired, key)| == 1 :: Claims(desired, key)[0]
  }

  /** The endpoints several containers claim, with the claimants' names. */
  function Conflicts(desired: seq<ContainerService>): map<string, seq<string>> {
    map key | key in Keys(desired) && |Claims(desired, key)| > 1 :: ContainerNames(Claims(desired, key))
  }

  /** The normalized names of the services some conflicting endpoint belongs to. */
  function ConflictedNames(desired: seq<ContainerService>): set<string> {
    set svc | svc in desired && svc.serviceEnabled && DesiredServiceKey(svc) in Conflicts(desired) ::
      NormalizeServiceName(svc.serviceName)
  }

  lemma ClaimsStep(desired: seq<ContainerService>, i: nat, key: string)
    requires i < |desired|
    ensures Claims(desired[..i + 1], key) ==
            Claims(desired[..i], key) + if ClaimsKey(desired[i], key) then [desired[i]] else []
  {
    assert desired[..i + 1][..i] == desired[..i];
  }

  lemma KeysAreClaimed(desired: seq<ContainerService>, key: string)
    ensures key in Keys(desired) <==> |Claims(desired, key)| > 0
  {
    if key in Keys(desired) {
      var svc :| svc in desired && svc.serviceEnabled && DesiredServiceKey(svc) == key;
      assert ClaimsKey(svc, key);
    }
  }

  ghost predicate CollectedAt(
    desired: seq<ContainerService>, latest: map<string, ContainerService>, claimants: map<string, seq<string>>,
    key: string)
  {
    var claims := Claims(desired, key);
    if |claims| == 0 then key !in latest && key !in claimants
    else
      && key in latest && latest[key] == claims[|claims| - 1]
      && key in claimants && claimants[key] == ContainerNames(claims)
  }

  ghost predicate Collected(
    desired: seq<ContainerService>, latest: map<string, ContainerService>, claimants: map<string, seq<string>>)
  {
    forall key :: CollectedAt(desired, latest, claimants, key)
  }

  function NamesAt(claimants: map<string, seq<string>>, key: string): seq<string> {
    if key in claimants then claimants[key] else []
  }

  lemma CollectStep(
    desired: seq<ContainerService>, i: nat, latest: map<string, ContainerService>, claimants: map<string, seq<string>>)
    requires i < |desired| && Collected(desired[..i], latest, claimants)
    ensures !desired[i].serviceEnabled ==> Collected(desired[..i + 1], latest, claimants)
    ensures desired[i].serviceEnabled ==>
              var key := DesiredServiceKey(desired[i]);
              Collected(desired[..i + 1], latest[key := desired[i]],
                        claimants[key := NamesAt(claimants, key) + [desired[i].containerName]])
  {
    var svc := desired[i];
    var own := DesiredServiceKey(svc);
    var more := desired[..i + 1];
    var latest', claimants' := latest[own := svc], claimants[own := NamesAt(claimants, own) + [svc.containerName]];
    forall key
      ensures !svc.serviceEnabled ==> CollectedAt(more, latest, claimants, key)
      ensures svc.serviceEnabled ==> CollectedAt(more, latest', claimants', key)
    {
      hide CollectedAt, Claims, ClaimsKey, DesiredServiceKey, NamesAt;
      assert CollectedAt(desired[..i], latest, claimants, key);
      CollectStepAt(desired, i, latest, claimants, key);
    }
  }

  lemma CollectStepAt(
    desired: seq<ContainerService>, i: nat, latest: map<string, ContainerService>, claimants: map<string, seq<string>>,
    key: string)
    requires i < |desired| && CollectedAt(desired[..i], latest, claimants, key)
    ensures !desired[i].serviceEnabled ==> CollectedAt(desired[..i + 1], latest, claimants, key)
    ensures desired[i].serviceEnabled ==>
              var own := DesiredServiceKey(desired[i]);
              CollectedAt(desired[..i + 1], latest[own := desired[i]],
                          claimants[own := NamesAt(claimants, own) + [desired[i].containerName]], key)
  {
    hide Claims, DesiredServiceKey, ContainerNames;
    var svc, claims := desired[i], Claims(desired[..i], key);
    ClaimsStep(desired, i, key);
    assert Claims(desired[..i + 1], key) == if ClaimsKey(svc, key) then claims + [svc] else claims;
    NamesStep(claims, svc);
  }

  lemma NamesStep(claims: seq<ContainerService>, svc: ContainerService)
    ensures ContainerNames(claims + [svc]) == ContainerNames(claims) + [svc.containerName]
    ensures claims == [] ==> ContainerNames(claims) == []
  {
  }

  method BuildDesiredServiceMap(desired: seq<ContainerService>)
    returns (desiredMap: map<string, ContainerService>, conflicts: map<string, seq<string>>)
    ensures desiredMap == DesiredMap(desired) && conflicts == Conflicts(desired)
  {
    desiredMap := map[];
    var claimants: map<string, seq<string>> := map[];
    for i := 0 to |desired|
      invariant Collected(desired[..i], desiredMap, claimants)
    {
      CollectStep(desired, i, desiredMap, claimants);
      var svc := desired[i];
      if svc.serviceEnabled {
        var key := DesiredServiceKey(svc);
        desiredMap := desiredMap[key := svc];
        claimants := claimants[key := NamesAt(claimants, key) + [svc.containerName]];
      }
    }
    assert desired[..|desired|] == desired;
    desiredMap, conflicts := DropContested(desired, desiredMap, claimants);
  }

  method DropContested(
    ghost desired: seq<ContainerService>, latest: map<string, ContainerService>, claimants: map<string, seq<string>>)
    returns (desiredMap: map<string, ContainerService>, conflicts: map<string, seq<string>>)
    requires Collected(desired, latest, claimants)
    ensures desiredMap == DesiredMap(desired) && conflicts == Conflicts(desired)
  {
    hide Collected, Sifted, DesiredMap, Conflicts;
    desiredMap, conflicts := latest, map[];
    ghost var done: set<string> := {};
    var todo := claimants.Keys;
    NothingSifted(latest, claimants);
    while todo != {}
      invariant claimants.Keys == done + todo
      invariant Sifted(latest, claimants, done, desiredMap, conflicts)
    {
      var key :| key in todo;
      SiftOne(latest, claimants, done, desiredMap, conflicts, key);
      todo, done := todo - {key}, done + {key};
      if |claimants[key]| > 1 {
        conflicts := conflicts[key := claimants[key]];
        desiredMap := desiredMap - {key};
      }
    }
    assert done == claimants.Keys;
    Separated(desired, latest, claimants, desiredMap, conflicts);
  }

  /** Of the keys in `done`, those with several claimants have moved to the conflicts. */
  ghost predicate Sifted(
    latest: map<string, ContainerService>, claimants: map<string, seq<string>>, done: set<string>,
    desiredMap: map<string, ContainerService>, conflicts: map<string, seq<string>>)
  {
    && (forall key :: key in conflicts <==> key in done && key in claimants && |claimants[key]| > 1)
    && (forall key | key in conflicts && key in claimants :: conflicts[key] == claimants[key])
    && (forall key :: key in desiredMap <==> key in latest && key !in conflicts)
    && (forall key | key in desiredMap && key in latest :: desiredMap[key] == latest[key])
  }

  lemma NothingSifted(latest: map<string, ContainerService>, claimants: map<string, seq<string>>)
    ensures Sifted(latest, claimants, {}, latest, map[])
  {
  }

  lemma SiftOne(
    latest: map<string, ContainerService>, claimants: map<string, seq<string>>, done: set<string>,
    desiredMap: map<string, ContainerService>, conflicts: map<string, seq<string>>, key: string)
    requires Sifted(latest, claimants, done, desiredMap, conflicts) && key in claimants
    ensures if |claimants[key]| > 1
            then Sifted(latest, claimants, done + {key}, desiredMap - {key}, conflicts[key := claimants[key]])
            else Sifted(latest, claimants, done + {key}, desiredMap, conflicts)
  {
  }

  lemma Separated(
    desired: seq<ContainerService>, latest: map<string, ContainerService>, claimants: map<string, seq<string>>,
    desiredMap: map<string, ContainerService>, conflicts: map<string, seq<string>>)
    requires Collected(desired, latest, claimants) && Sifted(latest, claimants, claimants.Keys, desiredMap, conflicts)
    ensures desiredMap == DesiredMap(desired) && conflicts == Conflicts(desired)
  {
    hide Collected, Sifted, DesiredMap, Conflicts;
    forall key
      ensures key in desiredMap <==> key in DesiredMap(desired)
      ensures key in desiredMap ==> desiredMap[key] == DesiredMap(desired)[key]
      ensures key in conflicts <==> key in Conflicts(desired)
      ensures key in conflicts ==> conflicts[key] == Conflicts(desired)[key]
    {
      SeparatedAt(desired, latest, claimants, desiredMap, conflicts, key);
    }
  }

  lemma SeparatedAt(
    desired: seq<ContainerService>, latest: map<string, ContainerService>, claimants: map<string, seq<string>>,
    desiredMap: map<string, ContainerService>, conflicts: map<string, seq<string>>, key: string)
    requires Collected(desired, latest, claimants) && Sifted(latest, claimants, claimants.Keys, desiredMap, conflicts)
    ensures key in desiredMap <==> key in DesiredMap(desired)
    ensures key in desiredMap ==> desiredMap[key] == DesiredMap(desired)[key]
    ensures key in conflicts <==> key in Conflicts(desired)
    ensures key in conflicts ==> conflicts[key] == Conflicts(desired)[key]
  {
    hide Claims, Keys, ContainerNames;
    KeysAreClaimed(desired, key);
    assert CollectedAt(desired, latest, claimants, key);
    hide Collected;
  }

  lemma ClaimsCount(desired: seq<ContainerService>, key: string, svc: ContainerService)
    ensures multiset(Claims(desired, key))[svc] == if ClaimsKey(svc, key) then multiset(desired)[svc] else 0
  {
    if desired != [] {
      var rest, last := desired[..|desired| - 1], desired[|desired| - 1];
      ClaimsCount(rest, key, svc);
      assert desired == rest + [last];
    }
  }

  lemma ClaimsIgnoreOrder(a: seq<ContainerService>, b: seq<ContainerService>, key: string)
    requires multiset(a) == multiset(b)
    ensures |Claims(a, key)| == |Claims(b, key)|
    ensures |Claims(a, key)| == 1 ==> Claims(a, key) == Claims(b, key)
  {
    assert multiset(Claims(a, key)) == multiset(Claims(b, key)) by {
      forall svc ensures multiset(Claims(a, key))[svc] == multiset(Claims(b, key))[svc] {
        ClaimsCount(a, key, svc);
        ClaimsCount(b, key, svc);
      }
    }
    SingletonsAgree(Claims(a, key), Claims(b, key));
  }

  lemma SingletonsAgree<T>(x: seq<T>, y: seq<T>)
    requires multiset(x) == multiset(y)
    ensures |x| == |y|
    ensures |x| == 1 ==> x == y
  {
    assert |x| == |multiset(x)| && |y| == |multiset(y)|;
    if |x| == 1 {
      assert x[0] in multiset(x);
      assert x[0] in y;
    }
  }

  /**
   * Nobody wins a contested endpoint by where Docker lists it: reordering the containers
   * changes neither who is served nor what is in conflict.
   */
  lemma OrderNeverDecides(a: seq<ContainerService>, b: seq<ContainerService>)
    requires multiset(a) == multiset(b)
    ensures DesiredMap(a) == DesiredMap(b)
    ensures Conflicts(a).Keys == Conflicts(b).Keys
    ensures ConflictedNames(a) == ConflictedNames(b)
  {
    forall svc ensures svc in a <==> svc in b {
      assert svc in multiset(a) <==> svc in multiset(b);
    }
    assert Keys(a) == Keys(b);
    forall key
      ensures |Claims(a, key)| == |Claims(b, key)| && (|Claims(a, key)| == 1 ==> Claims(a, key) == Claims(b, key))
    {
      ClaimsIgnoreOrder(a, b, key);
    }
  }

  /** Every enabled declaration is accounted for: served alone, or in conflict, never both. */
  lemma EveryClaimIsServedOrContested(desired: seq<ContainerService>, svc: ContainerService)
    requires svc in desired && svc.serviceEnabled
    ensures var key := DesiredServiceKey(svc);
            && (key in DesiredMap(desired) <==> key !in Conflicts(desired))
            && (key in DesiredMap(desired) ==> DesiredMap(desired)[key] == svc)
            && (key in Conflicts(desired) <==> |Claims(desired, key)| >= 2)
  {
    var key := DesiredServiceKey(svc);
    assert ClaimsKey(svc, key);
    assert key in Keys(desired);
    if |Claims(desired, key)| == 1 {
      ClaimsCount(desired, key, svc);
      assert svc in multiset(Claims(desired, key));
    }
  }
}
