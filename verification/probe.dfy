/** Answering the cloud's control-plane probes without spending more API quota than allowed. */
module TailnetProbe {
  import opened Strings
  import opened Types

  const MAX_PROBE_SERVICES: nat := 512
  /** The least time between the starts of two control-plane sweeps, in milliseconds. */
  const MIN_PROBE_INTERVAL: int := 60_000

  datatype ProbeService = ProbeService(serviceKey: string, serviceName: string)

  function Considered(probed: seq<ProbeService>): (r: seq<ProbeService>)
    ensures r <= probed && (|r| == 512 || (r == probed && |r| < 512))
  {
    if |probed| > MAX_PROBE_SERVICES then probed[..MAX_PROBE_SERVICES] else probed
  }

  predicate Complete(svc: ProbeService) {
    TrimSpace(svc.serviceKey) != "" && TrimSpace(svc.serviceName) != ""
  }

  /** "myapp", "MyApp" and "svc:myapp" are one service. */
  function Identity(name: string): string {
    ToLower(TrimPrefix(name, "svc:"))
  }

  /** The name without an "svc:" in front. */
  ghost function Unprefixed(name: string): string {
    if |name| >= 4 && name[..4] == "svc:" then name[4..] else name
  }

  /** One letter, upper or lower case, or the same character. */
  ghost predicate SameLetter(a: char, b: char) {
    || a == b
    || ('A' <= a <= 'Z' && b as int == a as int - 'A' as int + 'a' as int)
    || ('A' <= b <= 'Z' && a as int == b as int - 'A' as int + 'a' as int)
  }

  ghost predicate SameUpToCase(a: string, b: string) {
    |a| == |b| && forall i | 0 <= i < |a| :: SameLetter(a[i], b[i])
  }

  /** Two names are one service if and only if they differ in an "svc:" in front and in letter case at most. */
  lemma OneServiceIff(a: string, b: string)
    ensures Identity(a) == Identity(b) <==> SameUpToCase(Unprefixed(a), Unprefixed(b))
  {
    var x, y := TrimPrefix(a, "svc:"), TrimPrefix(b, "svc:");
    assert x == Unprefixed(a) && y == Unprefixed(b);
    LowerIsSameLetter();
    hide LowerChar, SameLetter, TrimPrefix, Unprefixed;
    forall i | 0 <= i < |x| && i < |y| ensures ToLower(x)[i] == LowerChar(x[i]) && ToLower(y)[i] == LowerChar(y[i]) {
    }
    if ToLower(x) == ToLower(y) {
      forall i | 0 <= i < |x| ensures SameLetter(x[i], y[i]) {
        assert ToLower(x)[i] == ToLower(y)[i];
      }
    }
  }

  lemma LowerIsSameLetter()
    ensures forall a, b :: LowerChar(a) == LowerChar(b) <==> SameLetter(a, b)
  {
  }

  function IdentityOf(svc: ProbeService): string {
    Identity(TrimSpace(svc.serviceName))
  }

  /** The keys of the complete entries, in request order. */
  function ValidKeys(probed: seq<ProbeService>): seq<string> {
    if probed == [] then []
    else
      var rest, last := ValidKeys(probed[..|probed| - 1]), probed[|probed| - 1];
      if Complete(last) then rest + [TrimSpace(last.serviceKey)] else rest
  }

  type Groups = map<string, seq<string>>

  /** The keys of the given names, group by group. */
  function Flatten(names: seq<string>, keys: Groups): seq<string> {
    if names == [] then []
    else
      var last := names[|names| - 1];
      Flatten(names[..|names| - 1], keys) + if last in keys then keys[last] else []
  }

  ghost predicate DistinctIdentities(names: seq<string>) {
    forall i, j | 0 <= i < j < |names| :: Identity(names[i]) != Identity(names[j])
  }

  /** The entry's key is listed under the name of its own service. */
  ghost predicate HasGroup(names: seq<string>, keys: Groups, svc: ProbeService) {
    exists n | n in names && n in keys :: Identity(n) == IdentityOf(svc) && TrimSpace(svc.serviceKey) in keys[n]
  }

  ghost predicate Covers(probed: seq<ProbeService>, names: seq<string>, keys: Groups) {
    forall svc | svc in probed && Complete(svc) :: HasGroup(names, keys, svc)
  }

  ghost predicate Asked(probed: seq<ProbeService>, name: string) {
    exists svc | svc in probed :: Complete(svc) && TrimSpace(svc.serviceName) == name
  }

  /** Nothing is queried that was not asked for. */
  ghost predicate AskedFor(probed: seq<ProbeService>, names: seq<string>) {
    forall n | n in names :: Asked(probed, n)
  }

  /** The names to query and the keys each answers for. */
  ghost predicate Grouped(probed: seq<ProbeService>, names: seq<string>, keys: Groups) {
    && DistinctIdentities(names)
    && SameNames(names, keys)
    && Covers(probed, names, keys) && AskedFor(probed, names)
    && multiset(Flatten(names, keys)) == multiset(ValidKeys(probed))
  }

  ghost predicate Queried(names: seq<string>, queriedFor: map<string, string>) {
    && (forall id | id in queriedFor :: queriedFor[id] in names && Identity(queriedFor[id]) == id)
    && (forall n | n in names :: Identity(n) in queriedFor && queriedFor[Identity(n)] == n)
  }

  function KeysAt(keys: Groups, name: string): seq<string> {
    if name in keys then keys[name] else []
  }

  function Grow(keys: Groups, name: string, key: string): Groups {
    keys[name := KeysAt(keys, name) + [key]]
  }

  lemma {:induction false} FlattenIgnores(names: seq<string>, keys: Groups, name: string, group: seq<string>)
    requires name !in names
    ensures Flatten(names, keys[name := group]) == Flatten(names, keys)
  {
    if names != [] {
      FlattenIgnores(names[..|names| - 1], keys, name, group);
    }
  }

  lemma {:induction false} FlattenGrows(names: seq<string>, keys: Groups, name: string, key: string)
    requires name in names && DistinctIdentities(names)
    ensures multiset(Flatten(names, Grow(keys, name, key))) == multiset(Flatten(names, keys)) + multiset{key}
  {
    var init, last := names[..|names| - 1], names[|names| - 1];
    LastIsNotBefore(names);
    hide DistinctIdentities;
    if last == name {
      FlattenIgnores(init, keys, name, KeysAt(keys, name) + [key]);
      OneKeyMore(Flatten(init, keys), KeysAt(keys, name), key);
    } else {
      assert names == init + [last];
      FlattenGrows(init, keys, name, key);
      SameTail(Flatten(init, Grow(keys, name, key)), Flatten(init, keys), KeysAt(keys, last), key);
    }
  }

  lemma SameTail(more: seq<string>, less: seq<string>, tail: seq<string>, key: string)
    requires multiset(more) == multiset(less) + multiset{key}
    ensures multiset(more + tail) == multiset(less + tail) + multiset{key}
  {
  }

  lemma LastIsNotBefore(names: seq<string>)
    requires names != [] && DistinctIdentities(names)
    ensures names[|names| - 1] !in names[..|names| - 1] && DistinctIdentities(names[..|names| - 1])
  {
    hide Identity;
    var init, last := names[..|names| - 1], names[|names| - 1];
    assert forall i | 0 <= i < |init| :: Identity(names[i]) != Identity(last);
  }

  lemma OneKeyMore(a: seq<string>, group: seq<string>, key: string)
    ensures multiset(a + (group + [key])) == multiset(a + group) + multiset{key}
  {
    assert a + (group + [key]) == (a + group) + [key];
  }

  /** No name and no key is dropped. */
  ghost predicate Within(names: seq<string>, keys: Groups, more: seq<string>, grown: Groups) {
    && (forall n | n in names :: n in more)
    && (forall n | n in keys :: n in grown && forall k | k in keys[n] :: k in grown[n])
  }

  ghost predicate SameNames(names: seq<string>, keys: Groups) {
    forall n :: n in names <==> n in keys
  }

  lemma GroupKept(names: seq<string>, keys: Groups, more: seq<string>, grown: Groups, svc: ProbeService)
    requires HasGroup(names, keys, svc) && Within(names, keys, more, grown)
    ensures HasGroup(more, grown, svc)
  {
    hide Identity, TrimSpace, IdentityOf;
  }

  lemma NewestCovered(svc: ProbeService, keys: Groups, more: seq<string>, name: string)
    requires Identity(name) == IdentityOf(svc) && name in more
    ensures HasGroup(more, Grow(keys, name, TrimSpace(svc.serviceKey)), svc)
  {
    hide TrimSpace, Identity, IdentityOf;
    var grown := Grow(keys, name, TrimSpace(svc.serviceKey));
    assert name in grown && TrimSpace(svc.serviceKey) in grown[name];
  }

  lemma WithinGrown(names: seq<string>, keys: Groups, more: seq<string>, name: string, key: string)
    requires forall n | n in names :: n in more
    ensures Within(names, keys, more, Grow(keys, name, key))
  {
  }

  /** Adding the key of `svc` under `name`, known or new, covers `svc` as well. */
  lemma CoverStep(
    probed: seq<ProbeService>, svc: ProbeService, names: seq<string>, keys: Groups, more: seq<string>, name: string)
    requires Covers(probed, names, keys)
    requires Identity(name) == IdentityOf(svc)
    requires (forall n | n in names :: n in more) && name in more
    ensures Covers(probed + [svc], more, Grow(keys, name, TrimSpace(svc.serviceKey)))
  {
    var grown := Grow(keys, name, TrimSpace(svc.serviceKey));
    hide Complete, TrimSpace, Identity, IdentityOf, HasGroup, Within, Grow;
    NewestCovered(svc, keys, more, name);
    WithinGrown(names, keys, more, name, TrimSpace(svc.serviceKey));
    forall s | s in probed && Complete(s) ensures HasGroup(more, grown, s) {
      GroupKept(names, keys, more, grown, s);
    }
  }

  lemma AskedGrows(probed: seq<ProbeService>, svc: ProbeService, name: string)
    requires Asked(probed, name)
    ensures Asked(probed + [svc], name)
  {
    hide Complete, TrimSpace;
    var s :| s in probed && Complete(s) && TrimSpace(s.serviceName) == name;
    assert s in probed + [svc];
  }

  lemma AskedStep(probed: seq<ProbeService>, svc: ProbeService, names: seq<string>, more: seq<string>)
    requires AskedFor(probed, names)
    requires more == names || (Complete(svc) && more == names + [TrimSpace(svc.serviceName)])
    ensures AskedFor(probed + [svc], more)
  {
    forall n | n in more ensures Asked(probed + [svc], n) {
      if n in names {
        AskedGrows(probed, svc, n);
      } else {
        hide TrimSpace;
        assert svc in probed + [svc];
      }
    }
  }

  lemma ValidKeysGrow(probed: seq<ProbeService>, svc: ProbeService)
    ensures ValidKeys(probed + [svc]) == ValidKeys(probed) + if Complete(svc) then [TrimSpace(svc.serviceKey)] else []
  {
    assert (probed + [svc])[..|probed|] == probed;
  }

  lemma JoinStep(probed: seq<ProbeService>, svc: ProbeService, names: seq<string>, keys: Groups, name: string)
    requires Complete(svc) && Grouped(probed, names, keys)
    requires name in names && Identity(name) == IdentityOf(svc)
    ensures Grouped(probed + [svc], names, Grow(keys, name, TrimSpace(svc.serviceKey)))
  {
    hide Complete, TrimSpace, Identity, IdentityOf, Covers, AskedFor, Flatten, ValidKeys, DistinctIdentities;
    ValidKeysGrow(probed, svc);
    FlattenGrows(names, keys, name, TrimSpace(svc.serviceKey));
    CoverStep(probed, svc, names, keys, names, name);
    AskedStep(probed, svc, names, names);
  }

  lemma DistinctStep(names: seq<string>, name: string)
    requires DistinctIdentities(names) && forall n | n in names :: Identity(n) != Identity(name)
    ensures DistinctIdentities(names + [name])
  {
    hide Identity;
  }

  lemma NewStep(probed: seq<ProbeService>, svc: ProbeService, names: seq<string>, keys: Groups)
    requires Complete(svc) && Grouped(probed, names, keys)
    requires forall n | n in names :: Identity(n) != IdentityOf(svc)
    ensures Grouped(probed + [svc], names + [TrimSpace(svc.serviceName)],
                    Grow(keys, TrimSpace(svc.serviceName), TrimSpace(svc.serviceKey)))
  {
    hide Complete, TrimSpace, Identity, Covers, AskedFor, Flatten, ValidKeys, DistinctIdentities, HasGroup, SameNames,
         Grow;
    var name, key := TrimSpace(svc.serviceName), TrimSpace(svc.serviceKey);
    DistinctStep(names, name);
    assert name !in names;
    SameNamesStep(names, keys, name, key);
    ValidKeysGrow(probed, svc);
    FlattenNew(names, keys, name, key);
    CoverStep(probed, svc, names, keys, names + [name], name);
    AskedStep(probed, svc, names, names + [name]);
  }

  lemma SameNamesStep(names: seq<string>, keys: Groups, name: string, key: string)
    requires SameNames(names, keys) && name !in names
    ensures name !in keys && SameNames(names + [name], Grow(keys, name, key))
  {
  }

  lemma FlattenNew(names: seq<string>, keys: Groups, name: string, key: string)
    requires name !in names && name !in keys
    ensures Flatten(names + [name], Grow(keys, name, key)) == Flatten(names, keys) + [key]
  {
    assert (names + [name])[..|names|] == names;
    assert KeysAt(keys, name) + [key] == [key];
    FlattenIgnores(names, keys, name, [key]);
  }

  /** One entry: incomplete ones are skipped, others join the group of their service or start it. */
  method DedupeOne(
    ghost probed: seq<ProbeService>, svc: ProbeService, names: seq<string>, keys: Groups,
    queriedFor: map<string, string>)
    returns (names': seq<string>, keys': Groups, queriedFor': map<string, string>)
    requires Grouped(probed, names, keys) && Queried(names, queriedFor)
    ensures Grouped(probed + [svc], names', keys') && Queried(names', queriedFor') && |names'| <= |names| + 1
  {
    names', keys', queriedFor' := names, keys, queriedFor;
    hide Grouped, TrimSpace;
    var key, name := TrimSpace(svc.serviceKey), TrimSpace(svc.serviceName);
    if key == "" || name == "" {
      Skipped(probed, svc, names, keys);
      return;
    }
    var identity := Identity(name);
    if identity in queriedFor {
      var queried := queriedFor[identity];
      JoinStep(probed, svc, names, keys, queried);
      keys' := Grow(keys, queried, key);
    } else {
      NewStep(probed, svc, names, keys);
      QueriedStep(names, queriedFor, name);
      queriedFor', names', keys' := queriedFor[identity := name], names + [name], Grow(keys, name, key);
    }
  }

  lemma Skipped(probed: seq<ProbeService>, svc: ProbeService, names: seq<string>, keys: Groups)
    requires !Complete(svc) && Grouped(probed, names, keys)
    ensures Grouped(probed + [svc], names, keys)
  {
    hide Complete, TrimSpace, HasGroup, AskedFor, Flatten, ValidKeys, DistinctIdentities;
    ValidKeysGrow(probed, svc);
    AskedStep(probed, svc, names, names);
  }

  lemma NothingGrouped()
    ensures Grouped([], [], map[]) && Queried([], map[])
  {
  }

  /** One name per service, every complete entry's key under the name of its service, none lost and none twice. */
  method DedupeProbeServices(probed: seq<ProbeService>) returns (names: seq<string>, keys: Groups)
    ensures Grouped(Considered(probed), names, keys)
    ensures |names| <= |Considered(probed)| <= MAX_PROBE_SERVICES
  {
    var entries := Considered(probed);
    names, keys := [], map[];
    var queriedFor: map<string, string> := map[];
    NothingGrouped();
    hide Grouped, Queried, Considered;
    for i := 0 to |entries|
      invariant Grouped(entries[..i], names, keys) && |names| <= i
      invariant Queried(names, queriedFor)
    {
      assert entries[..i + 1] == entries[..i] + [entries[i]];
      names, keys, queriedFor := DedupeOne(entries[..i], entries[i], names, keys, queriedFor);
    }
    assert entries[..|entries|] == entries;
  }

  lemma QueriedStep(names: seq<string>, queriedFor: map<string, string>, name: string)
    requires Queried(names, queriedFor) && Identity(name) !in queriedFor
    ensures Queried(names + [name], queriedFor[Identity(name) := name])
  {
    hide Identity;
  }

  /** What the control plane says of one service, or why it could not be read. */
  datatype Lookup = Read(serviceName: string, found: bool, hosts: seq<string>) | Failed(reason: string, text: string)

  datatype ControlState =
    ControlState(serviceKey: string, serviceName: string, found: bool, hosts: seq<string>, error: string)

  datatype Report = Report(tailnet: string, available: bool, reason: string, services: seq<ControlState>)

  function Unavailable(reason: string, tailnet: string): Report {
    Report(tailnet, false, reason, [])
  }

  /** One lookup answers for one key of the name it was made for. */
  function StateOf(key: string, name: string, lookup: Lookup): ControlState {
    match lookup
    case Read(serviceName, found, hosts) => ControlState(key, serviceName, found, hosts, "")
    case Failed(_, text) => ControlState(key, name, false, [], text)
  }

  function States(keys: seq<string>, name: string, lookup: Lookup): seq<ControlState> {
    seq(|keys|, i requires 0 <= i < |keys| => StateOf(keys[i], name, lookup))
  }

  /** The answers for the given names, each name's lookup shared by all its keys. */
  function Answers(names: seq<string>, keys: Groups, lookup: string -> Lookup): seq<ControlState> {
    if names == [] then []
    else
      var last := names[|names| - 1];
      Answers(names[..|names| - 1], keys, lookup) + States(KeysAt(keys, last), last, lookup(last))
  }

  function KeysOf(states: seq<ControlState>): seq<string> {
    seq(|states|, i requires 0 <= i < |states| => states[i].serviceKey)
  }

  lemma {:induction false} AnswersEveryKeyOnce(names: seq<string>, keys: Groups, lookup: string -> Lookup)
    ensures KeysOf(Answers(names, keys, lookup)) == Flatten(names, keys)
  {
    if names != [] {
      AnswersEveryKeyOnce(names[..|names| - 1], keys, lookup);
      var last := names[|names| - 1];
      assert KeysOf(States(KeysAt(keys, last), last, lookup(last))) == KeysAt(keys, last);
    }
  }

  lemma {:induction false} AnswerOf(
    names: seq<string>, keys: Groups, lookup: string -> Lookup, name: string, key: string)
    requires name in names && key in KeysAt(keys, name)
    ensures StateOf(key, name, lookup(name)) in Answers(names, keys, lookup)
  {
    var init, last := names[..|names| - 1], names[|names| - 1];
    if last == name {
      var k :| 0 <= k < |KeysAt(keys, name)| && KeysAt(keys, name)[k] == key;
      assert States(KeysAt(keys, last), last, lookup(last))[k] == StateOf(key, name, lookup(name));
    } else {
      assert name in init;
      AnswerOf(init, keys, lookup, name, key);
    }
  }

  /** What a lookup says, reported for one key of the name it was made for. */
  ghost predicate Tells(state: ControlState, key: string, name: string, lookup: Lookup) {
    && state.serviceKey == key
    && match lookup
       case Read(serviceName, found, hosts) =>
         state.serviceName == serviceName && state.found == found && state.hosts == hosts && state.error == ""
       case Failed(_, text) =>
         state.serviceName == name && !state.found && state.hosts == [] && state.error == text
  }

  /** Every complete entry is answered by the one lookup made for its service, whichever spelling was queried. */
  lemma EntryAnswered(
    probed: seq<ProbeService>, names: seq<string>, keys: Groups, lookup: string -> Lookup, svc: ProbeService)
    requires Grouped(probed, names, keys) && svc in probed && Complete(svc)
    ensures exists n, state | n in names && state in Answers(names, keys, lookup) ::
              && SameUpToCase(Unprefixed(n), Unprefixed(TrimSpace(svc.serviceName)))
              && Tells(state, TrimSpace(svc.serviceKey), n, lookup(n))
  {
    hide Complete, TrimSpace, Identity, IdentityOf, Flatten, ValidKeys, DistinctIdentities, Answers, AskedFor,
         SameUpToCase, Unprefixed;
    assert HasGroup(names, keys, svc);
    var n :| n in names && n in keys && Identity(n) == IdentityOf(svc) && TrimSpace(svc.serviceKey) in keys[n];
    AnswerOf(names, keys, lookup, n, TrimSpace(svc.serviceKey));
    IdentityIsSame(n, svc);
    assert Tells(StateOf(TrimSpace(svc.serviceKey), n, lookup(n)), TrimSpace(svc.serviceKey), n, lookup(n));
  }

  lemma IdentityIsSame(name: string, svc: ProbeService)
    ensures Identity(name) == IdentityOf(svc) <==>
              SameUpToCase(Unprefixed(name), Unprefixed(TrimSpace(svc.serviceName)))
  {
    OneServiceIff(name, TrimSpace(svc.serviceName));
  }

  /** One read of the control plane: when, what for, which names were looked up, and what it answered. */
  datatype Sweep = Sweep(start: int, end: int, probed: seq<ProbeService>, queried: seq<string>, report: Report)

  ghost predicate WellSpent(sweep: Sweep) {
    && sweep.start <= sweep.end
    && |sweep.queried| <= 512
    && DistinctIdentities(sweep.queried) && AskedFor(Considered(sweep.probed), sweep.queried)
    && (sweep.report.available ==>
          multiset(KeysOf(sweep.report.services)) == multiset(ValidKeys(Considered(sweep.probed))))
  }

  ghost predicate Spaced(sweeps: seq<Sweep>) {
    forall i | 0 < i < |sweeps| :: sweeps[i - 1].end + MIN_PROBE_INTERVAL <= sweeps[i].start
  }

  ghost predicate AllWellSpent(sweeps: seq<Sweep>) {
    forall sweep | sweep in sweeps :: WellSpent(sweep)
  }

  function LookupsIn(sweeps: seq<Sweep>): nat {
    if sweeps == [] then 0 else LookupsIn(sweeps[..|sweeps| - 1]) + |sweeps[|sweeps| - 1].queried|
  }

  lemma {:induction false} StartsApart(sweeps: seq<Sweep>)
    requires Spaced(sweeps) && AllWellSpent(sweeps) && sweeps != []
    ensures sweeps[|sweeps| - 1].start >= sweeps[0].start + MIN_PROBE_INTERVAL * (|sweeps| - 1)
  {
    hide AskedFor, DistinctIdentities, KeysOf, ValidKeys, Considered;
    if |sweeps| > 1 {
      var init := sweeps[..|sweeps| - 1];
      StartsApart(init);
      assert init[|init| - 1] in sweeps && WellSpent(init[|init| - 1]);
    }
  }

  lemma {:induction false} LookupsBounded(sweeps: seq<Sweep>)
    requires AllWellSpent(sweeps)
    ensures LookupsIn(sweeps) <= MAX_PROBE_SERVICES * |sweeps|
  {
    hide AskedFor, DistinctIdentities, KeysOf, ValidKeys, Considered;
    if sweeps != [] {
      LookupsBounded(sweeps[..|sweeps| - 1]);
      assert WellSpent(sweeps[|sweeps| - 1]);
    }
  }

  /** A run of sweeps that all start within `window` milliseconds spends at most 512 lookups a minute, plus 512. */
  lemma QuotaIsBounded(sweeps: seq<Sweep>, window: nat)
    requires Spaced(sweeps) && AllWellSpent(sweeps) && sweeps != []
    requires sweeps[|sweeps| - 1].start - sweeps[0].start <= window
    ensures LookupsIn(sweeps) <= 512 * (window / 60_000 + 1)
  {
    StartsApart(sweeps);
    LookupsBounded(sweeps);
    assert |sweeps| - 1 <= window / MIN_PROBE_INTERVAL;
  }

  ghost predicate WithinAMinute(last: Option<int>, now: int) {
    last.Some? && now - last.value < 60_000
  }

  class Collector {
    /** When the last sweep ended; none before the first. */
    var probedAt: Option<int>
    var probeReport: Report
    ghost var sweeps: seq<Sweep>

    ghost predicate Valid()
      reads this
    {
      && Spaced(sweeps) && AllWellSpent(sweeps)
      && (sweeps == [] <==> probedAt.None?)
      && (sweeps != [] ==> probedAt == Some(sweeps[|sweeps| - 1].end) && probeReport == sweeps[|sweeps| - 1].report)
    }

    constructor ()
      ensures Valid() && sweeps == []
    {
      probedAt, probeReport := None, Unavailable("", "");
      sweeps := [];
    }

    /** Asked again too soon, the last answer stands. */
    predicate TooSoon(now: int)
      reads this
    {
      probedAt.Some? && now - probedAt.value < MIN_PROBE_INTERVAL
    }

    /** Every answer that got past the gate is kept and starts the interval anew, failures included. */
    method Remember(
      report: Report, ghost start: int, end: int, ghost probed: seq<ProbeService>, ghost queried: seq<string>)
      requires Valid() && !TooSoon(start)
      requires WellSpent(Sweep(start, end, probed, queried, report))
      modifies this
      ensures Valid() && sweeps == old(sweeps) + [Sweep(start, end, probed, queried, report)]
    {
      hide WellSpent;
      probedAt, probeReport := Some(end), report;
      sweeps := sweeps + [Sweep(start, end, probed, queried, report)];
    }

    /**
     * Looks up each name once. A first lookup that fails ends the sweep: `failure` is then its reason. Later
     * failures mark only the keys of their own name.
     */
    static method LookUpAll(names: seq<string>, keys: Groups, lookup: string -> Lookup)
      returns (states: seq<ControlState>, ghost queried: seq<string>, failure: Option<string>)
      ensures failure == if names != [] && lookup(names[0]).Failed? then Some(lookup(names[0]).reason) else None
      ensures queried == if failure.Some? then names[..1] else names
      ensures failure.None? ==> states == Answers(names, keys, lookup)
    {
      states, queried, failure := [], [], None;
      for i := 0 to |names|
        invariant queried == names[..i] && states == Answers(names[..i], keys, lookup)
        invariant i > 0 ==> lookup(names[0]).Read?
      {
        var name := names[i];
        var answer := lookup(name);
        queried := queried + [name];
        if i == 0 && answer.Failed? {
          return states, queried, Some(answer.reason);
        }
        assert names[..i + 1][..i] == names[..i];
        states := states + States(KeysAt(keys, name), name, answer);
      }
      assert names[..|names|] == names;
    }

    lemma AnswerIsWellSpent(
      start: int, end: int, probed: seq<ProbeService>, names: seq<string>, keys: Groups, lookup: string -> Lookup,
      tailnet: string)
      requires start <= end && Grouped(Considered(probed), names, keys) && |names| <= MAX_PROBE_SERVICES
      ensures WellSpent(Sweep(start, end, probed, names, Report(tailnet, true, "", Answers(names, keys, lookup))))
    {
      hide AskedFor, DistinctIdentities, KeysOf, ValidKeys, Considered, Flatten, Answers, Covers;
      AnswersEveryKeyOnce(names, keys, lookup);
    }

    lemma RefusalIsWellSpent(
      start: int, end: int, probed: seq<ProbeService>, names: seq<string>, keys: Groups, reason: string,
      tailnet: string)
      requires start <= end && Grouped(Considered(probed), names, keys) && names != []
      ensures WellSpent(Sweep(start, end, probed, names[..1], Unavailable(reason, tailnet)))
    {
      hide Identity, Asked, KeysOf, ValidKeys, Considered, Flatten, Covers;
    }

    /**
     * Answers one probe received at `now`, the sweep ending at `end`. Without credentials nothing is read; within
     * the interval the last answer is repeated; otherwise one sweep runs, and it is remembered on every path.
     */
    method TailnetControlReport(
      probed: seq<ProbeService>, credentials: bool, now: int, end: int, tailnet: Option<string>,
      lookup: string -> Lookup)
      returns (report: Report)
      requires Valid() && now <= end
      modifies this
      ensures Valid()
      ensures !credentials || WithinAMinute(old(probedAt), now) ==> sweeps == old(sweeps)
      ensures !credentials ==> report == Unavailable("no_credentials", "")
      ensures credentials && WithinAMinute(old(probedAt), now) ==> report == old(probeReport)
      ensures credentials && !WithinAMinute(old(probedAt), now) ==>
                exists queried :: sweeps == old(sweeps) + [Sweep(now, end, probed, queried, report)]
      ensures credentials && !WithinAMinute(old(probedAt), now) && tailnet.None? ==>
                report == Unavailable("no_tailnet", "") && sweeps[|sweeps| - 1].queried == []
      ensures credentials && !WithinAMinute(old(probedAt), now) && tailnet.Some? ==>
                exists names, keys :: Grouped(Considered(probed), names, keys) &&
                                      Swept(names, keys, lookup, tailnet.value, report, sweeps[|sweeps| - 1].queried)
    {
      hide WellSpent, Grouped;
      if !credentials {
        return Unavailable("no_credentials", "");
      }
      if TooSoon(now) {
        return probeReport;
      }
      if tailnet.None? {
        report := Unavailable("no_tailnet", "");
        EmptyIsWellSpent(now, end, probed, report);
        Remember(report, now, end, probed, []);
        return;
      }
      var names, keys := DedupeProbeServices(probed);
      var states, queried, failure := LookUpAll(names, keys, lookup);
      if failure.Some? {
        report := Unavailable(failure.value, tailnet.value);
        RefusalIsWellSpent(now, end, probed, names, keys, failure.value, tailnet.value);
      } else {
        report := Report(tailnet.value, true, "", states);
        AnswerIsWellSpent(now, end, probed, names, keys, lookup, tailnet.value);
      }
      Remember(report, now, end, probed, queried);
      assert Swept(names, keys, lookup, tailnet.value, report, queried);
    }

    lemma EmptyIsWellSpent(start: int, end: int, probed: seq<ProbeService>, report: Report)
      requires start <= end && !report.available
      ensures WellSpent(Sweep(start, end, probed, [], report))
    {
      hide KeysOf, ValidKeys, Considered;
    }
  }

  /** The names looked up and the report: refused as a whole only by the first lookup, complete otherwise. */
  ghost predicate Swept(
    names: seq<string>, keys: Groups, lookup: string -> Lookup, tailnet: string, report: Report, queried: seq<string>)
  {
    if names != [] && lookup(names[0]).Failed? then
      report == Unavailable(lookup(names[0]).reason, tailnet) && queried == names[..1]
    else
      report == Report(tailnet, true, "", Answers(names, keys, lookup)) && queried == names
  }
}
