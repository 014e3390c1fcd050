/** What the add phase of a reconcile cycle does to the daemon's configuration, whatever order it runs in. */
module AddPhase {
  import opened Types
  import opened Serve
  import opened Daemon

  type Adds = map<string, ContainerService>
  type Paths = map<string, ServiceEndpoint>

  function AddCommand(svc: ContainerService): Command
    requires ServeAddArgs(svc).Success?
  {
    ServeAdd(ServeAddArgs(svc).value)
  }

  function OffCommand(view: ServiceEndpoint): Command {
    PathOff(view.serviceName, view.protocol, view.port, NormalizeServicePath(view.path))
  }

  /** addService on a daemon without faults: a kind conflict clears the whole service first. */
  function Added(host: Host, svc: ContainerService): Host
    requires ServeAddArgs(svc).Success?
  {
    var (next, outcome) := Execute(host, AddCommand(svc));
    if outcome == Conflict then
      var cleared := Execute(host, Clear("svc:" + svc.serviceName)).0;
      Execute(cleared, AddCommand(svc)).0
    else next
  }

  /** One iteration of the add loop: an old path goes first, and if that fails the key is skipped. */
  function Processed(host: Host, svc: ContainerService, oldPath: Option<ServiceEndpoint>): Host
    requires ServeAddArgs(svc).Success?
  {
    if oldPath.None? then Added(host, svc)
    else
      var (next, outcome) := Execute(host, OffCommand(oldPath.value));
      if outcome == Done then Added(next, svc) else host
  }

  function PathAt(paths: Paths, key: string): Option<ServiceEndpoint> {
    if key in paths then Some(paths[key]) else None
  }

  ghost predicate IsTarget(toAdd: Adds, e: Endpoint) {
    KeyOf(e) in toAdd && EndpointOf(toAdd[KeyOf(e)]) == e
  }

  /** The add of `key` meets a port of another kind and takes the config-conflict clear. */
  ghost predicate Clashes(start: map<Endpoint, Config>, toAdd: Adds, paths: Paths, key: string)
    requires key in toAdd
  {
    var e := EndpointOf(toAdd[key]);
    e in start && KindOf(start[e]) != toAdd[key].serviceProtocol && key !in paths
  }

  ghost predicate Wiped(start: map<Endpoint, Config>, toAdd: Adds, paths: Paths, done: set<string>, name: string) {
    exists key | key in done && key in toAdd ::
      Clashes(start, toAdd, paths, key) && EndpointOf(toAdd[key]).name == name
  }

  /** What is served at `e` once the keys in `done` have been processed. */
  ghost predicate EntryOk(
    start: map<Endpoint, Config>, toAdd: Adds, paths: Paths, done: set<string>, now: map<Endpoint, Config>, e: Endpoint)
  {
    var wiped := Wiped(start, toAdd, paths, done, e.name);
    if IsTarget(toAdd, e) && KeyOf(e) in done then
      var svc := toAdd[KeyOf(e)];
      ServeAddArgs(svc).Success? &&
      if Clashes(start, toAdd, paths, KeyOf(e)) then At(now, e) == Some(ConfigOf(svc))
      else if wiped then At(now, e) == None || At(now, e) == Some(ConfigOf(svc))
      else At(now, e) == if KeyOf(e) in paths && e !in start then None else Some(ConfigOf(svc))
    else
      At(now, e) == if wiped then None else At(start, e)
  }

  ghost predicate Progress(
    start: map<Endpoint, Config>, toAdd: Adds, paths: Paths, done: set<string>, now: map<Endpoint, Config>)
  {
    forall e :: EntryOk(start, toAdd, paths, done, now, e)
  }

  /** The planned add of `key` agrees with the configuration the phase starts from. */
  ghost predicate FitsAt(start: map<Endpoint, Config>, toAdd: Adds, paths: Paths, key: string)
    requires key in toAdd
  {
    var svc := toAdd[key];
    var e := EndpointOf(svc);
    && DesiredServiceKey(svc) == key && ValidService(svc)
    && (key in paths ==> paths[key].serviceName == e.name && paths[key].port == e.port)
    && (e in start ==>
          && Canonical(start[e])
          && (key in paths <==>
                start[e].Web? && PathOf(start[e].handlers) != NormalizeServicePath(svc.servicePath))
          && (key in paths ==> paths[key] == ViewOf(e, start[e])))
  }

  ghost predicate Fits(start: map<Endpoint, Config>, toAdd: Adds, paths: Paths) {
    forall key | key in toAdd :: FitsAt(start, toAdd, paths, key)
  }

  lemma WipedGrows(
    start: map<Endpoint, Config>, toAdd: Adds, paths: Paths, done: set<string>, key: string, name: string)
    requires key in toAdd
    ensures Wiped(start, toAdd, paths, done + {key}, name) <==>
            || Wiped(start, toAdd, paths, done, name)
            || (Clashes(start, toAdd, paths, key) && EndpointOf(toAdd[key]).name == name)
  {
  }

  lemma StartProgress(start: map<Endpoint, Config>, toAdd: Adds, paths: Paths)
    ensures Progress(start, toAdd, paths, {}, start)
  {
  }

  /** Serving `svc` where nothing of another kind and no other mount is, gives its own configuration. */
  lemma AddGivesOwnConfig(host: Host, svc: ContainerService)
    requires ValidService(svc)
    requires var e := EndpointOf(svc); e in host.serve ==>
               && Canonical(host.serve[e])
               && KindOf(host.serve[e]) == svc.serviceProtocol
               && (host.serve[e].Web? ==> PathOf(host.serve[e].handlers) == NormalizeServicePath(svc.servicePath))
    ensures Added(host, svc) ==
            Host(host.serve[EndpointOf(svc) := ConfigOf(svc)], host.advertised + {EndpointOf(svc).name})
  {
    var e := EndpointOf(svc);
    if e in host.serve {
      SameKindIsReplaced(svc, host.serve[e]);
    }
    hide Recorded, BuildDestination, PathOf, NormalizeServicePath, Canonical;
  }

  lemma SameKindIsReplaced(svc: ContainerService, c: Config)
    requires ValidService(svc) && Canonical(c) && KindOf(c) == svc.serviceProtocol
    requires c.Web? ==> PathOf(c.handlers) == NormalizeServicePath(svc.servicePath)
    ensures Recorded(ServeAddArgs(svc).value, Some(c)) == ConfigOf(svc)
  {
    if c.Web? {
      var p := PathOf(c.handlers);
      OneMount(c.handlers, p);
      assert c.handlers + map[p := BuildDestination(svc)] == map[p := BuildDestination(svc)];
    }
  }

  lemma ClashClearsService(host: Host, svc: ContainerService)
    requires ValidService(svc)
    requires var e := EndpointOf(svc); e in host.serve && KindOf(host.serve[e]) != svc.serviceProtocol
    ensures Added(host, svc) ==
            Host(WithoutName(host.serve, EndpointOf(svc).name)[EndpointOf(svc) := ConfigOf(svc)],
                 host.advertised + {EndpointOf(svc).name})
  {
    var e := EndpointOf(svc);
    assert e.name in Names(host.serve);
    AddGivesOwnConfig(Host(WithoutName(host.serve, e.name), host.advertised), svc);
  }

  lemma OffRemovesOnlyMount(host: Host, e: Endpoint)
    requires e in host.serve && host.serve[e].Web? && Canonical(host.serve[e])
    ensures Execute(host, OffCommand(ViewOf(e, host.serve[e]))) == (host.(serve := host.serve - {e}), Done)
  {
    var handlers := host.serve[e].handlers;
    OneMount(handlers, "");
    assert handlers - {PathOf(handlers)} == map[];
  }

  /** The three things one iteration can do. */
  datatype Effect = Skipped | Put | ClearedAndPut

  ghost function EffectOf(
    host: map<Endpoint, Config>, svc: ContainerService, oldPath: Option<ServiceEndpoint>): Effect {
    var e := EndpointOf(svc);
    if oldPath.Some? then if e in host then Put else Skipped
    else if e in host && KindOf(host[e]) != svc.serviceProtocol then ClearedAndPut
    else Put
  }

  ghost function Resulting(host: Host, svc: ContainerService, effect: Effect): Host
    requires ServeAddArgs(svc).Success?
  {
    var e := EndpointOf(svc);
    match effect
    case Skipped => host
    case Put => Host(host.serve[e := ConfigOf(svc)], host.advertised + {e.name})
    case ClearedAndPut => Host(WithoutName(host.serve, e.name)[e := ConfigOf(svc)], host.advertised + {e.name})
  }

  lemma OffMisses(host: Host, view: ServiceEndpoint)
    requires Endpoint(view.serviceName, view.port) !in host.serve
    ensures Execute(host, OffCommand(view)) == (host, NotFound)
  {
  }

  lemma PathMoveHasEffect(host: Host, svc: ContainerService, view: ServiceEndpoint)
    requires ValidService(svc) && view.serviceName == EndpointOf(svc).name && view.port == svc.port
    requires var e := EndpointOf(svc); e in host.serve ==>
               host.serve[e].Web? && Canonical(host.serve[e]) && view == ViewOf(e, host.serve[e])
    ensures Processed(host, svc, Some(view)) == Resulting(host, svc, EffectOf(host.serve, svc, Some(view)))
  {
    var e := EndpointOf(svc);
    if e in host.serve {
      OffRemovesOnlyMount(host, e);
      PutAfterRemoval(host, svc);
    } else {
      OffMisses(host, view);
    }
  }

  lemma PutAfterRemoval(host: Host, svc: ContainerService)
    requires ValidService(svc) && EndpointOf(svc) in host.serve
    ensures Added(host.(serve := host.serve - {EndpointOf(svc)}), svc) == Resulting(host, svc, Put)
  {
    var e := EndpointOf(svc);
    AddGivesOwnConfig(host.(serve := host.serve - {e}), svc);
    ReplaceEqualsRemoveAndPut(host.serve, e, ConfigOf(svc));
  }

  lemma ReplaceEqualsRemoveAndPut(serve: map<Endpoint, Config>, e: Endpoint, c: Config)
    ensures (serve - {e})[e := c] == serve[e := c]
  {
  }

  lemma PlainAddHasEffect(host: Host, svc: ContainerService)
    requires ValidService(svc)
    requires var e := EndpointOf(svc); e in host.serve ==>
               && Canonical(host.serve[e])
               && (host.serve[e].Web? ==> PathOf(host.serve[e].handlers) == NormalizeServicePath(svc.servicePath))
    ensures Processed(host, svc, None) == Resulting(host, svc, EffectOf(host.serve, svc, None))
  {
    if EffectOf(host.serve, svc, None) == ClearedAndPut {
      ClashClearsService(host, svc);
    } else {
      AddGivesOwnConfig(host, svc);
    }
  }

  lemma ProcessedHasEffect(host: Host, start: map<Endpoint, Config>, toAdd: Adds, paths: Paths, key: string)
    requires key in toAdd && FitsAt(start, toAdd, paths, key)
    requires var e := EndpointOf(toAdd[key]); At(host.serve, e) == None || At(host.serve, e) == At(start, e)
    ensures Processed(host, toAdd[key], PathAt(paths, key)) ==
            Resulting(host, toAdd[key], EffectOf(host.serve, toAdd[key], PathAt(paths, key)))
  {
    var svc := toAdd[key];
    var e := EndpointOf(svc);
    assert e in host.serve ==> e in start && host.serve[e] == start[e];
    if key in paths {
      PathMoveHasEffect(host, svc, paths[key]);
    } else {
      PlainAddHasEffect(host, svc);
    }
  }

  lemma EntryStep(
    start: map<Endpoint, Config>, toAdd: Adds, paths: Paths, done: set<string>, host: Host, key: string, e: Endpoint)
    requires key in toAdd && key !in done && FitsAt(start, toAdd, paths, key)
    requires EntryOk(start, toAdd, paths, done, host.serve, e)
    requires EntryOk(start, toAdd, paths, done, host.serve, EndpointOf(toAdd[key]))
    ensures EntryOk(start, toAdd, paths, done + {key}, Processed(host, toAdd[key], PathAt(paths, key)).serve, e)
  {
    var svc := toAdd[key];
    KeyOfService(svc);
    ProcessedHasEffect(host, start, toAdd, paths, key);
    WipedGrows(start, toAdd, paths, done, key, e.name);
    WipedGrows(start, toAdd, paths, done, key, EndpointOf(svc).name);
    EffectKeepsEntry(start, toAdd, paths, done, host, key, e);
  }

  /** The service is cleared exactly when the add clashes and no clash cleared it before. */
  lemma ClearsOnFirstClash(
    start: map<Endpoint, Config>, toAdd: Adds, paths: Paths, done: set<string>, host: Host, key: string)
    requires key in toAdd && key !in done && FitsAt(start, toAdd, paths, key)
    requires EntryOk(start, toAdd, paths, done, host.serve, EndpointOf(toAdd[key]))
    ensures var own := EndpointOf(toAdd[key]);
            && At(host.serve, own) == (if Wiped(start, toAdd, paths, done, own.name) then None else At(start, own))
            && (EffectOf(host.serve, toAdd[key], PathAt(paths, key)) == ClearedAndPut <==>
                Clashes(start, toAdd, paths, key) && !Wiped(start, toAdd, paths, done, own.name))
  {
    KeyOfService(toAdd[key]);
    hide ConfigOf, Canonical, ViewOf, Wiped, ValidService, PathOf;
  }

  lemma EffectKeepsEntry(
    start: map<Endpoint, Config>, toAdd: Adds, paths: Paths, done: set<string>, host: Host, key: string, e: Endpoint)
    requires key in toAdd && key !in done && FitsAt(start, toAdd, paths, key)
    requires EntryOk(start, toAdd, paths, done, host.serve, e)
    requires EntryOk(start, toAdd, paths, done, host.serve, EndpointOf(toAdd[key]))
    ensures var svc := toAdd[key];
            var next := Resulting(host, svc, EffectOf(host.serve, svc, PathAt(paths, key)));
            EntryOk(start, toAdd, paths, done + {key}, next.serve, e)
  {
    var svc := toAdd[key];
    var own := EndpointOf(svc);
    KeyOfService(svc);
    ClearsOnFirstClash(start, toAdd, paths, done, host, key);
    WipedGrows(start, toAdd, paths, done, key, e.name);
    if e == own {
      hide ConfigOf, Canonical, ViewOf, Wiped, ValidService, PathOf;
      assert IsTarget(toAdd, own);
    } else {
      OtherEntryKept(start, toAdd, paths, done, host, key, e);
    }
  }

  lemma OtherEntryKept(
    start: map<Endpoint, Config>, toAdd: Adds, paths: Paths, done: set<string>, host: Host, key: string, e: Endpoint)
    requires key in toAdd && key !in done && FitsAt(start, toAdd, paths, key) && e != EndpointOf(toAdd[key])
    requires EntryOk(start, toAdd, paths, done, host.serve, e)
    requires var own := EndpointOf(toAdd[key]);
             && At(host.serve, own) == (if Wiped(start, toAdd, paths, done, own.name) then None else At(start, own))
             && (EffectOf(host.serve, toAdd[key], PathAt(paths, key)) == ClearedAndPut <==>
                 Clashes(start, toAdd, paths, key) && !Wiped(start, toAdd, paths, done, own.name))
    ensures var svc := toAdd[key];
            var next := Resulting(host, svc, EffectOf(host.serve, svc, PathAt(paths, key)));
            EntryOk(start, toAdd, paths, done + {key}, next.serve, e)
  {
    hide ConfigOf, Canonical, ViewOf, Wiped, PathOf, Clashes, EffectOf, Resulting;
    var svc := toAdd[key];
    var own := EndpointOf(svc);
    KeyOfService(svc);
    WipedGrows(start, toAdd, paths, done, key, e.name);
    ClashWipes(start, toAdd, paths, done, e);
    OtherEntry(host, svc, EffectOf(host.serve, svc, PathAt(paths, key)), e);
    assert KeyOf(e) == key ==> !IsTarget(toAdd, e);
    hide FitsAt, ValidService, EndpointOf, KeyOf, IsTarget;
    EntryFollows(start, toAdd, paths, done, host.serve, key, own.name, e,
                 Resulting(host, svc, EffectOf(host.serve, svc, PathAt(paths, key))).serve);
  }

  lemma EntryFollows(
    start: map<Endpoint, Config>, toAdd: Adds, paths: Paths, done: set<string>, was: map<Endpoint, Config>, key: string,
    name: string, e: Endpoint, now: map<Endpoint, Config>)
    requires EntryOk(start, toAdd, paths, done, was, e) && key in toAdd && (KeyOf(e) == key ==> !IsTarget(toAdd, e))
    requires Wiped(start, toAdd, paths, done + {key}, e.name) <==>
             || Wiped(start, toAdd, paths, done, e.name) || (Clashes(start, toAdd, paths, key) && name == e.name)
    requires IsTarget(toAdd, e) && KeyOf(e) in done && Clashes(start, toAdd, paths, KeyOf(e)) ==>
               Wiped(start, toAdd, paths, done, e.name)
    requires At(now, e) ==
             if Clashes(start, toAdd, paths, key) && !Wiped(start, toAdd, paths, done, name) && e.name == name then None
             else At(was, e)
    ensures EntryOk(start, toAdd, paths, done + {key}, now, e)
  {
    hide Wiped, Clashes, ConfigOf, EndpointOf, KeyOf;
  }

  lemma ClashWipes(start: map<Endpoint, Config>, toAdd: Adds, paths: Paths, done: set<string>, e: Endpoint)
    ensures IsTarget(toAdd, e) && KeyOf(e) in done && Clashes(start, toAdd, paths, KeyOf(e)) ==>
              Wiped(start, toAdd, paths, done, e.name)
  {
  }

  lemma OtherEntry(host: Host, svc: ContainerService, effect: Effect, e: Endpoint)
    requires ServeAddArgs(svc).Success? && e != EndpointOf(svc)
    ensures At(Resulting(host, svc, effect).serve, e) ==
            if effect == ClearedAndPut && e.name == EndpointOf(svc).name then None else At(host.serve, e)
  {
    hide ConfigOf;
  }

  lemma ProgressStep(
    start: map<Endpoint, Config>, toAdd: Adds, paths: Paths, done: set<string>, host: Host, key: string)
    requires key in toAdd && key !in done && FitsAt(start, toAdd, paths, key)
    requires Progress(start, toAdd, paths, done, host.serve)
    ensures Progress(start, toAdd, paths, done + {key}, Processed(host, toAdd[key], PathAt(paths, key)).serve)
  {
    var more, next := done + {key}, Processed(host, toAdd[key], PathAt(paths, key)).serve;
    forall e ensures EntryOk(start, toAdd, paths, more, next, e) {
      EntryStep(start, toAdd, paths, done, host, key, e);
    }
  }
}
