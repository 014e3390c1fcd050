/** What each step of a cycle issues, command by command, and what its answer says about that. */
module Trace {
  import opened Types
  import opened Serve
  import opened Daemon
  import opened AddPhase

  /** An answer that leaves nothing behind. */
  predicate Gone(outcome: Outcome) {
    outcome == Done || outcome == NotFound
  }

  /**
   * Nothing for a service that cannot be asked for. Otherwise one serve command; if it meets another kind, a clear of
   * the service, and if that works one more try.
   */
  ghost predicate AddTraced(log: seq<Event>, now: seq<Event>, svc: ContainerService, ok: bool) {
    if ServeAddArgs(svc).Failure? then now == log && !ok else TriedTwice(log, now, svc, ok)
  }

  ghost predicate TriedTwice(log: seq<Event>, now: seq<Event>, svc: ContainerService, ok: bool)
    requires ServeAddArgs(svc).Success?
  {
    var add, clear := AddCommand(svc), Clear("svc:" + svc.serviceName);
    || (exists o :: now == log + [Event(add, o)] && o != Conflict && (ok <==> o == Done))
    || (exists o :: now == log + [Event(add, Conflict)] + [Event(clear, o)] && !Gone(o) && !ok)
    || (exists o, last :: now == log + [Event(add, Conflict)] + [Event(clear, o)] + [Event(add, last)]
                          && Gone(o) && (ok <==> last == Done))
  }

  /** The old path comes off first, if there is one, and only then the service is added. */
  ghost predicate ProcessTraced(
    log: seq<Event>, now: seq<Event>, svc: ContainerService, oldPath: Option<ServiceEndpoint>, ok: bool)
  {
    match oldPath
    case None => AddTraced(log, now, svc, ok)
    case Some(view) =>
      || (exists o :: now == log + [Event(OffCommand(view), o)] && o != Done && !ok)
      || AddTraced(log + [Event(OffCommand(view), Done)], now, svc, ok)
  }

  /** A drain and then, whatever it answered, a clear; either may be missing when time is up. */
  ghost predicate RemoveTraced(log: seq<Event>, now: seq<Event>, name: string, ok: bool) {
    || (now == log && !ok)
    || (exists o :: now == log + [Event(Drain(name), o)] && !ok)
    || (exists o, last :: now == log + [Event(Drain(name), o)] + [Event(Clear(name), last)] && (ok <==> Gone(last)))
  }

  ghost predicate AdvertiseTraced(log: seq<Event>, now: seq<Event>, name: string, ok: bool) {
    (now == log && !ok) || exists o :: now == log + [Event(Advertise(name), o)] && (ok <==> o == Done)
  }

  /** The log has this command with this outcome from `base` on. */
  ghost predicate Answered(log: seq<Event>, base: nat, event: Event) {
    exists i | base <= i < |log| :: log[i] == event
  }

  /** Serving this was accepted from `base` on. */
  ghost predicate ServedSince(log: seq<Event>, base: nat, svc: ContainerService) {
    ServeAddArgs(svc).Success? && Answered(log, base, Event(AddCommand(svc), Done))
  }

  lemma AnsweredOnwards(log: seq<Event>, now: seq<Event>, base: nat, event: Event)
    requires log <= now && Answered(log, base, event)
    ensures Answered(now, base, event)
  {
    var i :| base <= i < |log| && log[i] == event;
    assert now[i] == event;
  }

  /** Different services are added by different commands. */
  lemma AddCommandsDiffer(a: ContainerService, b: ContainerService)
    requires ServeAddArgs(a).Success? && ServeAddArgs(b).Success? && AddCommand(a) == AddCommand(b)
    ensures DesiredServiceKey(a) == DesiredServiceKey(b)
  {
    KeyOfService(a);
    KeyOfService(b);
    hide BuildDestination, NormalizeServicePath;
  }

  /** Processing one key answers its own command, with `Done` exactly if it went well, and no other one's. */
  lemma ProcessAnswers(
    log: seq<Event>, now: seq<Event>, base: nat, svc: ContainerService, oldPath: Option<ServiceEndpoint>, ok: bool,
    other: ContainerService)
    requires base <= |log| && ProcessTraced(log, now, svc, oldPath, ok)
    ensures log <= now && (ok ==> ServeAddArgs(svc).Success?)
    ensures ServedSince(now, base, other) <==>
            || ServedSince(log, base, other)
            || (ok && ServeAddArgs(svc).Success? && ServeAddArgs(other).Success?
                && AddCommand(other) == AddCommand(svc))
  {
    hide BuildDestination, NormalizeServicePath, AddCommand, ServeAddArgs, OffCommand, AddTraced;
    if oldPath.None? {
      AddAnswers(log, now, base, svc, ok, other);
    } else {
      var off := OffCommand(oldPath.value);
      OffIsNoAdd(oldPath.value, other);
      if AddTraced(log + [Event(off, Done)], now, svc, ok) {
        AddAnswers(log + [Event(off, Done)], now, base, svc, ok, other);
        ServedOneMore(log, Event(off, Done), base, other);
      } else {
        var o :| now == log + [Event(off, o)] && o != Done && !ok;
        ServedOneMore(log, Event(off, o), base, other);
      }
    }
  }

  lemma OffIsNoAdd(view: ServiceEndpoint, svc: ContainerService)
    ensures ServeAddArgs(svc).Success? ==> AddCommand(svc) != OffCommand(view)
  {
  }

  lemma ServedOneMore(log: seq<Event>, event: Event, base: nat, other: ContainerService)
    requires base <= |log|
    ensures ServedSince(log + [event], base, other) <==>
            || ServedSince(log, base, other)
            || (ServeAddArgs(other).Success? && event == Event(AddCommand(other), Done))
  {
    hide AddCommand, ServeAddArgs, Answered;
    if ServeAddArgs(other).Success? {
      OneMoreEvent(log, event, base, Event(AddCommand(other), Done));
    }
  }

  lemma OneMoreEvent(log: seq<Event>, event: Event, base: nat, asked: Event)
    requires base <= |log|
    ensures Answered(log + [event], base, asked) <==> Answered(log, base, asked) || event == asked
  {
    var now := log + [event];
    assert now[|log|] == event && forall i | 0 <= i < |log| :: now[i] == log[i];
    if Answered(log, base, asked) {
      AnsweredOnwards(log, now, base, asked);
    }
  }

  lemma AddAnswers(
    log: seq<Event>, now: seq<Event>, base: nat, svc: ContainerService, ok: bool, other: ContainerService)
    requires base <= |log| && AddTraced(log, now, svc, ok)
    ensures log <= now && (ok ==> ServeAddArgs(svc).Success?)
    ensures ServedSince(now, base, other) <==>
            || ServedSince(log, base, other)
            || (ok && ServeAddArgs(svc).Success? && ServeAddArgs(other).Success?
                && AddCommand(other) == AddCommand(svc))
  {
    ClearIsNoAdd(svc, other);
    hide BuildDestination, NormalizeServicePath, AddCommand, ServedSince, ServeAddArgs;
    if ServeAddArgs(svc).Success? {
      var add, clear := AddCommand(svc), Clear("svc:" + svc.serviceName);
      if o :| now == log + [Event(add, o)] && o != Conflict && (ok <==> o == Done) {
        ServedOneMore(log, Event(add, o), base, other);
      } else if o :| now == log + [Event(add, Conflict)] + [Event(clear, o)] && !Gone(o) && !ok {
        ServedOneMore(log, Event(add, Conflict), base, other);
        ServedOneMore(log + [Event(add, Conflict)], Event(clear, o), base, other);
      } else {
        var o, last :| now == log + [Event(add, Conflict)] + [Event(clear, o)] + [Event(add, last)]
                       && Gone(o) && (ok <==> last == Done);
        ServedOneMore(log, Event(add, Conflict), base, other);
        ServedOneMore(log + [Event(add, Conflict)], Event(clear, o), base, other);
        ServedOneMore((log + [Event(add, Conflict)]) + [Event(clear, o)], Event(add, last), base, other);
      }
    }
  }

  lemma NothingTried(log: seq<Event>, svc: ContainerService)
    requires ServeAddArgs(svc).Failure?
    ensures AddTraced(log, log, svc, false)
  {
  }

  lemma TriedOnce(log: seq<Event>, now: seq<Event>, svc: ContainerService, o: Outcome)
    requires ServeAddArgs(svc).Success? && o != Conflict && now == log + [Event(AddCommand(svc), o)]
    ensures AddTraced(log, now, svc, o == Done)
  {
    hide AddCommand, ServeAddArgs;
  }

  lemma ClearFailed(log: seq<Event>, now: seq<Event>, svc: ContainerService, o: Outcome)
    requires ServeAddArgs(svc).Success? && !Gone(o)
    requires now == log + [Event(AddCommand(svc), Conflict)] + [Event(Clear("svc:" + svc.serviceName), o)]
    ensures AddTraced(log, now, svc, false)
  {
    hide AddCommand, ServeAddArgs;
  }

  lemma TriedAgain(log: seq<Event>, now: seq<Event>, svc: ContainerService, o: Outcome, last: Outcome)
    requires ServeAddArgs(svc).Success? && Gone(o)
    requires now == log + [Event(AddCommand(svc), Conflict)] + [Event(Clear("svc:" + svc.serviceName), o)]
                    + [Event(AddCommand(svc), last)]
    ensures AddTraced(log, now, svc, last == Done)
  {
    hide AddCommand, ServeAddArgs;
  }

  lemma ClearIsNoAdd(svc: ContainerService, other: ContainerService)
    ensures ServeAddArgs(other).Success? ==> AddCommand(other) != Clear("svc:" + svc.serviceName)
  {
  }

  lemma AdvertiseAnswers(log: seq<Event>, now: seq<Event>, base: nat, name: string, ok: bool, other: string)
    requires base <= |log| && AdvertiseTraced(log, now, name, ok)
    ensures log <= now
    ensures Answered(now, base, Event(Advertise(other), Done)) <==>
            Answered(log, base, Event(Advertise(other), Done)) || (ok && other == name)
  {
    hide Answered;
    if now != log {
      var o :| now == log + [Event(Advertise(name), o)] && (ok <==> o == Done);
      OneMoreEvent(log, Event(Advertise(name), o), base, Event(Advertise(other), Done));
    }
  }

  // ---- the phases ----

  /** Of the keys in `done`, exactly those whose service was accepted since `base` did not fail. */
  ghost predicate AddsTallied(log: seq<Event>, base: nat, toAdd: Adds, done: set<string>, failed: nat) {
    && base <= |log|
    && (forall key | key in toAdd && key !in done :: !ServedSince(log, base, toAdd[key]))
    && (failed == 0 <==> forall key | key in done && key in toAdd :: ServedSince(log, base, toAdd[key]))
  }

  lemma NothingAnswered(log: seq<Event>, toAdd: Adds)
    ensures AddsTallied(log, |log|, toAdd, {}, 0)
  {
    hide AddCommand, ServeAddArgs;
  }

  lemma TallyOneMore(
    log: seq<Event>, now: seq<Event>, base: nat, toAdd: Adds, done: set<string>, failed: nat, key: string,
    oldPath: Option<ServiceEndpoint>, ok: bool)
    requires AddsTallied(log, base, toAdd, done, failed) && key in toAdd && key !in done
    requires forall k | k in toAdd :: DesiredServiceKey(toAdd[k]) == k
    requires ProcessTraced(log, now, toAdd[key], oldPath, ok)
    ensures AddsTallied(now, base, toAdd, done + {key}, failed + if ok then 0 else 1) && log <= now
  {
    hide AddCommand, ServeAddArgs, DesiredServiceKey, ProcessTraced, ServedSince;
    forall k | k in toAdd
      ensures ServedSince(now, base, toAdd[k]) <==> ServedSince(log, base, toAdd[k]) || (ok && k == key)
    {
      ProcessAnswers(log, now, base, toAdd[key], oldPath, ok, toAdd[k]);
      if ok && ServeAddArgs(toAdd[k]).Success? && AddCommand(toAdd[k]) == AddCommand(toAdd[key]) {
        AddCommandsDiffer(toAdd[k], toAdd[key]);
      }
    }
    ProcessAnswers(log, now, base, toAdd[key], oldPath, ok, toAdd[key]);
  }

  ghost predicate AdvertisesTallied(log: seq<Event>, base: nat, names: set<string>, todo: set<string>, failed: nat) {
    && base <= |log|
    && (forall n | n in todo :: !Answered(log, base, Event(Advertise(n), Done)))
    && (failed == 0 <==> forall n | n in names && n !in todo :: Answered(log, base, Event(Advertise(n), Done)))
  }

  lemma NoneAdvertised(log: seq<Event>, names: set<string>)
    ensures AdvertisesTallied(log, |log|, names, names, 0)
  {
  }

  lemma AdvertiseOneMore(
    log: seq<Event>, now: seq<Event>, base: nat, names: set<string>, todo: set<string>, failed: nat, name: string,
    ok: bool)
    requires AdvertisesTallied(log, base, names, todo, failed) && name in todo && todo <= names
    requires AdvertiseTraced(log, now, name, ok)
    ensures AdvertisesTallied(now, base, names, todo - {name}, failed + if ok then 0 else 1) && log <= now
  {
    hide Answered, AdvertiseTraced;
    forall n
      ensures Answered(now, base, Event(Advertise(n), Done)) <==>
              Answered(log, base, Event(Advertise(n), Done)) || (ok && n == name)
    {
      AdvertiseAnswers(log, now, base, name, ok, n);
    }
    AdvertiseAnswers(log, now, base, name, ok, name);
  }

  /** Everything that had to be served or advertised was accepted from `base` on. */
  ghost predicate CarriedOut(log: seq<Event>, base: nat, toAdd: Adds, toAdvertise: set<string>) {
    && (forall key | key in toAdd :: ServedSince(log, base, toAdd[key]))
    && (forall n | n in toAdvertise :: Answered(log, base, Event(Advertise(n), Done)))
  }

  lemma AnsweredEarlier(log: seq<Event>, now: seq<Event>, from: nat, base: nat, event: Event)
    requires log <= now && base <= from && Answered(log, from, event)
    ensures Answered(now, base, event)
  {
    var i :| from <= i < |log| && log[i] == event;
    assert now[i] == event;
  }

  lemma NoFailureMeansCarriedOut(
    start: seq<Event>, before: seq<Event>, added: seq<Event>, now: seq<Event>, toAdd: Adds, toAdvertise: set<string>,
    addFailed: nat, advertiseFailed: nat)
    requires start <= before <= added <= now && addFailed == advertiseFailed == 0
    requires AddsTallied(added, |before|, toAdd, toAdd.Keys, addFailed)
    requires AdvertisesTallied(now, |added|, toAdvertise, {}, advertiseFailed)
    ensures CarriedOut(now, |start|, toAdd, toAdvertise)
  {
    hide Answered, AddCommand, ServeAddArgs;
    forall key | key in toAdd ensures ServedSince(now, |start|, toAdd[key]) {
      assert ServedSince(added, |before|, toAdd[key]);
      AnsweredEarlier(added, now, |before|, |start|, Event(AddCommand(toAdd[key]), Done));
    }
    forall n | n in toAdvertise ensures Answered(now, |start|, Event(Advertise(n), Done)) {
      AnsweredEarlier(now, now, |added|, |start|, Event(Advertise(n), Done));
    }
  }
}
