/** What no cycle may do to a contested endpoint or its service, as a property of the command log. */
module Guard {
  import opened Serve
  import opened Daemon

  /**
   * A cycle under watch: where its commands start in the log, the normalized names it must
   * leave alone, the endpoint keys in conflict, and the configuration it started from.
   */
  datatype Watch = Watch(
    base: nat, frozen: set<string>, contested: set<string>, start: map<Endpoint, Config>)

  /** The command right before position `i` was an add to `service` that the daemon refused as a kind conflict. */
  predicate AfterConflict(log: seq<Event>, base: nat, i: nat, service: string) {
    && base < i <= |log|
    && log[i - 1].outcome == Conflict && log[i - 1].cmd.ServeAdd? && log[i - 1].cmd.args.service == service
  }

  /** What the cycle may issue as command number `i`. */
  predicate Permitted(w: Watch, log: seq<Event>, i: nat, cmd: Command) {
    match cmd
    case ServeAdd(args) => KeyOf(Endpoint(args.service, args.port)) !in w.contested
    case PathOff(service, _, port, _) => KeyOf(Endpoint(service, port)) !in w.contested
    case Drain(service) => NormalizeServiceName(service) !in w.frozen
    case Advertise(service) => NormalizeServiceName(service) !in w.frozen
    case Clear(service) => NormalizeServiceName(service) !in w.frozen || AfterConflict(log, w.base, i, service)
  }

  ghost predicate TouchedSince(log: seq<Event>, base: nat, e: Endpoint) {
    exists i | base <= i < |log| :: Touches(log[i].cmd, e)
  }

  ghost predicate Tracked(w: Watch, log: seq<Event>, now: map<Endpoint, Config>) {
    forall e :: At(now, e) == At(w.start, e) || TouchedSince(log, w.base, e)
  }

  ghost predicate AllPermitted(w: Watch, log: seq<Event>) {
    w.base <= |log| && forall i | w.base <= i < |log| :: Permitted(w, log, i, log[i].cmd)
  }

  ghost predicate Guarded(w: Watch, log: seq<Event>, now: map<Endpoint, Config>) {
    AllPermitted(w, log) && Tracked(w, log, now)
  }

  lemma GuardStep(w: Watch, log: seq<Event>, host: Host, cmd: Command, outcome: Outcome, next: Host)
    requires Guarded(w, log, host.serve) && Permitted(w, log, |log|, cmd)
    requires next == host || next == Execute(host, cmd).0
    ensures Guarded(w, log + [Event(cmd, outcome)], next.serve)
  {
    var more := log + [Event(cmd, outcome)];
    assert forall i | 0 <= i < |log| :: more[i] == log[i];
    forall i | w.base <= i < |more| ensures Permitted(w, more, i, more[i].cmd) {
      if i < |log| {
        assert Permitted(w, log, i, log[i].cmd);
      }
    }
    forall e ensures At(next.serve, e) == At(w.start, e) || TouchedSince(more, w.base, e) {
      TrackStep(w, log, host, cmd, outcome, next, e);
    }
  }

  lemma TrackStep(w: Watch, log: seq<Event>, host: Host, cmd: Command, outcome: Outcome, next: Host, e: Endpoint)
    requires w.base <= |log| && (At(host.serve, e) == At(w.start, e) || TouchedSince(log, w.base, e))
    requires next == host || next == Execute(host, cmd).0
    ensures At(next.serve, e) == At(w.start, e) || TouchedSince(log + [Event(cmd, outcome)], w.base, e)
  {
    var more := log + [Event(cmd, outcome)];
    if Touches(cmd, e) {
      assert more[|log|].cmd == cmd;
    } else {
      UntouchedStays(host, cmd, e);
      if TouchedSince(log, w.base, e) {
        var i :| w.base <= i < |log| && Touches(log[i].cmd, e);
        assert more[i] == log[i];
      }
    }
  }

  /**
   * A contested endpoint's service is frozen: its entry stays exactly as it was unless an add to
   * a sibling port was refused as a kind conflict, and nothing drains it, re-advertises it as a
   * repair, or touches the endpoint itself.
   */
  lemma ContestedStaysUnlessSiblingConflicts(w: Watch, log: seq<Event>, now: map<Endpoint, Config>, e: Endpoint)
    requires Guarded(w, log, now)
    requires KeyOf(e) in w.contested && NormalizeServiceName(e.name) in w.frozen
    ensures forall i | w.base <= i < |log| ::
              && log[i].cmd != Drain(e.name) && log[i].cmd != Advertise(e.name)
              && (Touches(log[i].cmd, e) ==> log[i].cmd == Clear(e.name) && AfterConflict(log, w.base, i, e.name))
    ensures At(now, e) != At(w.start, e) ==>
              exists i | w.base < i < |log| :: log[i].cmd == Clear(e.name) && AfterConflict(log, w.base, i, e.name)
  {
    forall i | w.base <= i < |log|
      ensures && log[i].cmd != Drain(e.name) && log[i].cmd != Advertise(e.name)
              && (Touches(log[i].cmd, e) ==> log[i].cmd == Clear(e.name) && AfterConflict(log, w.base, i, e.name))
    {
      assert Permitted(w, log, i, log[i].cmd);
    }
    if At(now, e) != At(w.start, e) {
      assert TouchedSince(log, w.base, e);
      var i :| w.base <= i < |log| && Touches(log[i].cmd, e);
      assert log[i].cmd == Clear(e.name);
    }
  }
}
