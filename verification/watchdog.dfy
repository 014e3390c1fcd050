/** The watchdog that gives up on a Tailscale socket that stays unreachable. */
module Watchdog {

  /** One look at the socket. */
  datatype Probe = Probe(reachable: bool, at: int)

  /** The zero time: no probe happens then. */
  const ZERO: int := 0

  /** Where the unbroken failing run at the end of the trace starts; |trace| if the last probe got through. */
  function RunStart(trace: seq<Probe>): (r: nat)
    ensures r <= |trace|
    ensures forall i | r <= i < |trace| :: !trace[i].reachable
    ensures r > 0 ==> trace[r - 1].reachable
  {
    if trace == [] || trace[|trace| - 1].reachable then |trace| else RunStart(trace[..|trace| - 1])
  }

  /**
   * The socket got through before, and has failed since for at least `grace`, from the first of several failing probes.
   */
  ghost predicate Lost(trace: seq<Probe>, grace: int) {
    var start := RunStart(trace);
    0 < start < |trace| - 1 && trace[|trace| - 1].at - trace[start].at >= grace
  }

  ghost predicate EverReached(trace: seq<Probe>) {
    exists i | 0 <= i < |trace| :: trace[i].reachable
  }

  ghost predicate EverLost(trace: seq<Probe>, grace: int) {
    exists n | 0 < n <= |trace| :: Lost(trace[..n], grace)
  }

  /** Where the failing run that counts started; none before the first success. */
  ghost function LostSince(trace: seq<Probe>): int {
    if EverReached(trace) && RunStart(trace) < |trace| then trace[RunStart(trace)].at else ZERO
  }

  /** What the watchdog remembers of its probes. */
  ghost predicate Follows(trace: seq<Probe>, grace: int, armed: bool, lostAt: int, reported: bool) {
    && (forall i | 0 <= i < |trace| :: trace[i].at != ZERO)
    && (armed <==> EverReached(trace)) && lostAt == LostSince(trace) && (reported <==> EverLost(trace, grace))
  }

  class SocketWatchdog {
    const enabled: bool
    const grace: int
    const socketPath: string
    var armed: bool
    var lostAt: int
    var reported: bool
    /** How often onLost was called. */
    var lostCalls: nat
    ghost var trace: seq<Probe>

    ghost predicate Valid()
      reads this
    {
      Follows(trace, grace, armed, lostAt, reported) && lostCalls == if reported then 1 else 0
    }

    constructor (enabled: bool, grace: int, socketPath: string)
      ensures Valid() && trace == [] && lostCalls == 0
      ensures this.enabled == enabled && this.grace == grace && this.socketPath == socketPath
    {
      this.enabled, this.grace, this.socketPath := enabled, grace, socketPath;
      armed, lostAt, reported, lostCalls, trace := false, ZERO, false, 0, [];
    }

    predicate Watches() {
      enabled && grace > 0 && socketPath != ""
    }

    /** One probe; answers whether the watchdog is done. */
    method Check(reachable: bool, now: int) returns (done: bool)
      requires Valid() && now != ZERO
      modifies this
      ensures Valid() && trace == old(trace) + [Probe(reachable, now)]
      ensures done <==> Lost(trace, grace)
      ensures lostCalls <= 1 && (lostCalls == 1 <==> EverLost(trace, grace))
      ensures lostCalls == 1 <==> done || old(lostCalls) == 1
    {
      TraceStep(trace, Probe(reachable, now), grace);
      hide EverReached, EverLost, RunStart, Lost, LostSince;
      trace := trace + [Probe(reachable, now)];
      if reachable {
        armed, lostAt := true, ZERO;
        return false;
      }
      if !armed {
        return false;
      }
      if lostAt == ZERO {
        lostAt := now;
        return false;
      }
      if now - lostAt < grace {
        return false;
      }
      if !reported {
        reported := true;
        lostCalls := lostCalls + 1;
      }
      return true;
    }

    /** The probes of one run, in order; it ends with the first one that finds the socket lost, or before any. */
    method Run(probes: seq<Probe>) returns (n: nat)
      requires Valid() && trace == [] && forall p | p in probes :: p.at != ZERO
      modifies this
      ensures Valid() && n <= |probes| && trace == probes[..n]
      ensures !enabled || grace <= 0 || socketPath == "" ==> n == 0 && lostCalls == 0
      ensures enabled && grace > 0 && socketPath != "" && lostCalls == 0 ==> n == |probes| && !EverLost(probes, grace)
      ensures lostCalls != 0 ==>
                lostCalls == 1 && n > 0 && Lost(probes[..n], grace) && !EverLost(probes[..n - 1], grace)
    {
      FreshlyStarted(grace, armed, lostAt, reported);
      hide Follows, RunStart, Lost, EverLost;
      n := 0;
      if !Watches() {
        return;
      }
      while n < |probes|
        invariant Valid() && n <= |probes| && trace == probes[..n]
        invariant lostCalls == 0 && !EverLost(trace, grace)
      {
        ProbeOf(probes, n);
        var done := Check(probes[n].reachable, probes[n].at);
        n := n + 1;
        if done {
          return;
        }
      }
      assert probes[..n] == probes;
    }
  }

  lemma FreshlyStarted(grace: int, armed: bool, lostAt: int, reported: bool)
    requires Follows([], grace, armed, lostAt, reported)
    ensures !EverLost([], grace) && !reported
  {
  }

  lemma ProbeOf(probes: seq<Probe>, n: nat)
    requires n < |probes|
    ensures probes[n] in probes && probes[..n + 1] == probes[..n] + [Probe(probes[n].reachable, probes[n].at)]
  {
  }

  lemma TraceStep(trace: seq<Probe>, p: Probe, grace: int)
    requires p.at != ZERO && forall i | 0 <= i < |trace| :: trace[i].at != ZERO
    ensures var more := trace + [p];
            && (EverReached(more) <==> p.reachable || EverReached(trace))
            && LostSince(more) == (if p.reachable || !EverReached(trace) then ZERO
                                   else if LostSince(trace) == ZERO then p.at else LostSince(trace))
            && (Lost(more, grace) <==>
                !p.reachable && EverReached(trace) && LostSince(trace) != ZERO && p.at - LostSince(trace) >= grace)
            && (EverLost(more, grace) <==> Lost(more, grace) || EverLost(trace, grace))
  {
    var more := trace + [p];
    assert more[..|more| - 1] == trace && more[..|more|] == more;
    assert more[|trace|] == p;
    assert forall i | 0 <= i < |trace| :: more[i] == trace[i];
    assert forall n | 0 < n <= |trace| :: more[..n] == trace[..n];
    assert RunStart(more) == if p.reachable then |more| else RunStart(trace);
    assert RunStart(trace) > 0 ==> EverReached(trace);
  }
}
