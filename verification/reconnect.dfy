/** The pace of reconnecting to the cloud, and when it gives up. Durations in nanoseconds. */
module Reconnect {
  import opened Types

  const SECOND: nat := 1_000_000_000
  const MINUTE: nat := 60 * SECOND
  const HOUR: nat := 60 * MINUTE
  const MIN_BACKOFF: nat := 1 * SECOND
  const MAX_BACKOFF: nat := 60 * SECOND
  const RARE_RETRY_INTERVAL: nat := 15 * MINUTE
  const RARE_RETRY_WINDOW: nat := 24 * HOUR
  /** The shortest wait after a rare-retry rejection. */
  const RARE_RETRY_MIN: nat := 12 * MINUTE

  /** Jittered exponential delays; the jitter may be anything the generator can return. */
  class Backoff {
    var cur: nat

    ghost predicate Valid()
      reads this
    {
      cur == 0 || MIN_BACKOFF <= cur <= MAX_BACKOFF
    }

    constructor ()
      ensures Valid() && cur == 0
    {
      cur := 0;
    }

    method Next() returns (delay: nat)
      requires Valid()
      modifies this
      ensures Valid() && cur > 0
      ensures old(cur) == 0 ==> cur == MIN_BACKOFF
      ensures old(cur) != 0 ==> cur == if 2 * old(cur) > MAX_BACKOFF then MAX_BACKOFF else 2 * old(cur)
      ensures cur / 2 <= delay <= cur
      ensures SECOND / 2 <= delay <= MINUTE
    {
      if cur < MIN_BACKOFF {
        cur := MIN_BACKOFF;
      } else {
        cur := cur * 2;
        if cur > MAX_BACKOFF {
          cur := MAX_BACKOFF;
        }
      }
      var half := cur / 2;
      var jitter: nat :| jitter <= cur - half;
      delay := half + jitter;
    }

    /** The next delay will be in the 30 to 60 second range. */
    method Slow()
      modifies this
      ensures Valid() && cur == MAX_BACKOFF
    {
      cur := MAX_BACKOFF;
    }

    method Reset()
      modifies this
      ensures Valid() && cur == 0
    {
      cur := 0;
    }

    method Around(d: nat) returns (delay: nat)
      ensures d - d / 5 <= delay <= d + d / 5
    {
      var spread := d / 5;
      var jitter: nat :| jitter <= 2 * spread;
      delay := d - spread + jitter;
    }
  }

  datatype RejectAction = Retry | RetrySlow | RetryRare | Stop

  /** How one connection attempt ends. */
  datatype Session =
    | Disconnected(accepted: bool)
    | UpgradeRefused(status: int)
    | HelloRefused(code: string)

  function HttpRejection(status: int): Option<RejectAction> {
    if status == 401 then Some(Stop) else if status == 403 then Some(RetryRare) else None
  }

  function HelloRejection(code: string): RejectAction {
    if code == "invalid_key" then Stop
    else if code == "blocked" || code == "protocol_mismatch" then RetryRare
    else if code == "enrollment_closed" || code == "over_cap" then RetrySlow
    else Retry
  }

  function Rejection(s: Session): Option<RejectAction> {
    match s
    case Disconnected(_) => None
    case UpgradeRefused(status) => HttpRejection(status)
    case HelloRefused(code) => Some(HelloRejection(code))
  }

  predicate Accepted(s: Session) {
    s.Disconnected? && s.accepted
  }

  // ---- what each outcome asks for ----

  /** Nothing changes until the container restarts. */
  predicate Terminal(s: Session) {
    s == UpgradeRefused(401) || s == HelloRefused("invalid_key")
  }

  /** Worth asking again, but rarely. */
  predicate IsRare(s: Session) {
    s == UpgradeRefused(403) || s == HelloRefused("blocked") || s == HelloRefused("protocol_mismatch")
  }

  /** Somebody has to act: worth asking again about every minute. */
  predicate IsSlow(s: Session) {
    s == HelloRefused("enrollment_closed") || s == HelloRefused("over_cap")
  }

  /** An acceptance or any other rejection ends a run of rare-retry rejections; an ordinary failure does not. */
  predicate EndsRun(s: Session) {
    Accepted(s) || Terminal(s) || (s.HelloRefused? && !IsRare(s))
  }

  /** The classification is the one above, for every status and code. */
  lemma RejectionIs(s: Session)
    ensures Rejection(s) == Some(Stop) <==> Terminal(s)
    ensures Rejection(s) == Some(RetryRare) <==> IsRare(s)
    ensures Rejection(s) == Some(RetrySlow) <==> IsSlow(s)
    ensures Rejection(s).Some? && Rejection(s) != Some(RetryRare) <==> EndsRun(s) && !Accepted(s)
  {
  }

  /**
   * The step of the backoff that the last outcome waits by: it doubles up to a minute and starts over when accepted.
   */
  function Level(attempts: seq<Attempt>): nat {
    if attempts == [] then 0
    else
      var level, last := Level(attempts[..|attempts| - 1]), attempts[|attempts| - 1].session;
      if Accepted(last) then SECOND
      else if IsRare(last) then level
      else if IsSlow(last) then MINUTE
      else if level == 0 then SECOND
      else if 2 * level < MINUTE then 2 * level
      else MINUTE
  }

  /** Every wait but a rare one was between half and all of its step. */
  ghost predicate Stepped(attempts: seq<Attempt>, rounds: seq<Round>, n: nat) {
    forall k: nat | k < n && k < |rounds| && k < |attempts| && !IsRare(attempts[k].session) ::
      Level(attempts[..k + 1]) / 2 <= rounds[k].wait - attempts[k].oversleep <= Level(attempts[..k + 1])
  }

  lemma SteppedOneMore(attempts: seq<Attempt>, rounds: seq<Round>, r: Round, level: nat)
    requires |rounds| < |attempts| && Stepped(attempts, rounds, |rounds|)
    requires !IsRare(attempts[|rounds|].session) ==>
               level == Level(attempts[..|rounds| + 1])
               && level / 2 <= r.wait - attempts[|rounds|].oversleep <= level
    ensures Stepped(attempts, rounds + [r], |rounds| + 1)
  {
    hide Level, IsRare;
  }

  lemma LevelOneMore(attempts: seq<Attempt>, i: nat)
    requires i < |attempts|
    ensures var level, last := Level(attempts[..i]), attempts[i].session;
            Level(attempts[..i + 1]) ==
            if Accepted(last) then SECOND
            else if IsRare(last) then level
            else if IsSlow(last) then MINUTE
            else if level == 0 then SECOND
            else if 2 * level < MINUTE then 2 * level
            else MINUTE
  {
    assert attempts[..i + 1][..i] == attempts[..i];
  }

  /** One round of the loop: how the session ended, when, and how long the loop waited after it. */
  datatype Round = Round(session: Session, at: nat, wait: nat)

  /** `s` and `i` are rare-retry rejections of the same run. */
  ghost predicate SameRun(rounds: seq<Round>, s: nat, i: nat) {
    && s <= i < |rounds| && IsRare(rounds[s].session) && IsRare(rounds[i].session)
    && forall k | s <= k <= i :: !EndsRun(rounds[k].session)
  }

  /** Round `i` is a rare-retry rejection at least a whole window after another one of its run. */
  ghost predicate WindowOver(rounds: seq<Round>, i: nat) {
    exists s: nat | s < i :: SameRun(rounds, s, i) && rounds[i].at - rounds[s].at >= RARE_RETRY_WINDOW
  }

  /** Rounds follow each other after the wait, and a rare-retry rejection is waited out for at least 12 minutes. */
  ghost predicate Spaced(rounds: seq<Round>) {
    && (forall k | 0 < k < |rounds| :: rounds[k].at >= rounds[k - 1].at + rounds[k - 1].wait)
    && forall k | 0 <= k < |rounds| - 1 && IsRare(rounds[k].session) :: rounds[k].wait >= RARE_RETRY_MIN
  }

  function RareCount(rounds: seq<Round>, s: nat, i: nat): nat
    requires s <= i <= |rounds|
    decreases i - s
  {
    if s == i then 0 else RareCount(rounds, s, i - 1) + if IsRare(rounds[i - 1].session) then 1 else 0
  }

  // ---- the loop's own bookkeeping ----

  /** `s` is a rare-retry rejection whose run the rounds so far have not ended. */
  ghost predicate Open(rounds: seq<Round>, s: nat) {
    s < |rounds| && IsRare(rounds[s].session) && forall k | s <= k < |rounds| :: !EndsRun(rounds[k].session)
  }

  /** The time kept is that of the first rejection of the open run. */
  ghost predicate IsSince(rounds: seq<Round>, since: Option<nat>) {
    match since
    case None => forall s: nat :: !Open(rounds, s)
    case Some(at) =>
      (exists s: nat :: Open(rounds, s) && rounds[s].at == at) && forall s: nat | Open(rounds, s) :: rounds[s].at >= at
  }

  ghost predicate Monotone(rounds: seq<Round>) {
    forall j, k | 0 <= j <= k < |rounds| :: rounds[j].at <= rounds[k].at
  }

  lemma OpenStep(rounds: seq<Round>, r: Round, s: nat)
    ensures Open(rounds + [r], s) <==> !EndsRun(r.session) && (Open(rounds, s) || (s == |rounds| && IsRare(r.session)))
  {
    var more := rounds + [r];
    assert more[|rounds|] == r && forall k | 0 <= k < |rounds| :: more[k] == rounds[k];
  }

  lemma SinceStep(rounds: seq<Round>, r: Round, since: Option<nat>)
    requires IsSince(rounds, since) && forall k | 0 <= k < |rounds| :: rounds[k].at <= r.at
    ensures var kept := if EndsRun(r.session) then None else since;
            IsSince(rounds + [r], if IsRare(r.session) && kept.None? then Some(r.at) else kept)
    ensures IsRare(r.session) ==>
              (WindowOver(rounds + [r], |rounds|) <==> since.Some? && r.at - since.value >= RARE_RETRY_WINDOW)
  {
    var more := rounds + [r];
    forall s: nat
      ensures Open(more, s) <==> !EndsRun(r.session) && (Open(rounds, s) || (s == |rounds| && IsRare(r.session)))
      ensures IsRare(r.session) && s < |rounds| ==> (SameRun(more, s, |rounds|) <==> Open(rounds, s))
    {
      OpenStep(rounds, r, s);
      assert more[|rounds|] == r && forall k | 0 <= k < |rounds| :: more[k] == rounds[k];
    }
    assert more[|rounds|] == r && forall k | 0 <= k < |rounds| :: more[k] == rounds[k];
  }

  // ---- the loop ----

  /** A connection attempt: how it ends, how long it takes, and how much longer than asked the wait after it is. */
  datatype Attempt = Attempt(session: Session, duration: nat, oversleep: nat)

  /** The delay chosen after a session lies in the range its kind of outcome promises. */
  predicate Paced(s: Session, delay: nat) {
    if IsRare(s) then 12 * MINUTE <= delay <= 18 * MINUTE
    else if IsSlow(s) then 30 * SECOND <= delay <= MINUTE
    else SECOND / 2 <= delay <= MINUTE
  }

  ghost predicate StopsAt(rounds: seq<Round>, i: nat)
    requires i < |rounds|
  {
    Terminal(rounds[i].session) || (IsRare(rounds[i].session) && WindowOver(rounds, i))
  }

  ghost predicate NoneStops(rounds: seq<Round>, n: nat) {
    forall i: nat | i < n && i < |rounds| :: !StopsAt(rounds, i)
  }

  ghost predicate Follows(rounds: seq<Round>, now: nat) {
    |rounds| > 0 ==> rounds[|rounds| - 1].at + rounds[|rounds| - 1].wait <= now
  }

  lemma StopsInPrefix(rounds: seq<Round>, r: Round, i: nat)
    requires i < |rounds|
    ensures StopsAt(rounds + [r], i) <==> StopsAt(rounds, i)
  {
    var more := rounds + [r];
    assert forall k | 0 <= k < |rounds| :: more[k] == rounds[k];
    forall s: nat | s < i ensures SameRun(more, s, i) <==> SameRun(rounds, s, i) {
    }
    assert WindowOver(more, i) <==> WindowOver(rounds, i);
  }

  lemma RoundsStep(rounds: seq<Round>, r: Round, now: nat)
    requires Spaced(rounds) && Monotone(rounds) && Follows(rounds, now) && now <= r.at
    requires NoneStops(rounds, |rounds|)
    requires forall k | 0 <= k < |rounds| && IsRare(rounds[k].session) :: rounds[k].wait >= RARE_RETRY_MIN
    ensures Spaced(rounds + [r]) && Monotone(rounds + [r])
    ensures NoneStops(rounds + [r], |rounds|)
    ensures forall k | 0 <= k < |rounds| :: rounds[k].at <= r.at
  {
    var more := rounds + [r];
    assert forall k | 0 <= k < |rounds| :: more[k] == rounds[k];
    forall i: nat | i < |rounds| ensures !StopsAt(more, i) {
      StopsInPrefix(rounds, r, i);
    }
  }

  ghost predicate RareWaits(rounds: seq<Round>) {
    forall k | 0 <= k < |rounds| && IsRare(rounds[k].session) :: rounds[k].wait >= RARE_RETRY_MIN
  }

  /** Chooses the delay after a session that does not stop the loop. */
  method Pace(bo: Backoff, s: Session) returns (delay: nat)
    requires bo.Valid() && !Terminal(s) && (Accepted(s) ==> bo.cur == 0)
    modifies bo
    ensures bo.Valid() && Paced(s, delay)
    ensures IsRare(s) ==> bo.cur == old(bo.cur)
    ensures !IsRare(s) ==> bo.cur / 2 <= delay <= bo.cur
    ensures IsSlow(s) ==> bo.cur == MINUTE
    ensures !IsRare(s) && !IsSlow(s) ==>
              bo.cur == if old(bo.cur) == 0 then SECOND
                        else if 2 * old(bo.cur) < MINUTE then 2 * old(bo.cur)
                        else MINUTE
  {
    RejectionIs(s);
    var rejection := Rejection(s);
    if rejection == Some(RetryRare) {
      delay := bo.Around(RARE_RETRY_INTERVAL);
    } else {
      if rejection == Some(RetrySlow) {
        bo.Slow();
      }
      delay := bo.Next();
    }
  }

  /** How long the last round waits does not matter for what stopped before it. */
  lemma WaitIsFree(rounds: seq<Round>, session: Session, at: nat, wait: nat, since: Option<nat>)
    requires RareWaits(rounds) && (IsRare(session) ==> wait >= RARE_RETRY_MIN)
    ensures var short, long := rounds + [Round(session, at, 0)], rounds + [Round(session, at, wait)];
            && (Spaced(short) ==> Spaced(long)) && (Monotone(short) ==> Monotone(long)) && RareWaits(long)
            && (IsSince(short, since) ==> IsSince(long, since))
            && (forall i: nat | i < |short| :: StopsAt(long, i) == StopsAt(short, i))
  {
    var short, long := rounds + [Round(session, at, 0)], rounds + [Round(session, at, wait)];
    assert forall k | 0 <= k < |short| :: short[k].session == long[k].session && short[k].at == long[k].at;
    forall s: nat ensures Open(short, s) == Open(long, s) {
    }
    forall s: nat, i: nat ensures SameRun(short, s, i) == SameRun(long, s, i) {
    }
    forall i: nat | i < |short| ensures StopsAt(long, i) == StopsAt(short, i) {
      assert WindowOver(long, i) == WindowOver(short, i);
    }
  }

  /** The round waited for as long as its outcome asks, give or take the timer's oversleep. */
  predicate WaitedAsTold(attempt: Attempt, r: Round) {
    r.session == attempt.session && attempt.oversleep <= r.wait && Paced(r.session, r.wait - attempt.oversleep)
  }

  /** When the current run of rare rejections began, once this outcome is in. */
  function SinceAfter(s: Session, since: Option<nat>, at: nat): Option<nat> {
    var rejection := Rejection(s);
    var kept := if Accepted(s) || (rejection.Some? && rejection != Some(RetryRare)) then None else since;
    if rejection == Some(RetryRare) && kept.None? then Some(at) else kept
  }

  predicate GivesUp(s: Session, since: Option<nat>, at: nat) {
    || Rejection(s) == Some(Stop)
    || (Rejection(s) == Some(RetryRare) && since.Some? && at - since.value >= RARE_RETRY_WINDOW)
  }

  /** The loop is between two attempts. */
  ghost predicate Running(attempts: seq<Attempt>, rounds: seq<Round>, now: nat, since: Option<nat>) {
    && |rounds| <= |attempts|
    && (forall k | 0 <= k < |rounds| :: WaitedAsTold(attempts[k], rounds[k]))
    && Spaced(rounds) && Monotone(rounds) && RareWaits(rounds) && Follows(rounds, now)
    && NoneStops(rounds, |rounds|) && IsSince(rounds, since)
  }

  lemma RoundStopsOrNot(rounds: seq<Round>, r: Round, now: nat, since: Option<nat>)
    requires Spaced(rounds) && Monotone(rounds) && RareWaits(rounds) && Follows(rounds, now) && now <= r.at
    requires NoneStops(rounds, |rounds|) && IsSince(rounds, since)
    ensures Spaced(rounds + [r]) && Monotone(rounds + [r]) && NoneStops(rounds + [r], |rounds|)
    ensures StopsAt(rounds + [r], |rounds|) <==> GivesUp(r.session, since, r.at)
    ensures IsSince(rounds + [r], SinceAfter(r.session, since, r.at))
  {
    RejectionIs(r.session);
    RoundsStep(rounds, r, now);
    SinceStep(rounds, r, since);
    hide Spaced, Monotone, IsSince, NoneStops, WindowOver, Follows, RareWaits;
    assert (rounds + [r])[|rounds|] == r;
  }

  lemma NoneStopsMore(rounds: seq<Round>)
    requires rounds != [] && NoneStops(rounds, |rounds| - 1) && !StopsAt(rounds, |rounds| - 1)
    ensures NoneStops(rounds, |rounds|)
  {
    hide StopsAt;
  }

  lemma WaitsOn(
    attempts: seq<Attempt>, rounds: seq<Round>, session: Session, now: nat, at: nat, wait: nat, since: Option<nat>)
    requires Running(attempts, rounds, now, since) && now <= at && |rounds| < |attempts|
    requires WaitedAsTold(attempts[|rounds|], Round(session, at, wait)) && !GivesUp(session, since, at)
    ensures Running(attempts, rounds + [Round(session, at, wait)], at + wait, SinceAfter(session, since, at))
  {
    hide Spaced, Monotone, NoneStops, StopsAt, IsSince, Rejection, IsRare, EndsRun, SinceAfter;
    var short, long := rounds + [Round(session, at, 0)], rounds + [Round(session, at, wait)];
    RareWaitIsLong(attempts[|rounds|], Round(session, at, wait));
    RoundStopsOrNot(rounds, Round(session, at, 0), now, since);
    NoneStopsMore(short);
    WaitIsFree(rounds, session, at, wait, SinceAfter(session, since, at));
    SameStops(short, long);
  }

  lemma SameStops(short: seq<Round>, long: seq<Round>)
    requires |short| == |long| && NoneStops(short, |short|)
    requires forall i: nat | i < |short| :: StopsAt(long, i) == StopsAt(short, i)
    ensures NoneStops(long, |long|)
  {
    hide StopsAt;
  }

  lemma RareWaitIsLong(attempt: Attempt, r: Round)
    requires WaitedAsTold(attempt, r)
    ensures IsRare(r.session) ==> r.wait >= RARE_RETRY_MIN
  {
  }

  /**
   * The reconnect loop: every wait is paced, and the loop stops at the first round that is terminal
   * or a rare-retry rejection a whole window after an earlier one of its run, and nowhere else.
   */
  method Run(attempts: seq<Attempt>, start: nat) returns (rounds: seq<Round>, stopped: bool)
    ensures |rounds| <= |attempts| && (!stopped ==> |rounds| == |attempts|)
    ensures forall k | 0 <= k < |rounds| :: rounds[k].session == attempts[k].session
    ensures forall k | 0 <= k < if stopped then |rounds| - 1 else |rounds| :: WaitedAsTold(attempts[k], rounds[k])
    ensures Spaced(rounds) && Monotone(rounds)
    ensures stopped ==> |rounds| > 0 && StopsAt(rounds, |rounds| - 1)
    ensures NoneStops(rounds, if stopped then |rounds| - 1 else |rounds|)
    ensures forall k: nat | k < |rounds| && Terminal(rounds[k].session) :: stopped && k == |rounds| - 1
    ensures Stepped(attempts, rounds, if stopped then |rounds| - 1 else |rounds|)
  {
    var bo := new Backoff();
    var now: nat := start;
    var rareSince: Option<nat> := None;
    rounds, stopped := [], false;
    hide Spaced, Monotone, RareWaits, NoneStops, StopsAt, IsSince, Follows, Paced, Rejection, IsRare, EndsRun, Accepted,
         Terminal, IsSlow, Level, Stepped, SinceAfter, GivesUp, WaitedAsTold, Running;
    NothingYet(attempts, start);
    for i := 0 to |attempts|
      invariant bo.Valid() && fresh(bo) && |rounds| == i && !stopped
      invariant Running(attempts, rounds, now, rareSince)
      invariant Stepped(attempts, rounds, i) && bo.cur == Level(attempts[..i])
    {
      var session := attempts[i].session;
      ghost var before, since := now, rareSince;
      now := now + attempts[i].duration;
      LevelOneMore(attempts, i);
      if Accepted(session) {
        bo.Reset();
      }
      if GivesUp(session, rareSince, now) {
        StopsHere(attempts, rounds, session, before, now, since);
        rounds, stopped := rounds + [Round(session, now, 0)], true;
        return;
      }
      GoesOn(session, since, now);
      rareSince := SinceAfter(session, rareSince, now);
      var delay := Pace(bo, session);
      var wait := delay + attempts[i].oversleep;
      ToldWait(attempts[i], session, now, delay);
      WaitsOn(attempts, rounds, session, before, now, wait, since);
      SteppedOneMore(attempts, rounds, Round(session, now, wait), bo.cur);
      rounds, now := rounds + [Round(session, now, wait)], now + wait;
    }
    RunsOut(attempts, rounds, now, rareSince);
  }

  /** What holds of the rounds when the loop stops. */
  lemma StopsHere(
    attempts: seq<Attempt>, rounds: seq<Round>, session: Session, now: nat, at: nat, since: Option<nat>)
    requires Running(attempts, rounds, now, since) && now <= at && |rounds| < |attempts|
    requires session == attempts[|rounds|].session && GivesUp(session, since, at)
    requires Stepped(attempts, rounds, |rounds|)
    ensures var more := rounds + [Round(session, at, 0)];
            && (forall k | 0 <= k < |more| :: more[k].session == attempts[k].session)
            && (forall k | 0 <= k < |rounds| :: WaitedAsTold(attempts[k], more[k]))
            && Spaced(more) && Monotone(more) && StopsAt(more, |rounds|) && NoneStops(more, |rounds|)
            && (forall k: nat | k < |more| && Terminal(more[k].session) :: k == |rounds|)
            && Stepped(attempts, more, |rounds|)
  {
    hide Spaced, Monotone, IsSince, RareWaits, Follows, Terminal, IsRare, GivesUp, Paced, Level, Rejection, SinceAfter;
    var more := rounds + [Round(session, at, 0)];
    RoundStopsOrNot(rounds, Round(session, at, 0), now, since);
    assert forall k | 0 <= k < |rounds| :: more[k] == rounds[k];
    NoneTerminal(more, |rounds|);
  }

  lemma NoneTerminal(rounds: seq<Round>, n: nat)
    requires NoneStops(rounds, n)
    ensures forall k: nat | k < n && k < |rounds| :: !Terminal(rounds[k].session)
  {
    hide Terminal, IsRare, WindowOver;
    forall k: nat | k < n && k < |rounds| ensures !Terminal(rounds[k].session) {
      assert !StopsAt(rounds, k);
    }
  }

  lemma RunsOut(attempts: seq<Attempt>, rounds: seq<Round>, now: nat, since: Option<nat>)
    requires Running(attempts, rounds, now, since)
    ensures forall k | 0 <= k < |rounds| :: WaitedAsTold(attempts[k], rounds[k])
    ensures forall k | 0 <= k < |rounds| :: rounds[k].session == attempts[k].session
    ensures Spaced(rounds) && Monotone(rounds) && NoneStops(rounds, |rounds|)
    ensures forall k: nat | k < |rounds| :: !Terminal(rounds[k].session)
  {
    hide Spaced, Monotone, IsSince, RareWaits, Follows, Paced, NoneStops, Terminal;
    NoneTerminal(rounds, |rounds|);
  }

  lemma GoesOn(session: Session, since: Option<nat>, at: nat)
    requires !GivesUp(session, since, at)
    ensures !Terminal(session)
    ensures Accepted(session) ==> !IsRare(session) && !IsSlow(session)
    ensures IsRare(session) ==> !IsSlow(session)
  {
    RejectionIs(session);
  }

  lemma ToldWait(attempt: Attempt, session: Session, at: nat, delay: nat)
    requires session == attempt.session && Paced(session, delay)
    ensures WaitedAsTold(attempt, Round(session, at, delay + attempt.oversleep))
  {
  }

  lemma NothingYet(attempts: seq<Attempt>, start: nat)
    ensures Running(attempts, [], start, None)
    ensures Stepped(attempts, [], 0) && Level(attempts[..0]) == 0
  {
  }

  // ---- the bounds ----

  lemma {:induction false} RareRoundsTakeTime(rounds: seq<Round>, s: nat, i: nat)
    requires Spaced(rounds) && s <= i < |rounds| && IsRare(rounds[s].session)
    ensures rounds[i].at - rounds[s].at >= RareCount(rounds, s, i) * RARE_RETRY_MIN
    ensures RareCount(rounds, s, i) >= if s < i then 1 else 0
    decreases i - s
  {
    if s < i {
      RareRoundsTakeTime(rounds, s, i - 1);
      assert rounds[i].at >= rounds[i - 1].at + rounds[i - 1].wait;
    }
  }

  lemma {:induction false} LastRareBefore(rounds: seq<Round>, s: nat, i: nat) returns (j: nat)
    requires s < i <= |rounds| && IsRare(rounds[s].session)
    ensures s <= j < i && IsRare(rounds[j].session) && RareCount(rounds, s, j + 1) == RareCount(rounds, s, i)
    decreases i - s
  {
    if IsRare(rounds[i - 1].session) {
      j := i - 1;
    } else {
      j := LastRareBefore(rounds, s, i - 1);
    }
  }

  /** A run of rare-retry rejections, ordinary failures in between or not, holds at most 121 of them. */
  lemma AtMost121Rejections(rounds: seq<Round>, s: nat, i: nat)
    requires Spaced(rounds) && SameRun(rounds, s, i)
    requires forall k: nat | k < i :: !StopsAt(rounds, k)
    ensures RareCount(rounds, s, i + 1) <= 121
  {
    hide SameRun, EndsRun, IsRare, Rejection, StopsAt, Spaced;
    RunIsRare(rounds, s, i);
    if s < i {
      var j := LastRareBefore(rounds, s, i);
      if s < j {
        RareRoundsTakeTime(rounds, s, j);
        NotYetOver(rounds, s, i, j);
      }
    }
  }

  lemma RunIsRare(rounds: seq<Round>, s: nat, i: nat)
    requires SameRun(rounds, s, i)
    ensures s <= i < |rounds| && IsRare(rounds[s].session)
  {
  }

  lemma NotYetOver(rounds: seq<Round>, s: nat, i: nat, j: nat)
    requires SameRun(rounds, s, i) && s < j < i && IsRare(rounds[j].session) && !StopsAt(rounds, j)
    ensures rounds[j].at - rounds[s].at < RARE_RETRY_WINDOW
  {
    hide EndsRun, IsRare, Rejection;
    assert SameRun(rounds, s, j);
  }

  /** `s` is the rejection the run of round `i` began with. */
  ghost predicate FirstOfRun(rounds: seq<Round>, s: nat, i: nat) {
    SameRun(rounds, s, i) && forall k: nat | k < s :: !SameRun(rounds, k, i)
  }

  lemma {:induction false} RunHasFirst(rounds: seq<Round>, s: nat, i: nat)
    requires SameRun(rounds, s, i)
    ensures exists first: nat :: FirstOfRun(rounds, first, i)
  {
    if k: nat :| k < s && SameRun(rounds, k, i) {
      RunHasFirst(rounds, k, i);
    } else {
      assert FirstOfRun(rounds, s, i);
    }
  }

  /**
   * Over the rounds of any `Run`: a run of rare-retry rejections is given up neither early nor late, but at its first
   * rejection 24 hours or more after the one it began with.
   */
  lemma GivenUpAfterAWholeWindow(rounds: seq<Round>, i: nat)
    requires Monotone(rounds) && i < |rounds| && IsRare(rounds[i].session)
    ensures exists first: nat :: FirstOfRun(rounds, first, i)
    ensures forall first: nat | FirstOfRun(rounds, first, i) ::
              StopsAt(rounds, i) <==> rounds[i].at - rounds[first].at >= 24 * HOUR
  {
    RunHasFirst(rounds, i, i);
    hide EndsRun, IsRare;
    forall first: nat | FirstOfRun(rounds, first, i)
      ensures WindowOver(rounds, i) <==> rounds[i].at - rounds[first].at >= RARE_RETRY_WINDOW
    {
      assert forall s: nat | s < i && SameRun(rounds, s, i) :: first <= s && rounds[first].at <= rounds[s].at;
    }
  }
}
