/**
 * The replay protocol around the spool. Adds may happen at any moment, also while a replay hands
 * frames to a connection; replays are serialized by a lock.
 */
module Replay {
  import opened Ages
  import opened Spooling
  import opened Types

  /** Why a frame will never be replayed. */
  datatype Loss = Evicted | AgedOut | Discarded

  ghost predicate Increasing(ids: seq<nat>) {
    forall i, j | 0 <= i < j < |ids| :: ids[i] < ids[j]
  }

  /** `part` is what is left of `whole` after leaving some elements out. */
  ghost predicate Subsequence(part: seq<nat>, whole: seq<nat>)
    decreases |whole|
  {
    if whole == [] then part == []
    else
      var w := whole[..|whole| - 1];
      || Subsequence(part, w)
      || (part != [] && part[|part| - 1] == whole[|whole| - 1] && Subsequence(part[..|part| - 1], w))
  }

  /** The frames that are somewhere: handed over, in the running replay, or held. */
  function Live(sent: seq<Frame>, inFlight: seq<Frame>, held: seq<Entry>): seq<nat> {
    Ids(sent) + Ids(inFlight) + Ids(Frames(held))
  }

  /** Every frame spooled so far is in exactly one place, and the live ones are in spooling order. */
  ghost predicate Accounted(spooled: nat, live: seq<nat>, lost: map<nat, Loss>) {
    && Increasing(live)
    && (forall id | id in live :: id !in lost)
    && forall id: nat :: id < spooled <==> id in live || id in lost
  }

  lemma {:induction false} SuffixIsSubsequence(whole: seq<nat>, k: nat)
    requires k <= |whole|
    ensures Subsequence(whole[k..], whole)
  {
    if whole != [] {
      var w := whole[..|whole| - 1];
      if k == |whole| {
        SuffixIsSubsequence(w, |w|);
        assert w[|w|..] == whole[k..];
      } else {
        assert whole[k..][..|whole| - k - 1] == w[k..];
        SuffixIsSubsequence(w, k);
      }
    }
  }

  lemma {:induction false} SubsequenceKeepsOrder(a: seq<nat>, part: seq<nat>, whole: seq<nat>)
    requires Subsequence(part, whole) && Increasing(a + whole)
    ensures Increasing(a + part)
    ensures forall x | x in part :: x in whole
  {
    if whole != [] {
      var w, last := whole[..|whole| - 1], whole[|whole| - 1];
      assert whole == w + [last];
      assert a + whole == (a + w) + [last];
      PrefixIncreasing(a + w, [last]);
      if Subsequence(part, w) {
        SubsequenceKeepsOrder(a, part, w);
      } else {
        var p := part[..|part| - 1];
        SubsequenceKeepsOrder(a, p, w);
        assert part == p + [last];
        assert a + part == (a + p) + [last];
        LastIsLargest(a, w, last);
        AppendLargest(a + p, last);
      }
    }
  }

  lemma PrefixIncreasing(a: seq<nat>, b: seq<nat>)
    requires Increasing(a + b)
    ensures Increasing(a)
  {
    assert forall i | 0 <= i < |a| :: (a + b)[i] == a[i];
  }

  lemma AppendLargest(s: seq<nat>, x: nat)
    requires Increasing(s) && forall y | y in s :: y < x
    ensures Increasing(s + [x])
  {
    forall i, j | 0 <= i < j < |s + [x]| ensures (s + [x])[i] < (s + [x])[j] {
      assert s[i] in s;
    }
  }

  lemma LastIsLargest(a: seq<nat>, w: seq<nat>, last: nat)
    requires Increasing((a + w) + [last])
    ensures forall x | x in a || x in w :: x < last
  {
    var all := (a + w) + [last];
    assert all[|a + w|] == last;
    assert forall i | 0 <= i < |a| :: all[i] == a[i];
    assert forall i | 0 <= i < |w| :: all[|a| + i] == w[i];
  }

  /** Losing some of the frames behind `a`, all for the same reason, keeps the account. */
  lemma Lose(a: seq<nat>, before: seq<nat>, after: seq<nat>, spooled: nat, lost: map<nat, Loss>, why: Loss)
    requires Accounted(spooled, a + before, lost) && Subsequence(after, before)
    ensures Accounted(spooled, a + after, Recorded(lost, before, after, why))
  {
    SubsequenceKeepsOrder(a, after, before);
    Disjoint(a, before);
  }

  lemma Disjoint(a: seq<nat>, b: seq<nat>)
    requires Increasing(a + b)
    ensures forall x | x in a :: x !in b
  {
    var all := a + b;
    assert forall i | 0 <= i < |a| :: all[i] == a[i];
    assert forall i | 0 <= i < |b| :: all[|a| + i] == b[i];
  }

  /** The account of losses once what was in `before` but not in `after` is gone. */
  ghost function Recorded(lost: map<nat, Loss>, before: seq<nat>, after: seq<nat>, why: Loss): map<nat, Loss> {
    lost + map id | id in before && id !in after :: why
  }

  lemma OneMore(live: seq<nat>, spooled: nat, lost: map<nat, Loss>)
    requires Accounted(spooled, live, lost)
    ensures Accounted(spooled + 1, live + [spooled], lost)
  {
    assert forall x | x in live :: x < spooled;
    AppendLargest(live, spooled);
    assert forall x :: x in live + [spooled] <==> x in live || x == spooled;
  }

  lemma IdsAppend(a: seq<Frame>, b: seq<Frame>)
    ensures Ids(a + b) == Ids(a) + Ids(b)
  {
  }

  lemma FramesAppend(a: seq<Entry>, b: seq<Entry>)
    ensures Frames(a + b) == Frames(a) + Frames(b)
  {
  }

  lemma KeptIds(entries: seq<Entry>)
    ensures Subsequence(Ids(Frames(Kept(entries))), Ids(Frames(entries)))
  {
    var k := |entries| - |Kept(entries)|;
    assert Ids(Frames(entries))[k..] == Ids(Frames(Kept(entries)));
    SuffixIsSubsequence(Ids(Frames(entries)), k);
  }

  lemma {:induction false} YoungIds(entries: seq<Entry>, now: int)
    ensures Subsequence(Ids(Frames(Young(entries, now))), Ids(Frames(entries)))
  {
    if entries != [] {
      var rest, last := entries[..|entries| - 1], entries[|entries| - 1];
      YoungIds(rest, now);
      assert Ids(Frames(entries))[..|entries| - 1] == Ids(Frames(rest));
      if Fresh(last, now) {
        var y := Ids(Frames(Young(rest, now) + [last]));
        assert y[..|y| - 1] == Ids(Frames(Young(rest, now)));
      }
    }
  }

  /** The frames are accounted for, and the history is theirs. */
  ghost predicate Consistent(
    spooled: nat, sent: seq<Frame>, inFlight: seq<Frame>, held: seq<Entry>, lost: map<nat, Loss>, history: seq<Event>)
  {
    Accounted(spooled, Live(sent, inFlight, held), lost) && Told(history, held, inFlight, sent)
  }

  class Collector {
    const offline: Spool
    /** What the running replay still has to hand over; a replay runs as long as this is not empty. */
    var inFlight: seq<Frame>
    /** Frames handed to a connection's send queue by replays, over all connections, in order. */
    ghost var sent: seq<Frame>
    /** Frames spooled so far; the next one gets this number. */
    var spooled: nat
    ghost var lost: map<nat, Loss>
    ghost var history: seq<Event>

    ghost predicate Valid()
      reads this, offline
    {
      offline.Valid() && Consistent(spooled, sent, inFlight, offline.entries, lost, history)
    }

    constructor ()
      ensures Valid() && fresh(offline) && sent == [] && inFlight == [] && spooled == 0 && lost == map[]
      ensures offline.entries == [] && history == []
    {
      offline := new Spool();
      inFlight, sent, spooled, lost, history := [], [], 0, map[], [];
    }

    /** A frame no connection would take is spooled. */
    method SpoolFrame(size: nat, now: int)
      requires Valid() && size > 0
      modifies this, offline
      ensures Valid() && spooled == old(spooled) + 1 && sent == old(sent) && inFlight == old(inFlight)
      ensures offline.entries == Kept(old(offline.entries) + [Entry(Frame(old(spooled), size), now)])
      ensures history == old(history) + [Observed(old(spooled), now)]
    {
      ghost var more := offline.entries + [Entry(Frame(spooled, size), now)];
      SpoolStep(sent, inFlight, offline.entries, Entry(Frame(spooled, size), now), spooled, lost, history);
      hide Consistent, Kept, Size, WithinCaps, Gone, Ids, Frames;
      offline.Add(Frame(spooled, size), now);
      history := history + [Observed(spooled, now)];
      lost := Gone(lost, more, Kept(more), Evicted);
      spooled := spooled + 1;
    }

    /** A replay starts: an unmonitored host forgets the spool, otherwise it is drained into the batch. */
    method StartReplay(unmonitored: bool, now: int)
      requires Valid() && inFlight == []
      modifies this, offline
      ensures Valid() && spooled == old(spooled) && sent == old(sent) && offline.entries == []
      ensures if unmonitored then inFlight == [] else inFlight == Frames(Young(old(offline.entries), now))
      ensures history == old(history) + if unmonitored then [] else [Batch(old(offline.entries), now)]
    {
      ghost var held := offline.entries;
      hide Consistent, Kept, Size, WithinCaps, Gone, Ids, Frames, Young;
      if unmonitored {
        DiscardStep(sent, held, spooled, lost, history);
        var _ := offline.Discard();
        lost := Gone(lost, held, [], Discarded);
      } else {
        TakeBatch(now);
      }
    }

    /** The spool is drained into the batch. */
    method TakeBatch(now: int)
      requires Valid() && inFlight == []
      modifies this, offline
      ensures Valid() && spooled == old(spooled) && sent == old(sent) && offline.entries == []
      ensures inFlight == Frames(Young(old(offline.entries), now))
      ensures history == old(history) + [Batch(old(offline.entries), now)]
    {
      ghost var held := offline.entries;
      hide Consistent, Kept, Size, WithinCaps, Gone, Ids, Frames, Young;
      DrainStep(sent, held, now, spooled, lost, history);
      var envs, _ := offline.Drain(now);
      inFlight := envs;
      history := history + [Batch(held, now)];
      lost := Gone(lost, held, Young(held, now), AgedOut);
    }

    /** The next frame of the batch goes out, or the rest of the batch goes back in front of the spool. */
    method ReplayNext(accepted: bool, now: int)
      requires Valid() && inFlight != []
      modifies this, offline
      ensures Valid() && spooled == old(spooled)
      ensures accepted ==> sent == old(sent) + [old(inFlight)[0]] && inFlight == old(inFlight)[1..]
      ensures accepted ==> offline.entries == old(offline.entries)
      ensures !accepted ==> sent == old(sent) && inFlight == []
      ensures !accepted ==> offline.entries == Kept(Stamped(old(inFlight), now) + old(offline.entries))
      ensures accepted ==> history == old(history) + [HandedOver(old(inFlight)[0].id)]
      ensures !accepted ==> history == old(history) + [PutBack(Ids(old(inFlight)), now)]
    {
      hide Consistent, Kept, Size, WithinCaps, Gone, Ids, Frames, Stamped;
      if accepted {
        HandStep(sent, inFlight, offline.entries, spooled, lost, history);
        history := history + [HandedOver(inFlight[0].id)];
        sent := sent + [inFlight[0]];
        inFlight := inFlight[1..];
      } else {
        ghost var back := Stamped(inFlight, now) + offline.entries;
        PutBackStep(sent, inFlight, offline.entries, now, spooled, lost, history);
        offline.Unshift(inFlight, now);
        history := history + [PutBack(Ids(inFlight), now)];
        lost := Gone(lost, back, Kept(back), Evicted);
        inFlight := [];
      }
    }
  }

  /** The account of losses once only `after` is left of `before`. */
  ghost function Gone(lost: map<nat, Loss>, before: seq<Entry>, after: seq<Entry>, why: Loss): map<nat, Loss> {
    Recorded(lost, Ids(Frames(before)), Ids(Frames(after)), why)
  }

  lemma NewIsApart(sent: seq<Frame>, inFlight: seq<Frame>, held: seq<Entry>, spooled: nat, lost: map<nat, Loss>)
    requires Accounted(spooled, Live(sent, inFlight, held), lost)
    ensures forall f | f in inFlight :: f.id != spooled
    ensures forall e | e in held :: e.frame.id != spooled
  {
    var live := Live(sent, inFlight, held);
    forall f | f in inFlight ensures f.id in live {
      var i :| 0 <= i < |inFlight| && inFlight[i] == f;
      assert live[|sent| + i] == f.id;
    }
    forall e | e in held ensures e.frame.id in live {
      var i :| 0 <= i < |held| && held[i] == e;
      assert live[|sent| + |inFlight| + i] == e.frame.id;
    }
  }

  lemma BatchIsApart(sent: seq<Frame>, inFlight: seq<Frame>, held: seq<Entry>, spooled: nat, lost: map<nat, Loss>)
    requires Accounted(spooled, Live(sent, inFlight, held), lost)
    ensures forall e | e in held :: e.frame.id !in Ids(inFlight)
  {
    Disjoint(Ids(sent) + Ids(inFlight), Ids(Frames(held)));
    forall e | e in held ensures e.frame.id in Ids(Frames(held)) {
      var i :| 0 <= i < |held| && held[i] == e;
      assert Ids(Frames(held))[i] == e.frame.id;
    }
  }

  lemma SpoolStep(
    sent: seq<Frame>, inFlight: seq<Frame>, held: seq<Entry>, e: Entry, spooled: nat, lost: map<nat, Loss>,
    history: seq<Event>)
    requires Consistent(spooled, sent, inFlight, held, lost, history) && e.frame.id == spooled
    ensures var more := held + [e];
            Consistent(spooled + 1, sent, inFlight, Kept(more), Gone(lost, more, Kept(more), Evicted),
                       history + [Observed(spooled, e.at)])
  {
    hide Accounted, Told, Kept, Gone, Ids, Frames, Live;
    NewIsApart(sent, inFlight, held, spooled, lost);
    TellSpooled(history, held, e, inFlight, sent);
    SpoolAccount(sent, inFlight, held, e, spooled, lost);
  }

  lemma SpoolAccount(
    sent: seq<Frame>, inFlight: seq<Frame>, held: seq<Entry>, e: Entry, spooled: nat, lost: map<nat, Loss>)
    requires Accounted(spooled, Live(sent, inFlight, held), lost) && e.frame.id == spooled
    ensures var more := held + [e];
            Accounted(spooled + 1, Live(sent, inFlight, Kept(more)), Gone(lost, more, Kept(more), Evicted))
  {
    var a, more := Ids(sent) + Ids(inFlight), held + [e];
    assert Ids(Frames(more)) == Ids(Frames(held)) + [spooled];
    assert a + Ids(Frames(held)) + [spooled] == a + Ids(Frames(more));
    hide Accounted, Kept, Recorded, Ids, Frames;
    OneMore(a + Ids(Frames(held)), spooled, lost);
    KeptIds(more);
    Lose(a, Ids(Frames(more)), Ids(Frames(Kept(more))), spooled + 1, lost, Evicted);
  }

  lemma DiscardStep(sent: seq<Frame>, held: seq<Entry>, spooled: nat, lost: map<nat, Loss>, history: seq<Event>)
    requires Consistent(spooled, sent, [], held, lost, history)
    ensures Consistent(spooled, sent, [], [], Gone(lost, held, [], Discarded), history)
  {
    var ids := Ids(Frames(held));
    assert Ids([]) == [] && Frames([]) == [];
    assert Live(sent, [], held) == Ids(sent) + ids && Live(sent, [], []) == Ids(sent) + [];
    SuffixIsSubsequence(ids, |ids|);
    assert ids[|ids|..] == [];
    TellDiscarded(history, held, sent);
    hide Accounted, Recorded, Ids, Frames, Told;
    Lose(Ids(sent), ids, [], spooled, lost, Discarded);
  }

  lemma DrainStep(
    sent: seq<Frame>, held: seq<Entry>, now: int, spooled: nat, lost: map<nat, Loss>, history: seq<Event>)
    requires Consistent(spooled, sent, [], held, lost, history)
    ensures Consistent(spooled, sent, Frames(Young(held, now)), [], Gone(lost, held, Young(held, now), AgedOut),
                       history + [Batch(held, now)])
  {
    var ids, taken := Ids(Frames(held)), Ids(Frames(Young(held, now)));
    assert Ids([]) == [] && Frames([]) == [];
    assert Live(sent, [], held) == Ids(sent) + ids && Live(sent, Frames(Young(held, now)), []) == Ids(sent) + taken;
    TellDrained(history, held, now, sent);
    hide Accounted, Recorded, Ids, Frames, Told, Young;
    YoungIds(held, now);
    Lose(Ids(sent), ids, taken, spooled, lost, AgedOut);
  }

  lemma HandStep(
    sent: seq<Frame>, inFlight: seq<Frame>, held: seq<Entry>, spooled: nat, lost: map<nat, Loss>, history: seq<Event>)
    requires Consistent(spooled, sent, inFlight, held, lost, history) && inFlight != []
    ensures Consistent(spooled, sent + [inFlight[0]], inFlight[1..], held, lost, history + [HandedOver(inFlight[0].id)])
  {
    assert inFlight == [inFlight[0]] + inFlight[1..];
    IdsAppend([inFlight[0]], inFlight[1..]);
    IdsAppend(sent, [inFlight[0]]);
    assert Live(sent + [inFlight[0]], inFlight[1..], held) == Live(sent, inFlight, held);
    hide Ids, Accounted;
    TellHanded(history, held, inFlight, sent);
  }

  lemma PutBackStep(
    sent: seq<Frame>, inFlight: seq<Frame>, held: seq<Entry>, now: int, spooled: nat, lost: map<nat, Loss>,
    history: seq<Event>)
    requires Consistent(spooled, sent, inFlight, held, lost, history)
    ensures var back := Stamped(inFlight, now) + held;
            Consistent(spooled, sent, [], Kept(back), Gone(lost, back, Kept(back), Evicted),
                       history + [PutBack(Ids(inFlight), now)])
  {
    hide Accounted, Told, Kept, Gone, Ids, Frames, Live, Stamped;
    BatchIsApart(sent, inFlight, held, spooled, lost);
    TellPutBack(history, held, inFlight, sent, now);
    PutBackAccount(sent, inFlight, held, now, spooled, lost);
  }

  lemma LiveAsBack(sent: seq<Frame>, inFlight: seq<Frame>, held: seq<Entry>, now: int)
    ensures Live(sent, inFlight, held) == Ids(sent) + Ids(Frames(Stamped(inFlight, now) + held))
  {
    FramesAppend(Stamped(inFlight, now), held);
    IdsAppend(inFlight, Frames(held));
    hide Ids, Frames, Stamped;
  }

  lemma LiveOfHeld(sent: seq<Frame>, held: seq<Entry>)
    ensures Live(sent, [], held) == Ids(sent) + Ids(Frames(held))
  {
    assert Ids([]) == [];
    hide Ids, Frames;
  }

  lemma PutBackAccount(
    sent: seq<Frame>, inFlight: seq<Frame>, held: seq<Entry>, now: int, spooled: nat, lost: map<nat, Loss>)
    requires Accounted(spooled, Live(sent, inFlight, held), lost)
    ensures var back := Stamped(inFlight, now) + held;
            Accounted(spooled, Live(sent, [], Kept(back)), Gone(lost, back, Kept(back), Evicted))
  {
    hide Accounted, Kept, Recorded, Ids, Frames, Stamped, Live;
    var back := Stamped(inFlight, now) + held;
    LiveAsBack(sent, inFlight, held, now);
    LiveOfHeld(sent, Kept(back));
    KeptIds(back);
    Lose(Ids(sent), Ids(Frames(back)), Ids(Frames(Kept(back))), spooled, lost, Evicted);
  }

  /** One atomic step at a lock or queue boundary. A step that is not possible does nothing. */
  datatype Step = Spooled(size: nat, at: int) | Started(unmonitored: bool, at: int) | Handed(accepted: bool, at: int)

  /** When the steps spool a frame. */
  function SpoolTimes(steps: seq<Step>): seq<int> {
    if steps == [] then [] else SpoolTimes(steps[..|steps| - 1]) + SpoolTime(steps[|steps| - 1])
  }

  function SpoolTime(step: Step): seq<int> {
    if step.Spooled? && step.size > 0 then [step.at] else []
  }

  /** The frames spooled so far have these times in the history. */
  ghost predicate Timed(history: seq<Event>, times: seq<int>) {
    forall id: nat | id < |times| :: SpooledAt(history, id) == Some(times[id])
  }

  lemma TimedAfterOne(history: seq<Event>, event: Event, times: seq<int>)
    requires Timed(history, times) && (event.Observed? ==> event.id == |times|)
    ensures Timed(history + [event], times + if event.Observed? then [event.at] else [])
  {
    var more := times + if event.Observed? then [event.at] else [];
    forall id: nat | id < |more| ensures SpooledAt(history + [event], id) == Some(more[id]) {
      AfterOne(history, event, id);
    }
  }

  /**
   * Whatever the interleaving of adds, replays that finish, replays that fail halfway and further
   * replays on other connections: every frame spooled is in exactly one place, none was handed over
   * twice, and everything ever handed over went out in spooling order. Every drain took exactly the frames held that
   * were spooled, or since then last put back, at most an hour before it (see OverAgeIsTakenIffPutBack).
   */
  method RunSteps(steps: seq<Step>) returns (c: Collector)
    ensures fresh(c) && c.Valid() && c.spooled == |SpoolTimes(steps)| && Timed(c.history, SpoolTimes(steps))
    ensures Increasing(Ids(c.sent)) && WentOut(c.history) == Ids(c.sent) && AllRight(c.history)
    ensures forall id: nat | id < c.spooled :: id in Live(c.sent, c.inFlight, c.offline.entries) <==> id !in c.lost
  {
    c := new Collector();
    assert Timed([], []);
    hide Consistent, Kept, Size, WithinCaps, Ids, Frames, Stamped, Young, Timed;
    for i := 0 to |steps|
      invariant c.Valid() && fresh(c) && fresh(c.offline)
      invariant c.spooled == |SpoolTimes(steps[..i])| && Timed(c.history, SpoolTimes(steps[..i]))
    {
      assert steps[..i + 1][..i] == steps[..i];
      TakeStep(c, steps[i], SpoolTimes(steps[..i]));
    }
    assert steps[..|steps|] == steps;
    ConsistentRun(c.spooled, c.sent, c.inFlight, c.offline.entries, c.lost, c.history);
  }

  method TakeStep(c: Collector, step: Step, ghost times: seq<int>)
    requires c.Valid() && c.spooled == |times| && Timed(c.history, times)
    modifies c, c.offline
    ensures c.Valid() && c.spooled == |times + SpoolTime(step)| && Timed(c.history, times + SpoolTime(step))
  {
    hide Consistent, Kept, Size, WithinCaps, Ids, Frames, Stamped, Young, Timed;
    ghost var history := c.history;
    assert times + [] == times;
    match step
    case Spooled(size, at) =>
      if size > 0 {
        c.SpoolFrame(size, at);
        TimedAfterOne(history, Observed(|times|, at), times);
      }
    case Started(unmonitored, at) =>
      if c.inFlight == [] {
        ghost var held := c.offline.entries;
        c.StartReplay(unmonitored, at);
        TimedAfterOne(history, Batch(held, at), times);
        assert unmonitored ==> c.history == history;
      }
    case Handed(accepted, at) =>
      if c.inFlight != [] {
        ghost var event := if accepted then HandedOver(c.inFlight[0].id) else PutBack(Ids(c.inFlight), at);
        c.ReplayNext(accepted, at);
        TimedAfterOne(history, event, times);
      }
  }

  lemma ConsistentRun(
    spooled: nat, sent: seq<Frame>, inFlight: seq<Frame>, held: seq<Entry>, lost: map<nat, Loss>, history: seq<Event>)
    requires Consistent(spooled, sent, inFlight, held, lost, history)
    ensures Increasing(Ids(sent)) && WentOut(history) == Ids(sent) && AllRight(history)
    ensures forall id: nat | id < spooled :: id in Live(sent, inFlight, held) <==> id !in lost
  {
    assert Live(sent, inFlight, held) == Ids(sent) + (Ids(inFlight) + Ids(Frames(held)));
    PrefixIncreasing(Ids(sent), Ids(inFlight) + Ids(Frames(held)));
  }

  /**
   * The cap does not bound a frame's real age: spooled at 0, refused by `failures` replays `gap` apart and taken by the
   * next, a frame goes out (failures + 1) * gap after it was spooled, whatever that is, as long as a gap is an hour at
   * most.
   */
  method HandedOverAtAnyAge(size: nat, gap: nat, failures: nat) returns (c: Collector)
    requires size > 0 && gap <= MAX_AGE
    ensures fresh(c) && c.Valid() && c.sent == [Frame(0, size)] && c.inFlight == []
    ensures Outlives(c.history, (failures + 1) * gap)
  {
    hide Consistent, Outlives, Size, WithinCaps;
    c := SpoolAlone(size);
    var frame, at := Frame(0, size), 0;
    for i := 0 to failures
      invariant c.Valid() && fresh(c) && fresh(c.offline) && c.sent == [] && c.inFlight == []
      invariant at == i * gap && c.offline.entries == [Entry(frame, at)]
      invariant [Observed(0, 0)] <= c.history
    {
      RefuseAlone(c, frame, at, at + gap);
      at := at + gap;
    }
    assert at + gap == (failures + 1) * gap;
    HandOverAlone(c, frame, at, at + gap);
  }

  method SpoolAlone(size: nat) returns (c: Collector)
    requires size > 0
    ensures fresh(c) && fresh(c.offline) && c.Valid() && c.sent == [] && c.inFlight == []
    ensures c.offline.entries == [Entry(Frame(0, size), 0)] && c.history == [Observed(0, 0)]
  {
    hide Consistent, Kept, Size, WithinCaps;
    c := new Collector();
    OneIsKept(Frame(0, size), 0);
    c.SpoolFrame(size, 0);
  }

  method RefuseAlone(c: Collector, frame: Frame, at: int, now: int)
    requires c.Valid() && c.sent == [] && c.inFlight == [] && c.offline.entries == [Entry(frame, at)]
    requires now - at <= MAX_AGE
    modifies c, c.offline
    ensures c.Valid() && c.sent == [] && c.inFlight == [] && c.offline.entries == [Entry(frame, now)]
    ensures old(c.history) <= c.history
  {
    OneIsKept(frame, now);
    hide Consistent, Kept, Stamped, Ids, Size;
    TakeAlone(c, frame, at, now);
    c.ReplayNext(false, now);
  }

  method HandOverAlone(c: Collector, frame: Frame, at: int, now: int)
    requires c.Valid() && c.sent == [] && c.inFlight == [] && c.offline.entries == [Entry(frame, at)]
    requires now - at <= MAX_AGE && frame.id == 0 && [Observed(0, 0)] <= c.history
    modifies c, c.offline
    ensures c.Valid() && c.sent == [frame] && c.inFlight == []
    ensures Outlives(c.history, now)
  {
    hide Consistent, Outlives;
    ghost var before := c.history;
    TakeAlone(c, frame, at, now);
    c.ReplayNext(true, now);
    OutlivesNow(before, now, c.history);
  }

  lemma OutlivesNow(before: seq<Event>, age: int, history: seq<Event>)
    requires [Observed(0, 0)] <= before && history == before + [Drained([0], [0], age)] + [HandedOver(0)]
    ensures Outlives(history, age)
  {
  }

  /** Frame 0, spooled at 0, is taken by a drain at `age` and then handed over. */
  ghost predicate Outlives(history: seq<Event>, age: int) {
    && [Observed(0, 0)] <= history
    && exists before: seq<Event> :: history == before + [Drained([0], [0], age)] + [HandedOver(0)]
  }

  method TakeAlone(c: Collector, frame: Frame, at: int, now: int)
    requires c.Valid() && c.inFlight == [] && c.offline.entries == [Entry(frame, at)] && now - at <= MAX_AGE
    modifies c, c.offline
    ensures c.Valid() && c.sent == old(c.sent) && c.inFlight == [frame] && c.offline.entries == []
    ensures c.history == old(c.history) + [Drained([frame.id], [frame.id], now)]
  {
    hide Consistent, Young;
    OneIsTaken(frame, at, now);
    c.StartReplay(false, now);
  }

  lemma OneIsKept(frame: Frame, at: int)
    ensures Kept([] + [Entry(frame, at)]) == Kept(Stamped([frame], at) + []) == [Entry(frame, at)]
  {
    assert [] + [Entry(frame, at)] == [Entry(frame, at)] == Stamped([frame], at) + [];
  }

  lemma OneIsTaken(frame: Frame, at: int, now: int)
    requires now - at <= MAX_AGE
    ensures Frames(Young([Entry(frame, at)], now)) == [frame]
    ensures Batch([Entry(frame, at)], now) == Drained([frame.id], [frame.id], now)
  {
    assert Young([Entry(frame, at)], now) == [Entry(frame, at)] by {
      assert [Entry(frame, at)][..0] == [];
      assert Young([], now) == [];
    }
  }
}
