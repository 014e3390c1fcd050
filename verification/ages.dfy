/**
 * How old a frame can be when a replay hands it over. The spool ages a frame from when it was last put in, so the
 * history of a run tells what a drain takes: nothing more than an hour past its spooling or the last failed replay.
 */
module Ages {
  import opened Spooling
  import opened Types

  /** What happened to the frames so far; a drain is recorded with what was held and what it took. */
  datatype Event =
    | Observed(id: nat, at: int)
    | Drained(held: seq<nat>, taken: seq<nat>, at: int)
    | HandedOver(id: nat)
    | PutBack(ids: seq<nat>, at: int)

  function Batch(held: seq<Entry>, now: int): Event {
    Drained(Ids(Frames(held)), Ids(Frames(Young(held, now))), now)
  }

  /** When a frame was spooled. */
  function SpooledAt(history: seq<Event>, id: nat): Option<int> {
    if history == [] then None
    else
      var last := history[|history| - 1];
      if last.Observed? && last.id == id then Some(last.at) else SpooledAt(history[..|history| - 1], id)
  }

  /** When a failed replay last put a frame back, if one has since it was spooled. */
  function LastPutBack(history: seq<Event>, id: nat): Option<int> {
    if history == [] then None
    else
      var last := history[|history| - 1];
      if last.PutBack? && id in last.ids then Some(last.at)
      else if last.Observed? && last.id == id then None
      else LastPutBack(history[..|history| - 1], id)
  }

  /** From when on a frame ages. */
  function AgesFrom(history: seq<Event>, id: nat): Option<int> {
    if LastPutBack(history, id).Some? then LastPutBack(history, id) else SpooledAt(history, id)
  }

  /** What the running replay took and has not put back. */
  function TakenLast(history: seq<Event>): seq<nat> {
    if history == [] then []
    else
      match history[|history| - 1]
      case Drained(_, taken, _) => taken
      case PutBack(_, _) => []
      case _ => TakenLast(history[..|history| - 1])
  }

  /** The frames handed over, in order. */
  function WentOut(history: seq<Event>): seq<nat> {
    if history == [] then []
    else
      var last := history[|history| - 1];
      WentOut(history[..|history| - 1]) + if last.HandedOver? then [last.id] else []
  }

  /** A drain took exactly what ages since at most an hour; what is handed over was in the running replay's batch. */
  ghost predicate RightAfter(history: seq<Event>, event: Event) {
    match event
    case Drained(held, taken, at) =>
      && (forall id | id in taken :: id in held)
      && forall id | id in held ::
           && SpooledAt(history, id).Some?
           && (id in taken <==> AgesFrom(history, id).value >= at - 3_600_000)
    case HandedOver(id) => id in TakenLast(history)
    case _ => true
  }

  ghost predicate RightAt(history: seq<Event>, k: nat)
    requires k < |history|
  {
    RightAfter(history[..k], history[k])
  }

  ghost predicate AllRight(history: seq<Event>) {
    forall k: nat | k < |history| :: RightAt(history, k)
  }

  /**
   * The age cap on a frame's real age: a drain more than an hour after a frame was spooled takes it if and only if the
   * last failed replay that put it back did so at most an hour before the drain.
   */
  lemma OverAgeIsTakenIffPutBack(history: seq<Event>, k: nat, id: nat)
    requires AllRight(history) && k < |history| && history[k].Drained? && id in history[k].held
    ensures var cutoff, before := history[k].at - 3_600_000, history[..k];
            && SpooledAt(before, id).Some?
            && (SpooledAt(before, id).value < cutoff ==>
                  (id in history[k].taken <==>
                   LastPutBack(before, id).Some? && LastPutBack(before, id).value >= cutoff))
            && (LastPutBack(before, id).None? ==> (id in history[k].taken <==> SpooledAt(before, id).value >= cutoff))
  {
    assert RightAt(history, k);
  }

  // ---- what every step keeps ----

  /** Every entry held carries the time its frame ages from. */
  ghost predicate Dated(history: seq<Event>, held: seq<Entry>) {
    forall e | e in held ::
      SpooledAt(history, e.frame.id).Some? && AgesFrom(history, e.frame.id) == Some(e.at)
  }

  ghost predicate UnderWay(history: seq<Event>, inFlight: seq<Frame>) {
    forall f | f in inFlight :: f.id in TakenLast(history) && SpooledAt(history, f.id).Some?
  }

  /** The history is that of what is held, under way and handed over. */
  ghost predicate Told(history: seq<Event>, held: seq<Entry>, inFlight: seq<Frame>, sent: seq<Frame>) {
    Dated(history, held) && UnderWay(history, inFlight) && WentOut(history) == Ids(sent) && AllRight(history)
  }

  lemma OneEvent(history: seq<Event>, event: Event)
    requires AllRight(history) && RightAfter(history, event)
    ensures AllRight(history + [event])
  {
    hide RightAfter;
    var more := history + [event];
    forall k: nat | k < |more| ensures RightAt(more, k) {
      if k < |history| {
        assert RightAt(history, k) && more[..k] == history[..k];
      } else {
        assert more[..k] == history;
      }
    }
  }

  lemma AfterOne(history: seq<Event>, event: Event, id: nat)
    ensures var more := history + [event];
            && SpooledAt(more, id)
               == (if event.Observed? && event.id == id then Some(event.at) else SpooledAt(history, id))
            && LastPutBack(more, id)
               == (if event.PutBack? && id in event.ids then Some(event.at)
                   else if event.Observed? && event.id == id then None
                   else LastPutBack(history, id))
  {
    var more := history + [event];
    assert more[..|more| - 1] == history;
  }

  lemma BatchAfterOne(history: seq<Event>, event: Event)
    ensures var more := history + [event];
            && (event.Observed? || event.HandedOver? ==> TakenLast(more) == TakenLast(history))
            && (event.Drained? ==> TakenLast(more) == event.taken)
            && WentOut(more) == WentOut(history) + if event.HandedOver? then [event.id] else []
  {
    var more := history + [event];
    assert more[..|more| - 1] == history;
  }

  lemma DatedAfterOne(history: seq<Event>, event: Event, held: seq<Entry>)
    requires Dated(history, held)
    requires event.Observed? ==> forall e | e in held :: e.frame.id != event.id
    requires event.PutBack? ==> forall e | e in held :: e.frame.id !in event.ids
    ensures Dated(history + [event], held)
  {
    forall e | e in held
      ensures SpooledAt(history + [event], e.frame.id).Some? && AgesFrom(history + [event], e.frame.id) == Some(e.at)
    {
      AfterOne(history, event, e.frame.id);
    }
  }

  lemma UnderWayAfterOne(history: seq<Event>, event: Event, inFlight: seq<Frame>)
    requires UnderWay(history, inFlight) && (event.Observed? || event.HandedOver?)
    ensures UnderWay(history + [event], inFlight)
  {
    BatchAfterOne(history, event);
    forall f | f in inFlight ensures SpooledAt(history + [event], f.id).Some? {
      AfterOne(history, event, f.id);
    }
  }

  lemma TellSpooled(history: seq<Event>, held: seq<Entry>, e: Entry, inFlight: seq<Frame>, sent: seq<Frame>)
    requires Told(history, held, inFlight, sent)
    requires forall other | other in held :: other.frame.id != e.frame.id
    ensures Told(history + [Observed(e.frame.id, e.at)], Kept(held + [e]), inFlight, sent)
  {
    hide Kept;
    var event := Observed(e.frame.id, e.at);
    OneEvent(history, event);
    BatchAfterOne(history, event);
    UnderWayAfterOne(history, event, inFlight);
    DatedAfterOne(history, event, held);
    AfterOne(history, event, e.frame.id);
    assert Dated(history + [event], held + [e]);
  }

  lemma TellDiscarded(history: seq<Event>, held: seq<Entry>, sent: seq<Frame>)
    requires Told(history, held, [], sent)
    ensures Told(history, [], [], sent)
  {
  }

  lemma {:induction false} YoungMembers(entries: seq<Entry>, now: int)
    ensures forall e :: e in Young(entries, now) <==> e in entries && Fresh(e, now)
  {
    if entries != [] {
      var rest, last := entries[..|entries| - 1], entries[|entries| - 1];
      YoungMembers(rest, now);
      assert entries == rest + [last];
    }
  }

  lemma IdsOfEntries(entries: seq<Entry>)
    ensures forall id :: id in Ids(Frames(entries)) <==> exists e | e in entries :: e.frame.id == id
    ensures forall f :: f in Frames(entries) <==> exists e | e in entries :: e.frame == f
  {
    var frames, ids := Frames(entries), Ids(Frames(entries));
    assert forall i | 0 <= i < |entries| :: frames[i] == entries[i].frame && ids[i] == entries[i].frame.id;
  }

  lemma TellDrained(history: seq<Event>, held: seq<Entry>, now: int, sent: seq<Frame>)
    requires Told(history, held, [], sent)
    ensures Told(history + [Batch(held, now)], [], Frames(Young(held, now)), sent)
  {
    var young := Young(held, now);
    YoungMembers(held, now);
    IdsOfEntries(held);
    IdsOfEntries(young);
    hide Young, Ids, Frames;
    OneEvent(history, Batch(held, now));
    BatchAfterOne(history, Batch(held, now));
    forall f | f in Frames(young) ensures SpooledAt(history + [Batch(held, now)], f.id).Some? {
      AfterOne(history, Batch(held, now), f.id);
    }
  }

  lemma TellHanded(history: seq<Event>, held: seq<Entry>, inFlight: seq<Frame>, sent: seq<Frame>)
    requires Told(history, held, inFlight, sent) && inFlight != []
    ensures Told(history + [HandedOver(inFlight[0].id)], held, inFlight[1..], sent + [inFlight[0]])
  {
    var event := HandedOver(inFlight[0].id);
    assert Ids(sent + [inFlight[0]]) == Ids(sent) + [inFlight[0].id];
    hide Ids;
    OneEvent(history, event);
    BatchAfterOne(history, event);
    UnderWayAfterOne(history, event, inFlight);
    DatedAfterOne(history, event, held);
  }

  lemma TellPutBack(history: seq<Event>, held: seq<Entry>, inFlight: seq<Frame>, sent: seq<Frame>, now: int)
    requires Told(history, held, inFlight, sent)
    requires forall e | e in held :: e.frame.id !in Ids(inFlight)
    ensures Told(history + [PutBack(Ids(inFlight), now)], Kept(Stamped(inFlight, now) + held), [], sent)
  {
    hide Kept, Size;
    var event := PutBack(Ids(inFlight), now);
    OneEvent(history, event);
    BatchAfterOne(history, event);
    DatedAfterOne(history, event, held);
    hide AllRight, TakenLast, WentOut;
    forall f | f in inFlight
      ensures SpooledAt(history + [event], f.id).Some? && AgesFrom(history + [event], f.id) == Some(now)
    {
      IdOf(inFlight, f);
      AfterOne(history, event, f.id);
    }
    StampedIsDated(history + [event], inFlight, now);
    hide AgesFrom, SpooledAt, Ids, Stamped;
    assert Dated(history + [event], Stamped(inFlight, now) + held);
  }

  lemma IdOf(frames: seq<Frame>, f: Frame)
    requires f in frames
    ensures f.id in Ids(frames)
  {
    var i :| 0 <= i < |frames| && frames[i] == f;
    assert Ids(frames)[i] == f.id;
  }

  lemma StampedIsDated(history: seq<Event>, frames: seq<Frame>, now: int)
    requires forall f | f in frames :: SpooledAt(history, f.id).Some? && AgesFrom(history, f.id) == Some(now)
    ensures Dated(history, Stamped(frames, now))
  {
    hide AgesFrom, SpooledAt;
    forall e | e in Stamped(frames, now) ensures e.at == now && e.frame in frames {
    }
  }
}
