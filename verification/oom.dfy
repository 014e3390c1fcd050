/** Tying a container's exit to the out-of-memory event before it. */
module OomTable {
  import opened Types

  /** Ten seconds, in milliseconds. */
  const DIE_WINDOW: int := 10_000

  datatype Event = Oom(id: string, at: int) | Die(id: string, at: int)

  /** The container's latest OOM that no exit has consumed yet, from the whole history. */
  function Pending(history: seq<Event>, id: string): Option<int> {
    if history == [] then None
    else
      match history[|history| - 1]
      case Oom(oom, at) => if oom == id && id != "" then Some(at) else Pending(history[..|history| - 1], id)
      case Die(died, _) => if died == id then None else Pending(history[..|history| - 1], id)
  }

  /** A pending OOM lies at most ten seconds before `at`. */
  predicate Explained(history: seq<Event>, id: string, at: int) {
    match Pending(history, id)
    case None => false
    case Some(oom) => 0 <= at - oom <= DIE_WINDOW
  }

  /** The pending OOM was forgotten: an OOM of some other container came in more than ten seconds past it. */
  predicate Pruned(history: seq<Event>, id: string) {
    && history != []
    && var last, before := history[|history| - 1], history[..|history| - 1];
       match last
       case Oom(oom, at) =>
         && !(oom == id && id != "")
         && (Pruned(before, id)
             || (oom != "" && Pending(before, id).Some? && at - Pending(before, id).value > DIE_WINDOW))
       case Die(died, _) => died != id && Pruned(before, id)
  }

  /** The table holds what is pending and was not forgotten. */
  ghost predicate Agrees(seen: map<string, int>, history: seq<Event>) {
    forall id ::
      if Pending(history, id).Some? && !Pruned(history, id) then id in seen && seen[id] == Pending(history, id).value
      else id !in seen
  }

  lemma PendingStep(history: seq<Event>, e: Event, id: string)
    ensures Pending(history + [e], id) ==
            match e {
              case Oom(oom, at) => if oom == id && id != "" then Some(at) else Pending(history, id)
              case Die(died, _) => if died == id then None else Pending(history, id)
            }
    ensures Pruned(history + [e], id) <==>
            match e {
              case Oom(oom, at) =>
                && !(oom == id && id != "")
                && (Pruned(history, id)
                    || (oom != "" && Pending(history, id).Some? && at - Pending(history, id).value > DIE_WINDOW))
              case Die(died, _) => died != id && Pruned(history, id)
            }
  {
    assert (history + [e])[..|history|] == history;
  }

  lemma NoteStep(seen: map<string, int>, history: seq<Event>, id: string, at: int, now: map<string, int>)
    requires Agrees(seen, history)
    requires now == if id == "" then seen else (map k | k in seen && at - seen[k] <= DIE_WINDOW :: seen[k])[id := at]
    ensures Agrees(now, history + [Oom(id, at)])
  {
    forall k
      ensures var more := history + [Oom(id, at)];
              if Pending(more, k).Some? && !Pruned(more, k)
              then k in now && now[k] == Pending(more, k).value
              else k !in now
    {
      PendingStep(history, Oom(id, at), k);
    }
  }

  lemma TakeStep(seen: map<string, int>, history: seq<Event>, id: string, at: int)
    requires Agrees(seen, history)
    ensures Agrees(seen - {id}, history + [Die(id, at)])
  {
    forall k
      ensures var more := history + [Die(id, at)];
              if Pending(more, k).Some? && !Pruned(more, k) then k in seen - {id} && seen[k] == Pending(more, k).value
              else k !in seen - {id}
    {
      PendingStep(history, Die(id, at), k);
    }
  }

  class Collector {
    var oomSeen: map<string, int>
    ghost var history: seq<Event>

    ghost predicate Valid()
      reads this
    {
      Agrees(oomSeen, history)
    }

    constructor ()
      ensures Valid() && history == [] && oomSeen == map[]
    {
      oomSeen, history := map[], [];
    }

    /** Records an OOM and drops entries too old to explain anything. */
    method NoteOOM(id: string, at: int)
      requires Valid()
      modifies this
      ensures Valid() && history == old(history) + [Oom(id, at)]
      ensures id != "" ==> forall k | k in oomSeen :: at - oomSeen[k] <= DIE_WINDOW
    {
      hide Agrees;
      if id == "" {
        NoteStep(oomSeen, history, id, at, oomSeen);
        history := history + [Oom(id, at)];
        return;
      }
      var todo := oomSeen.Keys;
      ghost var before := oomSeen;
      while todo != {}
        invariant todo <= before.Keys && history == old(history)
        invariant oomSeen == map k | k in before && (k in todo || at - before[k] <= DIE_WINDOW) :: before[k]
      {
        var k :| k in todo;
        todo := todo - {k};
        if at - oomSeen[k] > DIE_WINDOW {
          oomSeen := oomSeen - {k};
        }
      }
      oomSeen := oomSeen[id := at];
      NoteStep(before, history, id, at, oomSeen);
      history := history + [Oom(id, at)];
    }

    /** Answers, from the table, what the whole history says, and consumes the OOM. */
    method TakeRecentOOM(id: string, at: int) returns (recent: bool)
      requires Valid()
      modifies this
      ensures Valid() && history == old(history) + [Die(id, at)]
      ensures recent <==> Explained(old(history), id, at) && !Pruned(old(history), id)
    {
      TakeStep(oomSeen, history, id, at);
      history := history + [Die(id, at)];
      if id !in oomSeen {
        assert oomSeen - {id} == oomSeen;
        return false;
      }
      var d := at - oomSeen[id];
      oomSeen := oomSeen - {id};
      return 0 <= d <= DIE_WINDOW;
    }
  }

  lemma {:induction false} PrunedIsOutrun(history: seq<Event>, id: string)
    requires Pruned(history, id)
    ensures Pending(history, id).Some?
    ensures exists e | e in history :: e.at - Pending(history, id).value > DIE_WINDOW
  {
    var last, before := history[|history| - 1], history[..|history| - 1];
    assert last in history && forall e | e in before :: e in history;
    if Pruned(before, id) {
      PrunedIsOutrun(before, id);
    }
  }

  /** Forgetting goes unnoticed: unless some event bears a later time, what explains an exit is still in the table. */
  lemma {:induction false} PruningGoesUnnoticed(history: seq<Event>, id: string, at: int)
    requires forall e | e in history :: e.at <= at
    ensures Explained(history, id, at) ==> !Pruned(history, id)
  {
    if Pruned(history, id) {
      PrunedIsOutrun(history, id);
    }
  }

  lemma {:induction false} NothingPending(history: seq<Event>, id: string, rest: seq<Event>)
    requires Pending(history, id) == None
    requires forall e | e in rest :: e.Die? || e.id != id
    ensures Pending(history + rest, id) == None
  {
    if rest == [] {
      assert history + rest == history;
    } else {
      var init, last := rest[..|rest| - 1], rest[|rest| - 1];
      NothingPending(history, id, init);
      assert history + rest == (history + init) + [last];
      PendingStep(history + init, last, id);
    }
  }

  /** An OOM explains at most one exit: after it, no exit is explained before the container's next OOM. */
  lemma ExplainsOneExit(history: seq<Event>, id: string, first: int, rest: seq<Event>, second: int)
    requires forall e | e in rest :: e.Die? || e.id != id
    ensures !Explained(history + [Die(id, first)] + rest, id, second)
  {
    PendingStep(history, Die(id, first), id);
    NothingPending(history + [Die(id, first)], id, rest);
  }
}
