/** The offline spool: a bounded queue that evicts its oldest frames. */
module Spooling {

  const MAX_ENTRIES: nat := 1024
  const MAX_BYTES: nat := 0x10_0000
  /** One hour, in milliseconds. */
  const MAX_AGE: nat := 3_600_000

  /** A pre-encoded envelope: its place in the order frames were spooled in, and its length in bytes. */
  datatype Frame = Frame(id: nat, size: nat)

  datatype Entry = Entry(frame: Frame, at: int)

  function Size(entries: seq<Entry>): nat {
    if entries == [] then 0 else entries[0].frame.size + Size(entries[1..])
  }

  predicate WithinCaps(entries: seq<Entry>) {
    |entries| <= 1024 && (Size(entries) <= 1_048_576 || |entries| <= 1)
  }

  /** What eviction leaves of a queue. */
  function Kept(entries: seq<Entry>): (r: seq<Entry>)
    ensures WithinCaps(r)
    ensures |r| <= |entries| && r == entries[|entries| - |r|..]
  {
    if WithinCaps(entries) then entries else Kept(entries[1..])
  }

  lemma SizeAppend(a: seq<Entry>, b: seq<Entry>)
    ensures Size(a + b) == Size(a) + Size(b)
  {
    if a == [] {
      assert a + b == b;
    } else {
      assert (a + b)[1..] == a[1..] + b;
      SizeAppend(a[1..], b);
    }
  }

  /** Eviction is minimal: every suffix that fits the caps is no longer than what is kept. */
  lemma {:induction false} KeptIsLongest(entries: seq<Entry>, k: nat)
    requires k <= |entries| && WithinCaps(entries[k..])
    ensures |entries| - k <= |Kept(entries)|
  {
    assert entries[0..] == entries;
    if !WithinCaps(entries) {
      assert entries[1..][k - 1..] == entries[k..];
      KeptIsLongest(entries[1..], k - 1);
    }
  }

  /** Eviction is incremental: forgetting frames early never changes what is kept later. */
  lemma {:induction false} KeptIsIncremental(entries: seq<Entry>, e: Entry)
    ensures Kept(Kept(entries) + [e]) == Kept(entries + [e])
  {
    if !WithinCaps(entries) {
      SizeAppend(entries, [e]);
      assert !WithinCaps(entries + [e]);
      assert (entries + [e])[1..] == entries[1..] + [e];
      KeptIsIncremental(entries[1..], e);
    }
  }

  /** Whether a frame is still news at `now`. */
  predicate Fresh(e: Entry, now: int) {
    e.at >= now - MAX_AGE
  }

  function Young(entries: seq<Entry>, now: int): seq<Entry> {
    if entries == [] then []
    else
      var rest := Young(entries[..|entries| - 1], now);
      if Fresh(entries[|entries| - 1], now) then rest + [entries[|entries| - 1]] else rest
  }

  function Frames(entries: seq<Entry>): (r: seq<Frame>)
    ensures |r| == |entries|
  {
    seq(|entries|, i requires 0 <= i < |entries| => entries[i].frame)
  }

  function Ids(frames: seq<Frame>): (r: seq<nat>)
    ensures |r| == |frames|
  {
    seq(|frames|, i requires 0 <= i < |frames| => frames[i].id)
  }

  function Stamped(envs: seq<Frame>, at: int): (r: seq<Entry>)
    ensures |r| == |envs| && Frames(r) == envs
  {
    seq(|envs|, i requires 0 <= i < |envs| => Entry(envs[i], at))
  }

  /** Frames put back by a failed replay age from that replay on, all together. */
  lemma {:induction false} PutBackAgesAnew(envs: seq<Frame>, at: int, now: int)
    ensures Young(Stamped(envs, at), now) == if now - at <= MAX_AGE then Stamped(envs, at) else []
  {
    if envs != [] {
      var init := envs[..|envs| - 1];
      PutBackAgesAnew(init, at, now);
      assert Stamped(envs, at)[..|envs| - 1] == Stamped(init, at);
    }
  }

  lemma KeptStep(run: seq<Entry>, i: nat)
    requires i < |run|
    ensures Kept(Kept(run[..i]) + [Entry(run[i].frame, run[i].at)]) == Kept(run[..i + 1])
  {
    hide Kept, WithinCaps, Size;
    KeptIsIncremental(run[..i], run[i]);
    assert run[..i + 1] == run[..i] + [run[i]];
  }

  class Spool {
    var entries: seq<Entry>
    var bytes: int
    var evicted: nat

    ghost predicate Valid()
      reads this
    {
      bytes == Size(entries) && WithinCaps(entries)
    }

    constructor ()
      ensures Valid() && entries == [] && evicted == 0
    {
      entries, bytes, evicted := [], 0, 0;
    }

    /** Evicts oldest entries until the caps hold again; a lone frame is kept whatever its size. */
    method EnforceCaps()
      requires bytes == Size(entries)
      modifies this
      ensures Valid() && entries == Kept(old(entries))
      ensures evicted == old(evicted) + |old(entries)| - |entries|
    {
      while |entries| > MAX_ENTRIES || (bytes > MAX_BYTES && |entries| > 1)
        invariant bytes == Size(entries)
        invariant Kept(entries) == Kept(old(entries)) && |entries| <= |old(entries)|
        invariant evicted == old(evicted) + |old(entries)| - |entries|
        decreases |entries|
      {
        bytes := bytes - entries[0].frame.size;
        entries := entries[1..];
        evicted := evicted + 1;
      }
    }

    method Add(env: Frame, now: int)
      requires Valid()
      modifies this
      ensures Valid()
      ensures env.size == 0 ==> entries == old(entries) && evicted == old(evicted)
      ensures env.size > 0 ==> entries == Kept(old(entries) + [Entry(env, now)])
      ensures env.size > 0 ==> evicted == old(evicted) + |old(entries)| + 1 - |entries|
    {
      if env.size == 0 {
        return;
      }
      SizeAppend(entries, [Entry(env, now)]);
      entries := entries + [Entry(env, now)];
      bytes := bytes + env.size;
      EnforceCaps();
    }

    /** Hands out what is still young enough, oldest first, and counts everything dropped since the last drain. */
    method Drain(now: int) returns (envs: seq<Frame>, dropped: nat)
      requires Valid()
      modifies this
      ensures Valid() && entries == [] && evicted == 0
      ensures envs == Frames(Young(old(entries), now))
      ensures dropped == old(evicted) + |old(entries)| - |envs|
    {
      envs := [];
      for i := 0 to |entries|
        invariant entries == old(entries) && envs == Frames(Young(entries[..i], now))
        invariant evicted == old(evicted) + i - |envs|
      {
        assert entries[..i + 1][..i] == entries[..i];
        if !Fresh(entries[i], now) {
          evicted := evicted + 1;
        } else {
          envs := envs + [entries[i].frame];
        }
      }
      assert entries[..|entries|] == entries;
      dropped := evicted;
      entries, bytes, evicted := [], 0, 0;
    }

    /** Puts undelivered frames back in front, observed as of `at`. */
    method Unshift(envs: seq<Frame>, at: int)
      requires Valid()
      modifies this
      ensures Valid()
      ensures envs == [] ==> entries == old(entries) && evicted == old(evicted)
      ensures envs != [] ==> entries == Kept(Stamped(envs, at) + old(entries))
      ensures envs != [] ==> evicted == old(evicted) + |envs| + |old(entries)| - |entries|
    {
      if envs == [] {
        return;
      }
      entries := Stamped(envs, at) + entries;
      bytes := 0;
      for i := 0 to |entries|
        invariant entries == Stamped(envs, at) + old(entries) && evicted == old(evicted)
        invariant bytes == Size(entries[..i])
      {
        assert entries[..i + 1] == entries[..i] + [entries[i]];
        SizeAppend(entries[..i], [entries[i]]);
        bytes := bytes + entries[i].frame.size;
      }
      assert entries[..|entries|] == entries;
      EnforceCaps();
    }

    method Discard() returns (dropped: nat)
      requires Valid()
      modifies this
      ensures Valid() && entries == [] && evicted == 0 && dropped == |old(entries)|
    {
      dropped := |entries|;
      entries, bytes, evicted := [], 0, 0;
    }
  }

  lemma NothingKept()
    ensures Kept([]) == []
  {
  }

  /** A run of adds on an empty spool holds exactly the longest capped suffix of the whole run. */
  method AddAll(s: Spool, run: seq<Entry>)
    requires s.Valid() && s.entries == []
    requires forall e | e in run :: e.frame.size > 0
    modifies s
    ensures s.Valid() && s.entries == Kept(run)
    ensures s.evicted == old(s.evicted) + |run| - |s.entries|
  {
    hide Kept, WithinCaps, Size;
    NothingKept();
    for i := 0 to |run|
      invariant s.Valid() && s.entries == Kept(run[..i])
      invariant s.evicted == old(s.evicted) + i - |s.entries|
    {
      var e := run[i];
      KeptStep(run, i);
      s.Add(e.frame, e.at);
    }
    assert run[..|run|] == run;
  }
}
