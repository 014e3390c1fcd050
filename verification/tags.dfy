/** The tags a container asks for. The Control Plane keeps tags as a set, so duplicates must not survive parsing. */
module Tags {
  import opened Strings

  ghost predicate Tagged(parts: seq<string>, tag: string) {
    exists part | part in parts :: TrimSpace(part) == tag
  }

  /** The trimmed parts that say something, each where it comes first. */
  function TagsIn(parts: seq<string>): seq<string> {
    if parts == [] then []
    else
      var init, tag := TagsIn(parts[..|parts| - 1]), TrimSpace(parts[|parts| - 1]);
      if tag == "" || tag in init then init else init + [tag]
  }

  ghost predicate Distinct(tags: seq<string>) {
    forall i, j | 0 <= i < j < |tags| :: tags[i] != tags[j]
  }

  /** Nothing declared is lost, nothing is added, and no tag comes twice. */
  lemma {:induction false} TagsAreThoseDeclared(parts: seq<string>)
    ensures Distinct(TagsIn(parts))
    ensures forall tag :: tag in TagsIn(parts) <==> tag != "" && Tagged(parts, tag)
  {
    hide TrimSpace;
    if parts != [] {
      var init, last := parts[..|parts| - 1], parts[|parts| - 1];
      TagsAreThoseDeclared(init);
      assert parts == init + [last];
      forall tag ensures Tagged(parts, tag) <==> Tagged(init, tag) || tag == TrimSpace(last) {
        assert last in parts && forall part :: part in parts <==> part in init || part == last;
      }
    }
  }

  lemma TagsInStep(parts: seq<string>, i: nat)
    requires i < |parts|
    ensures var init, tag := TagsIn(parts[..i]), TrimSpace(parts[i]);
            TagsIn(parts[..i + 1]) == if tag == "" || tag in init then init else init + [tag]
  {
    hide TrimSpace, Tagged;
    assert parts[..i + 1][..i] == parts[..i];
  }

  method ParseTags(declared: string, defaults: seq<string>) returns (tags: seq<string>)
    ensures tags == if declared == "" then defaults else TagsIn(Split(declared, ','))
  {
    if declared == "" {
      return defaults;
    }
    var parts := Split(declared, ',');
    tags := [];
    var seen: set<string> := {};
    hide TrimSpace, Tagged, Split;
    for i := 0 to |parts|
      invariant tags == TagsIn(parts[..i]) && forall tag :: tag in seen <==> tag in tags
    {
      TagsInStep(parts, i);
      var trimmed := TrimSpace(parts[i]);
      if trimmed != "" && trimmed !in seen {
        seen, tags := seen + {trimmed}, tags + [trimmed];
      }
    }
    assert parts[..|parts|] == parts;
  }

  predicate Bare(tag: string) {
    tag != "" && !IsSpace(tag[0]) && !IsSpace(tag[|tag| - 1]) && ',' !in tag
  }

  lemma DistinctInit(tags: seq<string>)
    requires tags != [] && Distinct(tags)
    ensures Distinct(tags[..|tags| - 1]) && tags[|tags| - 1] !in tags[..|tags| - 1]
  {
  }

  ghost predicate AllBare(tags: seq<string>) {
    forall tag | tag in tags :: Bare(tag)
  }

  lemma LastIsTrimmed(tags: seq<string>)
    requires tags != [] && AllBare(tags)
    ensures AllBare(tags[..|tags| - 1]) && tags[|tags| - 1] != "" && TrimSpace(tags[|tags| - 1]) == tags[|tags| - 1]
  {
    hide TrimSpace;
    assert Bare(tags[|tags| - 1]);
    TrimmedAlready(tags[|tags| - 1]);
  }

  lemma LastGoesBehind(tags: seq<string>)
    requires tags != []
    ensures tags == tags[..|tags| - 1] + [tags[|tags| - 1]]
  {
  }

  lemma {:induction false} CleanTagsStay(tags: seq<string>)
    requires AllBare(tags) && Distinct(tags)
    ensures TagsIn(tags) == tags
  {
    hide TrimSpace, Tagged, Distinct, AllBare;
    if tags != [] {
      DistinctInit(tags);
      LastIsTrimmed(tags);
      CleanTagsStay(tags[..|tags| - 1]);
      LastGoesBehind(tags);
    }
  }

  /** Written into the label again, parsed tags parse to themselves. */
  lemma TagsRoundTrip(tags: seq<string>)
    requires tags != [] && AllBare(tags) && Distinct(tags)
    ensures TagsIn(Split(Join(tags, ','), ',')) == tags
  {
    hide TrimSpace, Split, Join, Distinct, TagsIn;
    SplitJoin(tags, ',');
    CleanTagsStay(tags);
  }
}
