/** Semantic versions: parsing, printing and precedence. */
module Semver {
  import opened Decimal
  import opened Strings
  import opened Types

  /** The largest 64-bit number; parsing a larger one yields it together with an error. */
  const MAX_UINT64: nat := 0xFFFF_FFFF_FFFF_FFFF

  datatype Semver = Semver(major: nat, minor: nat, patch: nat, pre: seq<string>)

  method IsNumeric(s: string) returns (r: bool)
    ensures r == Numeric(s)
  {
    if s == "" {
      return false;
    }
    for i := 0 to |s|
      invariant forall j | 0 <= j < i :: IsDigit(s[j])
    {
      if !IsDigit(s[i]) {
        assert s[i] in s;
        return false;
      }
    }
    return true;
  }

  // ---- numbers ----

  /** A number, or an error for one that does not fit 64 bits. */
  function ParseUint(s: string): Result<nat>
    requires AllDigits(s)
  {
    if Value(s) <= MAX_UINT64 then Success(Value(s)) else Failure
  }

  /** The number ParseUint returns whether or not it also reports an error. */
  function Saturated(s: string): nat
    requires AllDigits(s)
  {
    if Value(s) <= MAX_UINT64 then Value(s) else MAX_UINT64
  }

  // ---- parsing and printing ----

  predicate ValidPre(pre: seq<string>) {
    forall id | id in pre :: id != ""
  }

  function Parse(s: string): Option<Semver> {
    ParseBare(CutBefore(TrimPrefix(TrimSpace(s), "v"), '+'))
  }

  /** What is left once white space, a leading "v" and the build metadata are off. */
  function ParseBare(bare: string): Option<Semver> {
    var core := CutBefore(bare, '-');
    ParseParts(Split(core, '.'), if |core| < |bare| then Split(bare[|core| + 1..], '.') else [])
  }

  function ParseParts(parts: seq<string>, pre: seq<string>): Option<Semver> {
    if |parts| != 3 || !Numeric(parts[0]) || !Numeric(parts[1]) || !Numeric(parts[2]) then None
    else
      var major, minor, patch := ParseUint(parts[0]), ParseUint(parts[1]), ParseUint(parts[2]);
      if major.Failure? || minor.Failure? || patch.Failure? || !ValidPre(pre) then None
      else Some(Semver(major.value, minor.value, patch.value, pre))
  }

  /** Reads a version field by field, as the program does. */
  method ParseVersion(s: string) returns (v: Option<Semver>)
    ensures v == Parse(s)
  {
    hide TrimSpace, Split, Numeric;
    var bare := CutBefore(TrimPrefix(TrimSpace(s), "v"), '+');
    var core := CutBefore(bare, '-');
    var pre := if |core| < |bare| then Split(bare[|core| + 1..], '.') else [];
    v := ParseFields(Split(core, '.'), pre);
  }

  method ParseFields(parts: seq<string>, pre: seq<string>) returns (v: Option<Semver>)
    ensures v == ParseParts(parts, pre)
  {
    if |parts| != 3 {
      return None;
    }
    var nums: seq<nat> := [];
    for i := 0 to 3
      invariant |nums| == i
      invariant forall j | 0 <= j < i :: Numeric(parts[j]) && ParseUint(parts[j]) == Success(nums[j])
    {
      var numeric := IsNumeric(parts[i]);
      if !numeric {
        return None;
      }
      var n := ParseUint(parts[i]);
      if n.Failure? {
        return None;
      }
      nums := nums + [n.value];
    }
    for i := 0 to |pre|
      invariant forall j | 0 <= j < i :: pre[j] != ""
    {
      if pre[i] == "" {
        assert pre[i] in pre;
        return None;
      }
    }
    v := Some(Semver(nums[0], nums[1], nums[2], pre));
  }

  predicate Stable(v: Semver) {
    v.pre == []
  }

  function Core(v: Semver): string {
    FormatUint(v.major) + "." + FormatUint(v.minor) + "." + FormatUint(v.patch)
  }

  function ToString(v: Semver): string {
    if v.pre == [] then Core(v) else Core(v) + "-" + Join(v.pre, '.')
  }

  /** What every parsed version looks like. */
  ghost predicate WellFormed(v: Semver) {
    && v.major <= MAX_UINT64 && v.minor <= MAX_UINT64 && v.patch <= MAX_UINT64
    && forall id | id in v.pre :: id != "" && '.' !in id && '+' !in id
  }

  lemma {:induction false} PartsOfPlain(s: string, sep: char, c: char)
    requires c !in s
    ensures forall part | part in Split(s, sep) :: c !in part
  {
    if s != "" {
      PartsOfPlain(s[..|s| - 1], sep, c);
      var init := Split(s[..|s| - 1], sep);
      assert init[|init| - 1] in init;
    }
  }

  lemma ParsedIsWellFormed(s: string)
    requires Parse(s).Some?
    ensures WellFormed(Parse(s).value)
  {
    var bare := CutBefore(TrimPrefix(TrimSpace(s), "v"), '+');
    var core := CutBefore(bare, '-');
    if |core| < |bare| {
      PartsOfPlain(bare[|core| + 1..], '.', '+');
    }
  }

  lemma DigitsArePlain(s: string)
    requires Numeric(s)
    ensures '.' !in s && '-' !in s && '+' !in s && 'v' !in s
    ensures !IsSpace(s[0]) && !IsSpace(s[|s| - 1])
  {
    assert IsDigit(s[0]) && IsDigit(s[|s| - 1]);
  }

  lemma CutAtFirst(a: string, c: char, b: string)
    requires c !in a
    ensures CutBefore(a + [c] + b, c) == a
  {
    var s := a + [c] + b;
    var r := CutBefore(s, c);
    hide CutBefore;
    assert s[|a|] == c && s[..|a|] == a;
  }

  lemma DottedIsPlain(a: string, b: string, c: string)
    requires Numeric(a) && Numeric(b) && Numeric(c)
    ensures var core := a + "." + b + "." + c;
            && Split(core, '.') == [a, b, c]
            && core != "" && IsDigit(core[0]) && IsDigit(core[|core| - 1]) && '-' !in core && '+' !in core
  {
    DigitsArePlain(a);
    DigitsArePlain(b);
    DigitsArePlain(c);
    SplitPlain(a, '.');
    SplitAppend(a, '.', b);
    SplitAppend(a + "." + b, '.', c);
    var core := a + "." + b + "." + c;
    assert core[0] == a[0] && core[|core| - 1] == c[|c| - 1];
    assert a[0] in a && c[|c| - 1] in c;
  }

  lemma CoreIsPlain(v: Semver)
    ensures Split(Core(v), '.') == [FormatUint(v.major), FormatUint(v.minor), FormatUint(v.patch)]
    ensures Core(v) != "" && IsDigit(Core(v)[0]) && IsDigit(Core(v)[|Core(v)| - 1])
    ensures '-' !in Core(v) && '+' !in Core(v)
  {
    DottedIsPlain(FormatUint(v.major), FormatUint(v.minor), FormatUint(v.patch));
  }

  lemma {:induction false} JoinLacks(parts: seq<string>, sep: char, c: char)
    requires |parts| > 0 && c != sep && forall part | part in parts :: c !in part
    ensures c !in Join(parts, sep)
  {
    if |parts| > 1 {
      JoinLacks(parts[..|parts| - 1], sep, c);
    }
  }

  lemma JoinEnds(parts: seq<string>, sep: char)
    requires |parts| > 0 && parts[|parts| - 1] != ""
    ensures Join(parts, sep) != ""
    ensures var last := parts[|parts| - 1]; Join(parts, sep)[|Join(parts, sep)| - 1] == last[|last| - 1]
  {
  }

  predicate EndsInSpace(v: Semver) {
    v.pre != [] && v.pre[|v.pre| - 1] != "" &&
    IsSpace(v.pre[|v.pre| - 1][|v.pre[|v.pre| - 1]| - 1])
  }

  lemma PartsRoundTrip(v: Semver)
    requires WellFormed(v)
    ensures ParseParts([FormatUint(v.major), FormatUint(v.minor), FormatUint(v.patch)], v.pre) == Some(v)
  {
    FormattedValue(v.major);
    FormattedValue(v.minor);
    FormattedValue(v.patch);
  }

  /** A core of three numbers, and what follows it. */
  lemma BareOfDotted(a: string, b: string, c: string, pre: seq<string>)
    requires Numeric(a) && Numeric(b) && Numeric(c) && forall id | id in pre :: '.' !in id
    ensures ParseBare(a + "." + b + "." + c + if pre == [] then "" else "-" + Join(pre, '.'))
            == ParseParts([a, b, c], pre)
  {
    DottedIsPlain(a, b, c);
    hide ParseParts, Split, Numeric;
    var core := a + "." + b + "." + c;
    if pre == [] {
      assert core + "" == core;
      assert CutBefore(core, '-') == core;
    } else {
      var joined := Join(pre, '.');
      CutAtFirst(core, '-', joined);
      assert core + ("-" + joined) == core + ['-'] + joined;
      assert (core + ['-'] + joined)[|core| + 1..] == joined;
      SplitJoin(pre, '.');
    }
  }

  lemma BareRoundTrip(v: Semver)
    requires WellFormed(v)
    ensures ParseBare(ToString(v)) == Some(v)
  {
    PartsRoundTrip(v);
    BareOfDotted(FormatUint(v.major), FormatUint(v.minor), FormatUint(v.patch), v.pre);
    hide ParseParts, FormatUint, ParseBare;
    assert v.pre == [] ==> Core(v) + "" == Core(v);
    assert v.pre != [] ==> Core(v) + ("-" + Join(v.pre, '.')) == ToString(v);
  }

  lemma RenderingIsPlain(v: Semver)
    requires WellFormed(v)
    ensures var t := ToString(v);
            && t != "" && IsDigit(t[0]) && '+' !in t
            && (EndsInSpace(v) <==> IsSpace(t[|t| - 1]))
  {
    CoreIsPlain(v);
    if v.pre != [] {
      assert v.pre[|v.pre| - 1] in v.pre;
      JoinLacks(v.pre, '.', '+');
      JoinEnds(v.pre, '.');
    }
  }

  lemma LastIdentEnds(bare: string)
    requires ParseBare(bare).Some? && bare != "" && !IsSpace(bare[|bare| - 1])
    ensures !EndsInSpace(ParseBare(bare).value)
  {
    var core := CutBefore(bare, '-');
    if |core| < |bare| {
      var rest := bare[|core| + 1..];
      if rest != "" {
        LastPartEnds(rest, '.');
      }
    }
  }

  lemma LastPartEnds(s: string, sep: char)
    requires s != ""
    ensures var parts := Split(s, sep);
            var last := parts[|parts| - 1];
            last != "" ==> last[|last| - 1] == s[|s| - 1]
  {
  }

  lemma ParseOfPlain(t: string)
    requires t != "" && IsDigit(t[0]) && '+' !in t
    ensures Parse(t) == ParseBare(TrimSpace(t))
    ensures TrimSpace(t) != ""
  {
    hide ParseBare;
    TrimKeepsStart(t);
    var trimmed := TrimSpace(t);
    assert TrimPrefix(trimmed, "v") == trimmed;
    assert CutBefore(trimmed, '+') == trimmed;
  }

  /**
   * Printing and parsing again gives the version back exactly when its last pre-release identifier
   * does not end in white space. Such an identifier is parsed from "1.0.0-a +b", for one.
   */
  lemma PrintParseRoundTrip(v: Semver)
    requires WellFormed(v)
    ensures Parse(ToString(v)) == Some(v) <==> !EndsInSpace(v)
  {
    hide Parse, ParseBare, ToString, TrimSpace, WellFormed;
    var t := ToString(v);
    RenderingIsPlain(v);
    BareRoundTrip(v);
    ParseOfPlain(t);
    TrimmedLast(t);
    if !EndsInSpace(v) {
      TrimmedAlready(t);
    } else if Parse(t).Some? {
      LastIdentEnds(TrimSpace(t));
    }
  }

  lemma TrimmedLast(t: string)
    ensures TrimSpace(t) != "" ==> !IsSpace(TrimSpace(t)[|TrimSpace(t)| - 1])
  {
  }

  lemma TrimKeepsStart(t: string)
    requires t != "" && !IsSpace(t[0])
    ensures TrimSpace(t) != "" && TrimSpace(t)[0] == t[0] && forall c | c in TrimSpace(t) :: c in t
  {
    assert TrimLeft(t) == t;
    TrimRightKeepsStart(t);
  }

  lemma TrimRightKeepsStart(t: string)
    requires t != "" && !IsSpace(t[0])
    ensures TrimRight(t) != "" && TrimRight(t)[0] == t[0]
  {
    if IsSpace(t[|t| - 1]) {
      TrimRightKeepsStart(t[..|t| - 1]);
    }
  }

  /** Every well-formed version is what some input parses to, so the round trip is stated for all of them. */
  lemma EveryWellFormedIsParsed(v: Semver)
    requires WellFormed(v)
    ensures Parse(ToString(v) + "+b") == Some(v)
  {
    hide Parse, ParseBare, ToString, WellFormed;
    RenderingIsPlain(v);
    BareRoundTrip(v);
    BuildIsCutOff(ToString(v));
  }

  lemma BuildIsCutOff(t: string)
    requires t != "" && IsDigit(t[0]) && '+' !in t
    ensures Parse(t + "+b") == ParseBare(t)
  {
    hide ParseBare, TrimSpace;
    var s := t + ['+'] + "b";
    assert s == t + "+b" && s[0] == t[0] && s[|s| - 1] == 'b';
    TrimmedAlready(s);
    CutAtFirst(t, '+', "b");
    assert TrimPrefix(s, "v") == s;
  }

  // ---- what is accepted ----

  /** The three numbers of `v` are written as these digits, leading zeros allowed. */
  ghost predicate Numbered(v: Semver, a: string, b: string, c: string) {
    && Numeric(a) && Numeric(b) && Numeric(c)
    && v.major == Value(a) <= MAX_UINT64 && v.minor == Value(b) <= MAX_UINT64 && v.patch == Value(c) <= MAX_UINT64
  }

  function Suffix(pre: seq<string>): string {
    if pre == [] then "" else "-" + Join(pre, '.')
  }

  ghost predicate WrittenAs(text: string, v: Semver, a: string, b: string, c: string, build: string) {
    && Numbered(v, a, b, c) && (build == "" || build[0] == '+')
    && text == a + "." + b + "." + c + Suffix(v.pre) + build
  }

  /** `text` is "major.minor.patch", "-" and identifiers if there are any, and build metadata from a "+" on, if any. */
  ghost predicate Written(text: string, v: Semver) {
    && (forall id | id in v.pre :: id != "" && '.' !in id && '+' !in id)
    && exists a, b, c, build :: WrittenAs(text, v, a, b, c, build)
  }

  /** Exactly what is parsed: a written version, with white space around it and a "v" in front of it or not. */
  lemma ParsesIff(s: string, v: Semver)
    ensures Parse(s) == Some(v) <==>
            Written(TrimSpace(s), v) || (TrimSpace(s) != "" && TrimSpace(s)[0] == 'v' && Written(TrimSpace(s)[1..], v))
  {
    hide TrimSpace, ParseBare, Written;
    var t := TrimSpace(s);
    var text := TrimPrefix(t, "v");
    if Parse(s) == Some(v) {
      ParsedIsWritten(text, v);
    }
    if Written(t, v) {
      WrittenStartsWithDigit(t, v);
      WrittenIsParsed(t, v);
    }
    if t != "" && t[0] == 'v' {
      assert "v" <= t;
      if Written(t[1..], v) {
        WrittenIsParsed(t[1..], v);
      }
    }
  }

  lemma WrittenStartsWithDigit(text: string, v: Semver)
    requires Written(text, v)
    ensures text != "" && IsDigit(text[0])
  {
    var a, b, c, build :| WrittenAs(text, v, a, b, c, build);
    hide Suffix, Value;
    assert a[0] in a && text[0] == a[0];
  }

  lemma WrittenIsParsed(text: string, v: Semver)
    requires Written(text, v)
    ensures ParseBare(CutBefore(text, '+')) == Some(v)
  {
    var a, b, c, build :| WrittenAs(text, v, a, b, c, build);
    hide Written, ParseBare, Suffix, Numeric, Value, CutBefore;
    NoPlusInBare(a, b, c, v.pre);
    BareIsParsed(v, a, b, c);
    BuildIsCut(a + "." + b + "." + c + Suffix(v.pre), build);
  }

  lemma BareIsParsed(v: Semver, a: string, b: string, c: string)
    requires Numbered(v, a, b, c) && forall id | id in v.pre :: id != "" && '.' !in id
    ensures ParseBare(a + "." + b + "." + c + Suffix(v.pre)) == Some(v)
  {
    BareOfDotted(a, b, c, v.pre);
    hide ParseBare;
  }

  lemma BuildIsCut(bare: string, build: string)
    requires '+' !in bare && (build == "" || build[0] == '+')
    ensures CutBefore(bare + build, '+') == bare
  {
    if build == "" {
      assert bare + build == bare;
    } else {
      assert build == ['+'] + build[1..];
      assert bare + build == bare + ['+'] + build[1..];
      CutAtFirst(bare, '+', build[1..]);
    }
  }

  lemma NoPlusInBare(a: string, b: string, c: string, pre: seq<string>)
    requires Numeric(a) && Numeric(b) && Numeric(c) && forall id | id in pre :: '+' !in id
    ensures '+' !in a + "." + b + "." + c + Suffix(pre)
  {
    DottedIsPlain(a, b, c);
    if pre != [] {
      JoinLacks(pre, '.', '+');
    }
  }

  lemma ParsedIsWritten(text: string, v: Semver)
    requires ParseBare(CutBefore(text, '+')) == Some(v)
    ensures Written(text, v)
  {
    hide ParseBare, Numbered, Written, Suffix, CutBefore;
    var bare := CutBefore(text, '+');
    var build := text[|bare|..];
    assert text == bare + build;
    var parts := SplitBare(bare, v);
    IsWritten(text, v, parts[0], parts[1], parts[2], build);
  }

  lemma IsWritten(text: string, v: Semver, a: string, b: string, c: string, build: string)
    requires WrittenAs(text, v, a, b, c, build) && forall id | id in v.pre :: id != "" && '.' !in id && '+' !in id
    ensures Written(text, v)
  {
  }

  /** What a bare version that is parsed is made of. */
  lemma SplitBare(bare: string, v: Semver) returns (parts: seq<string>)
    requires ParseBare(bare) == Some(v) && '+' !in bare
    ensures |parts| == 3 && Numbered(v, parts[0], parts[1], parts[2])
    ensures bare == parts[0] + "." + parts[1] + "." + parts[2] + Suffix(v.pre)
    ensures forall id | id in v.pre :: id != "" && '.' !in id && '+' !in id
  {
    hide Split, CutBefore, Value, Numeric, Join;
    var core := CutBefore(bare, '-');
    parts := Split(core, '.');
    JoinSplit(core, '.');
    ThreeJoined(parts);
    if |core| < |bare| {
      TailIsSuffix(bare, core);
    }
  }

  lemma TailIsSuffix(bare: string, core: string)
    requires core <= bare && |core| < |bare| && bare[|core|] == '-' && '+' !in bare
    ensures var pre := Split(bare[|core| + 1..], '.');
            && bare == core + Suffix(pre) && forall id | id in pre :: '.' !in id && '+' !in id
  {
    var tail := bare[|core| + 1..];
    PartsOfPlain(tail, '.', '+');
    JoinSplit(tail, '.');
    hide Split, Join;
    assert bare == core + ("-" + tail);
  }

  lemma ThreeJoined(parts: seq<string>)
    requires |parts| == 3
    ensures Join(parts, '.') == parts[0] + "." + parts[1] + "." + parts[2]
  {
    assert parts[..2][..1] == [parts[0]];
    assert Join(parts[..2], '.') == parts[0] + ['.'] + parts[1];
  }

  /** A release tag: a "v" in front of a version changes nothing. */
  lemma TagIsParsed(v: Semver)
    requires WellFormed(v) && !EndsInSpace(v)
    ensures Parse("v" + ToString(v)) == Some(v)
  {
    RenderingIsPlain(v);
    BareRoundTrip(v);
    hide ParseBare, ToString, WellFormed, TrimSpace;
    var t := "v" + ToString(v);
    assert t[|t| - 1] == ToString(v)[|ToString(v)| - 1] && t[1..] == ToString(v);
    TrimmedAlready(t);
    assert TrimPrefix(t, "v") == ToString(v);
    assert CutBefore(ToString(v), '+') == ToString(v);
  }

  // ---- precedence ----

  function CmpUint(a: nat, b: nat): int {
    if a < b then -1 else if a > b then 1 else 0
  }

  function CmpString(a: string, b: string): int {
    if a == [] || b == [] then CmpUint(|a|, |b|)
    else if a[0] != b[0] then if a[0] < b[0] then -1 else 1
    else CmpString(a[1..], b[1..])
  }

  function CmpIdent(a: string, b: string): int {
    if Numeric(a) && Numeric(b) then CmpUint(Saturated(a), Saturated(b))
    else if Numeric(a) then -1
    else if Numeric(b) then 1
    else CmpString(a, b)
  }

  function CmpPre(a: seq<string>, b: seq<string>): int {
    if a == [] || b == [] then CmpUint(|a|, |b|)
    else if CmpIdent(a[0], b[0]) != 0 then CmpIdent(a[0], b[0])
    else CmpPre(a[1..], b[1..])
  }

  function Precedence(a: Semver, b: Semver): int {
    if CmpUint(a.major, b.major) != 0 then CmpUint(a.major, b.major)
    else if CmpUint(a.minor, b.minor) != 0 then CmpUint(a.minor, b.minor)
    else if CmpUint(a.patch, b.patch) != 0 then CmpUint(a.patch, b.patch)
    else if a.pre == [] && b.pre == [] then 0
    else if a.pre == [] then 1
    else if b.pre == [] then -1
    else CmpPre(a.pre, b.pre)
  }

  /** Runs over the identifiers until two differ. */
  method Compare(a: Semver, b: Semver) returns (r: int)
    ensures r == Precedence(a, b)
  {
    r := CmpUint(a.major, b.major);
    if r != 0 { return; }
    r := CmpUint(a.minor, b.minor);
    if r != 0 { return; }
    r := CmpUint(a.patch, b.patch);
    if r != 0 { return; }
    if a.pre == [] && b.pre == [] { return 0; }
    if a.pre == [] { return 1; }
    if b.pre == [] { return -1; }
    var i := 0;
    while i < |a.pre| && i < |b.pre|
      invariant i <= |a.pre| && i <= |b.pre|
      invariant CmpPre(a.pre, b.pre) == CmpPre(a.pre[i..], b.pre[i..])
    {
      r := CmpIdent(a.pre[i], b.pre[i]);
      if r != 0 { return; }
      assert a.pre[i..][1..] == a.pre[i + 1..] && b.pre[i..][1..] == b.pre[i + 1..];
      i := i + 1;
    }
    r := CmpUint(|a.pre|, |b.pre|);
  }

  /** Three-way comparisons of three values that agree with one order. */
  ghost predicate Coherent(ab: int, ba: int, bc: int, ac: int) {
    && -1 <= ab <= 1 && ba == -ab
    && (ab <= 0 && bc <= 0 ==> ac <= 0)
    && (ab <= 0 && bc <= 0 && ac == 0 ==> ab == 0 && bc == 0)
  }

  lemma {:induction false} StringOrder(a: string, b: string, c: string)
    ensures CmpString(a, a) == 0
    ensures Coherent(CmpString(a, b), CmpString(b, a), CmpString(b, c), CmpString(a, c))
    ensures CmpString(a, b) == 0 <==> a == b
  {
    if a != [] {
      StringOrder(a[1..], if b == [] then b else b[1..], if c == [] then c else c[1..]);
      assert b != [] && a[0] == b[0] && a[1..] == b[1..] ==> a == b by {
        assert a == [a[0]] + a[1..] && (b != [] ==> b == [b[0]] + b[1..]);
      }
    }
  }

  lemma IdentOrder(a: string, b: string, c: string)
    ensures CmpIdent(a, a) == 0
    ensures Coherent(CmpIdent(a, b), CmpIdent(b, a), CmpIdent(b, c), CmpIdent(a, c))
  {
    StringOrder(a, b, c);
  }

  lemma {:induction false} PreOrder(a: seq<string>, b: seq<string>, c: seq<string>)
    ensures CmpPre(a, a) == 0
    ensures Coherent(CmpPre(a, b), CmpPre(b, a), CmpPre(b, c), CmpPre(a, c))
  {
    if a != [] {
      PreOrder(a[1..], if b == [] then b else b[1..], if c == [] then c else c[1..]);
      hide CmpIdent;
      IdentOrder(a[0], if b == [] then "" else b[0], if c == [] then "" else c[0]);
    }
  }

  /**
   * Precedence is a total preorder: reflexive, sign-symmetric, transitive, and a chain closes to 0
   * only if every link is 0.
   */
  lemma PrecedenceIsPreorder(a: Semver, b: Semver, c: Semver)
    ensures Precedence(a, a) == 0
    ensures Precedence(b, a) == -Precedence(a, b) && -1 <= Precedence(a, b) <= 1
    ensures Precedence(a, b) <= 0 && Precedence(b, c) <= 0 ==> Precedence(a, c) <= 0
    ensures Precedence(a, b) <= 0 && Precedence(b, c) <= 0 && Precedence(a, c) == 0 ==>
              Precedence(a, b) == 0 && Precedence(b, c) == 0
  {
    hide CmpPre;
    PreOrder(a.pre, b.pre, c.pre);
  }

  // ---- item 11 of Semantic Versioning 2.0.0 ----

  /** ASCII order: a proper prefix comes first, and otherwise the first character that differs decides. */
  ghost predicate Before(a: string, b: string) {
    || a < b
    || exists i | 0 <= i < |a| && i < |b| :: a[..i] == b[..i] && a[i] < b[i]
  }

  /** The string comparison is that order. */
  lemma {:induction false} CmpStringIsOrder(a: string, b: string)
    ensures CmpString(a, b) == if a == b then 0 else if Before(a, b) then -1 else 1
    ensures a != b ==> (Before(b, a) <==> !Before(a, b))
  {
    if a != [] && b != [] && a[0] == b[0] {
      CmpStringIsOrder(a[1..], b[1..]);
      BeforeTail(a, b);
      BeforeTail(b, a);
      assert a == [a[0]] + a[1..] && b == [b[0]] + b[1..];
    } else if a != [] && b != [] {
      assert a[..0] == b[..0];
      HeadDecides(a, b);
      HeadDecides(b, a);
    }
  }

  lemma HeadDecides(a: string, b: string)
    requires a != [] && b != [] && a[0] != b[0]
    ensures Before(a, b) <==> a[0] < b[0]
  {
    assert a[..0] == b[..0];
    forall i | 0 < i < |a| && i < |b| ensures a[..i] != b[..i] {
      assert a[..i][0] == a[0] && b[..i][0] == b[0];
    }
  }

  lemma BeforeTail(a: string, b: string)
    requires a != [] && b != [] && a[0] == b[0]
    ensures Before(a, b) <==> Before(a[1..], b[1..])
  {
    var x, y := a[1..], b[1..];
    assert a == [a[0]] + x && b == [b[0]] + y;
    assert a < b <==> x < y;
    if i :| 0 <= i < |a| && i < |b| && a[..i] == b[..i] && a[i] < b[i] {
      assert i > 0 && x[..i - 1] == a[..i][1..] && y[..i - 1] == b[..i][1..];
      assert x[i - 1] < y[i - 1];
    }
    if i :| 0 <= i < |x| && i < |y| && x[..i] == y[..i] && x[i] < y[i] {
      assert a[..i + 1] == [a[0]] + x[..i] && b[..i + 1] == [b[0]] + y[..i];
      assert a[i + 1] < b[i + 1];
    }
  }

  /** Items 11.4.1 to 11.4.3: digits numerically, below anything else; the rest in ASCII order. */
  ghost function SpecIdent(a: string, b: string): int {
    if Numeric(a) && Numeric(b) then Value(a) - Value(b)
    else if Numeric(a) then -1
    else if Numeric(b) then 1
    else if a == b then 0
    else if Before(a, b) then -1
    else 1
  }

  function Sign(x: int): int {
    if x < 0 then -1 else if x > 0 then 1 else 0
  }

  /** Two different numbers that both overflow 64 bits, or the largest 64-bit number and a larger one. */
  predicate Indistinct(a: string, b: string) {
    Numeric(a) && Numeric(b) && Value(a) != Value(b) && Value(a) >= MAX_UINT64 && Value(b) >= MAX_UINT64
  }

  /** The comparison agrees with the specification exactly when not both numbers saturate. */
  lemma IdentAgreesUnlessBothSaturate(a: string, b: string)
    ensures CmpIdent(a, b) == Sign(SpecIdent(a, b)) <==> !Indistinct(a, b)
  {
    CmpStringIsOrder(a, b);
    hide Value, CmpString, Before;
  }

  /** Item 11.4: identifiers from left to right until one differs; then the larger set of fields is higher. */
  ghost function SpecPre(a: seq<string>, b: seq<string>): int {
    if a == [] || b == [] then |a| - |b|
    else if SpecIdent(a[0], b[0]) != 0 then SpecIdent(a[0], b[0])
    else SpecPre(a[1..], b[1..])
  }

  /** Items 11.2 and 11.3: the three numbers decide first; then a normal version outranks its pre-releases. */
  ghost function SpecPrecedence(a: Semver, b: Semver): int {
    if (a.major, a.minor, a.patch) != (b.major, b.minor, b.patch) then
      if a.major < b.major || (a.major == b.major && (a.minor < b.minor || (a.minor == b.minor && a.patch < b.patch)))
      then -1 else 1
    else if a.pre != [] && b.pre != [] then Sign(SpecPre(a.pre, b.pre))
    else if a.pre == b.pre then 0
    else if a.pre == [] then 1
    else -1
  }

  /** How many identifiers there are before the first that the specification tells apart. */
  ghost function SameUpTo(a: seq<string>, b: seq<string>): (n: nat)
    ensures n <= |a| && n <= |b|
  {
    if a == [] || b == [] || SpecIdent(a[0], b[0]) != 0 then 0 else 1 + SameUpTo(a[1..], b[1..])
  }

  /** The identifiers that decide are numbers the comparison takes for equal, and those behind them decide otherwise. */
  ghost predicate Misjudged(a: seq<string>, b: seq<string>) {
    var n := SameUpTo(a, b);
    && n < |a| && n < |b| && Indistinct(a[n], b[n])
    && CmpPre(a[n + 1..], b[n + 1..]) != Sign(Value(a[n]) - Value(b[n]))
  }

  lemma {:induction false} PreAgrees(a: seq<string>, b: seq<string>)
    ensures CmpPre(a, b) == Sign(SpecPre(a, b)) <==> !Misjudged(a, b)
  {
    if a != [] && b != [] {
      IdentAgreesUnlessBothSaturate(a[0], b[0]);
      PreAgrees(a[1..], b[1..]);
      hide CmpIdent, Value, Indistinct;
      if SpecIdent(a[0], b[0]) == 0 {
        assert SameUpTo(a, b) == 1 + SameUpTo(a[1..], b[1..]);
      }
    }
  }

  /**
   * The comparison is the specification's precedence if and only if the two versions do not differ first in numbers
   * past 64 bits that what follows them then misjudges.
   */
  lemma AgreesWithSpecification(a: Semver, b: Semver)
    ensures Precedence(a, b) == SpecPrecedence(a, b) <==>
            (a.major, a.minor, a.patch) != (b.major, b.minor, b.patch) || !Misjudged(a.pre, b.pre)
  {
    PreAgrees(a.pre, b.pre);
  }

  // ---- the newest release ----

  /** At most ten pages are read, and none after one with fewer than a hundred names. */
  const MAX_TAG_PAGES: nat := 10
  const PAGE_SIZE: nat := 100

  type Page = Result<seq<string>>

  /** The names the update check gets to see, or nothing if a page it needs cannot be read. */
  function SeenNames(pages: seq<Page>, budget: nat): Option<seq<string>> {
    if pages == [] || budget == 0 then Some([])
    else if pages[0].Failure? then None
    else if |pages[0].value| < 100 then Some(pages[0].value)
    else After(pages[0].value, SeenNames(pages[1..], budget - 1))
  }

  /** `names` and then the rest, if that can be read. */
  function After(names: seq<string>, rest: Option<seq<string>>): Option<seq<string>> {
    match rest
    case None => None
    case Some(more) => Some(names + more)
  }

  lemma AfterNothing(rest: Option<seq<string>>)
    ensures After([], rest) == rest
  {
    assert rest.Some? ==> [] + rest.value == rest.value;
  }

  predicate IsStable(name: string) {
    Parse(name).Some? && Stable(Parse(name).value)
  }

  ghost predicate IsNewest(names: seq<string>, best: Semver) {
    && Stable(best)
    && (exists name | name in names :: Parse(name) == Some(best))
    && forall name | name in names && IsStable(name) :: Precedence(Parse(name).value, best) <= 0
  }

  ghost predicate BestSoFar(names: seq<string>, best: Option<Semver>) {
    match best
    case None => forall name | name in names :: !IsStable(name)
    case Some(v) => IsNewest(names, v)
  }

  /** The newest stable version among the tags seen, however they are ordered and paged. */
  method LatestStable(pages: seq<Page>) returns (r: Result<Semver>)
    ensures var seen := SeenNames(pages, 10);
            match r
            case Success(v) => seen.Some? && IsNewest(seen.value, v)
            case Failure => seen.Some? ==> forall name | name in seen.value :: !IsStable(name)
  {
    hide Parse, Precedence, IsNewest;
    var best: Option<Semver> := None;
    ghost var names: seq<string> := [];
    var page := 0;
    assert pages[0..] == pages;
    AfterNothing(SeenNames(pages, MAX_TAG_PAGES));
    while page < MAX_TAG_PAGES && page < |pages|
      invariant page <= MAX_TAG_PAGES && page <= |pages|
      invariant BestSoFar(names, best)
      invariant SeenNames(pages, MAX_TAG_PAGES) == After(names, SeenNames(pages[page..], MAX_TAG_PAGES - page))
    {
      SeenStep(pages, page, names);
      if pages[page].Failure? {
        return Failure;
      }
      var tags := pages[page].value;
      best := NewestOf(tags, best, names);
      names := names + tags;
      if |tags| < PAGE_SIZE {
        return if best.Some? then Success(best.value) else Failure;
      }
      page := page + 1;
    }
    assert names + [] == names;
    return if best.Some? then Success(best.value) else Failure;
  }

  lemma SeenStep(pages: seq<Page>, page: nat, names: seq<string>)
    requires page < |pages| && page < MAX_TAG_PAGES
    ensures var seen := After(names, SeenNames(pages[page..], MAX_TAG_PAGES - page));
            if pages[page].Failure? then seen == None
            else if |pages[page].value| < PAGE_SIZE then seen == Some(names + pages[page].value)
            else seen == After(names + pages[page].value, SeenNames(pages[page + 1..], MAX_TAG_PAGES - page - 1))
  {
    assert pages[page..][1..] == pages[page + 1..];
    if pages[page].Success? {
      var rest := SeenNames(pages[page + 1..], MAX_TAG_PAGES - page - 1);
      assert rest.Some? ==> names + (pages[page].value + rest.value) == names + pages[page].value + rest.value;
    }
  }

  method NewestOf(tags: seq<string>, start: Option<Semver>, ghost names: seq<string>) returns (best: Option<Semver>)
    requires BestSoFar(names, start)
    ensures BestSoFar(names + tags, best)
  {
    hide Parse, Precedence, IsNewest;
    best := start;
    assert names + tags[..0] == names;
    for i := 0 to |tags|
      invariant BestSoFar(names + tags[..i], best)
    {
      var v := Parse(tags[i]);
      var newer := true;
      if v.Some? && best.Some? {
        var c := Compare(v.value, best.value);
        newer := c > 0;
      }
      NewestStep(names + tags[..i], tags[i], best);
      assert names + tags[..i + 1] == names + tags[..i] + [tags[i]];
      if v.Some? && Stable(v.value) && newer {
        best := v;
      }
    }
    assert tags[..|tags|] == tags;
  }

  lemma NewestStep(names: seq<string>, name: string, best: Option<Semver>)
    requires BestSoFar(names, best)
    ensures var v := Parse(name);
            BestSoFar(names + [name],
                      if IsStable(name) && (best.None? || Precedence(v.value, best.value) > 0) then v else best)
  {
    hide Parse, Precedence;
    var more := names + [name];
    assert forall n :: n in more <==> n in names || n == name;
    if IsStable(name) {
      var v := Parse(name).value;
      forall n | n in names && IsStable(n)
        ensures best.Some? && Precedence(v, best.value) > 0 ==> Precedence(Parse(n).value, v) <= 0
      {
        if best.Some? {
          PrecedenceIsPreorder(best.value, v, v);
          PrecedenceIsPreorder(Parse(n).value, best.value, v);
        }
      }
      PrecedenceIsPreorder(v, v, v);
      if best.Some? {
        PrecedenceIsPreorder(v, best.value, v);
      }
    }
  }

  lemma StableEqual(a: Semver, b: Semver)
    requires Stable(a) && Stable(b) && Precedence(a, b) == 0
    ensures a == b
  {
  }

  /** There is one newest version, and it depends only on which names there are. */
  lemma NewestIsUnique(a: seq<string>, b: seq<string>, v: Semver, w: Semver)
    requires (forall name :: name in a <==> name in b) && IsNewest(a, v) && IsNewest(b, w)
    ensures v == w
  {
    hide Parse, Precedence;
    var n :| n in a && Parse(n) == Some(v);
    var m :| m in b && Parse(m) == Some(w);
    assert IsStable(n) && IsStable(m);
    PrecedenceIsPreorder(v, w, v);
    StableEqual(v, w);
  }
}
