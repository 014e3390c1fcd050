/** The fragment of Go's `strings` package the modelled code relies on, over sequences of characters. */
module Strings {

  predicate OccursAt(s: string, sub: string, i: nat) {
    i + |sub| <= |s| && s[i..i + |sub|] == sub
  }

  predicate Contains(s: string, sub: string) {
    exists i | 0 <= i <= |s| :: OccursAt(s, sub, i)
  }

  /** The position of the first occurrence of `sub`, or -1. */
  function Index(s: string, sub: string): (r: int)
    ensures r == -1 <==> !Contains(s, sub)
    ensures r != -1 ==> 0 <= r && OccursAt(s, sub, r) && forall j: nat | j < r :: !OccursAt(s, sub, j)
  {
    if OccursAt(s, sub, 0) then 0
    else if s == "" then -1
    else
      OccursShift(s, sub);
      var rest := Index(s[1..], sub);
      if rest == -1 then -1 else rest + 1
  }

  lemma OccursShift(s: string, sub: string)
    requires s != ""
    ensures forall j: nat :: OccursAt(s[1..], sub, j) == OccursAt(s, sub, j + 1)
    ensures forall j: nat | 0 < j :: OccursAt(s, sub, j) == OccursAt(s[1..], sub, j - 1)
    ensures Contains(s, sub) <==> OccursAt(s, sub, 0) || Contains(s[1..], sub)
  {
    forall j: nat ensures OccursAt(s[1..], sub, j) == OccursAt(s, sub, j + 1) {
      if j + 1 + |sub| <= |s| {
        assert s[1..][j..j + |sub|] == s[j + 1..j + 1 + |sub|];
      }
    }
    assert forall j: nat | 0 < j :: OccursAt(s, sub, j) == OccursAt(s[1..], sub, j - 1);
    if Contains(s[1..], sub) {
      var j :| 0 <= j <= |s| - 1 && OccursAt(s[1..], sub, j);
      assert OccursAt(s, sub, j + 1);
    }
  }

  function TrimPrefix(s: string, prefix: string): string {
    if prefix <= s then s[|prefix|..] else s
  }

  /** White space as `unicode.IsSpace` defines it. */
  predicate IsSpace(c: char) {
    c in {'\t', '\n', '\U{0B}', '\U{0C}', '\r', ' ', '\U{85}', '\U{A0}', '\U{1680}', '\U{2028}', '\U{2029}',
          '\U{202F}', '\U{205F}', '\U{3000}'} || '\U{2000}' <= c <= '\U{200A}'
  }

  function TrimLeft(s: string): (r: string)
    ensures r != "" ==> !IsSpace(r[0])
    ensures |r| <= |s| && r == s[|s| - |r|..]
  {
    if s != "" && IsSpace(s[0]) then TrimLeft(s[1..]) else s
  }

  function TrimRight(s: string): (r: string)
    ensures r != "" ==> !IsSpace(r[|r| - 1])
    ensures r <= s
  {
    if s != "" && IsSpace(s[|s| - 1]) then TrimRight(s[..|s| - 1]) else s
  }

  function TrimSpace(s: string): (r: string)
    ensures r != "" ==> !IsSpace(r[0]) && !IsSpace(r[|r| - 1])
  {
    TrimRight(TrimLeft(s))
  }

  lemma TrimmedAlready(s: string)
    requires s != "" && !IsSpace(s[0]) && !IsSpace(s[|s| - 1])
    ensures TrimSpace(s) == s
  {
  }

  /** White space, as Unicode lists it. */
  ghost predicate AllSpace(s: string) {
    forall c | c in s :: IsSpace(c)
  }

  /** Trimming takes the white space off both ends and nothing else. */
  lemma TrimsSpace(s: string)
    ensures exists left, right :: s == left + TrimSpace(s) + right && AllSpace(left) && AllSpace(right)
    ensures TrimSpace(s) != "" ==> !IsSpace(TrimSpace(s)[0]) && !IsSpace(TrimSpace(s)[|TrimSpace(s)| - 1])
  {
    LeftTrimmed(s);
    RightTrimmed(TrimLeft(s));
    hide IsSpace, AllSpace, TrimLeft, TrimRight;
    var left :| s == left + TrimLeft(s) && AllSpace(left);
    var right :| TrimLeft(s) == TrimRight(TrimLeft(s)) + right && AllSpace(right);
    Joined(s, left, TrimLeft(s), TrimSpace(s), right);
  }

  lemma Joined(s: string, left: string, rest: string, middle: string, right: string)
    requires s == left + rest && rest == middle + right
    ensures s == left + middle + right
  {
  }

  lemma {:induction false} LeftTrimmed(s: string)
    ensures exists left :: s == left + TrimLeft(s) && AllSpace(left)
  {
    hide IsSpace;
    if s != "" && IsSpace(s[0]) {
      LeftTrimmed(s[1..]);
      var left :| s[1..] == left + TrimLeft(s[1..]) && AllSpace(left);
      assert s == ([s[0]] + left) + TrimLeft(s) && AllSpace([s[0]] + left);
    } else {
      assert s == "" + TrimLeft(s) && AllSpace("");
    }
  }

  lemma {:induction false} RightTrimmed(s: string)
    ensures exists right :: s == TrimRight(s) + right && AllSpace(right)
  {
    hide IsSpace;
    if s != "" && IsSpace(s[|s| - 1]) {
      var init, last := s[..|s| - 1], s[|s| - 1];
      RightTrimmed(init);
      var right :| init == TrimRight(init) + right && AllSpace(right);
      assert s == TrimRight(s) + (right + [last]) && AllSpace(right + [last]);
    } else {
      assert s == TrimRight(s) + "" && AllSpace("");
    }
  }

  function LowerChar(c: char): char {
    if 'A' <= c <= 'Z' then (c as int + 32) as char else c
  }

  /** Lower-casing, on ASCII letters. */
  function ToLower(s: string): (r: string)
    ensures |r| == |s|
  {
    seq(|s|, i requires 0 <= i < |s| => LowerChar(s[i]))
  }

  lemma PrefixCancels(prefix: string, a: string, b: string)
    requires prefix + a == prefix + b
    ensures a == b
  {
    assert a == (prefix + a)[|prefix|..] && b == (prefix + b)[|prefix|..];
  }

  /** A separator that does not occur in the right-hand parts splits a string in one way only. */
  lemma SeparatorSplits(a: string, b: string, x: string, y: string, sep: char)
    requires a + [sep] + x == b + [sep] + y
    requires sep !in x && sep !in y
    ensures a == b && x == y
  {
    var s, t := a + [sep] + x, b + [sep] + y;
    assert s[|a|] == sep && t[|b|] == sep;
    assert forall i | |a| < i < |s| :: s[i] in x;
    assert forall i | |b| < i < |t| :: t[i] in y;
    assert |a| == |b|;
    assert a == s[..|a|] && b == t[..|b|] && x == s[|a| + 1..] && y == t[|b| + 1..];
  }

  /**
   * Looking for ":port" inside a "host:listed" key answers whether the port is a
   * PREFIX of the listed one, not whether the two are equal.
   */
  lemma ContainsPortMeansPrefix(host: string, listed: string, port: string)
    requires ':' !in host && ':' !in listed && ':' !in port
    ensures Contains(host + ":" + listed, ":" + port) <==> port <= listed
  {
    var s, sub := host + ":" + listed, ":" + port;
    if port <= listed {
      assert s[|host|..|host| + |sub|] == sub;
      assert OccursAt(s, sub, |host|);
    }
    if Contains(s, sub) {
      var i :| 0 <= i <= |s| && OccursAt(s, sub, i);
      assert s[i] == s[i..i + |sub|][0] == ':';
      assert s == host + [':'] + listed;
      assert i == |host|;
      assert s[i..i + |sub|][1..] == listed[..|port|];
    }
  }

  lemma {:induction false} TrimRightAppends(prefix: string, s: string)
    requires prefix != "" && !IsSpace(prefix[|prefix| - 1])
    ensures TrimRight(prefix + s) == prefix + TrimRight(s)
  {
    hide IsSpace;
    var t := prefix + s;
    if s == "" {
      assert t == prefix;
    } else {
      assert t[..|t| - 1] == prefix + s[..|s| - 1];
      TrimRightAppends(prefix, s[..|s| - 1]);
    }
  }

  lemma LowerAppends(a: string, b: string)
    ensures ToLower(a + b) == ToLower(a) + ToLower(b)
  {
  }

  /** Trimming on the left as well changes nothing exactly when it removes no character. */
  lemma TrimsCommute(s: string)
    ensures |TrimSpace(s)| <= |TrimRight(s)|
    ensures |TrimSpace(s)| == |TrimRight(s)| ==> TrimSpace(s) == TrimRight(s)
  {
    if s != "" && IsSpace(s[0]) {
      TrimsCommute(s[1..]);
      TrimRightTail(s);
    }
  }

  lemma TrimRightTail(s: string)
    requires s != ""
    ensures TrimRight(s) == "" ==> TrimRight(s[1..]) == ""
    ensures TrimRight(s) != "" ==> TrimRight(s) == [s[0]] + TrimRight(s[1..])
  {
    var n, tail := |s|, s[1..];
    if n == 1 {
      assert TrimRight(s[..0]) == "";
      assert s == [s[0]] + tail;
    } else {
      assert tail[|tail| - 1] == s[n - 1];
      assert s[..n - 1][1..] == tail[..n - 2];
      if IsSpace(s[n - 1]) {
        TrimRightTail(s[..n - 1]);
      } else {
        assert s == [s[0]] + tail;
      }
    }
  }

  function Split(s: string, sep: char): (r: seq<string>)
    ensures |r| > 0
    ensures forall part | part in r :: sep !in part
  {
    if s == "" then [""]
    else
      var init, last := Split(s[..|s| - 1], sep), s[|s| - 1];
      if last == sep then init + [""]
      else
        assert init[|init| - 1] in init;
        init[..|init| - 1] + [init[|init| - 1] + [last]]
  }

  function Join(parts: seq<string>, sep: char): string
    requires |parts| > 0
  {
    if |parts| == 1 then parts[0] else Join(parts[..|parts| - 1], sep) + [sep] + parts[|parts| - 1]
  }

  lemma {:induction false} SplitPlain(s: string, sep: char)
    requires sep !in s
    ensures Split(s, sep) == [s]
  {
    if s != "" {
      SplitPlain(s[..|s| - 1], sep);
      assert s == s[..|s| - 1] + [s[|s| - 1]];
    }
  }

  lemma {:induction false} SplitAppend(a: string, sep: char, b: string)
    requires sep !in b
    ensures Split(a + [sep] + b, sep) == Split(a, sep) + [b]
  {
    var s := a + [sep] + b;
    if b == "" {
      assert s[..|s| - 1] == a;
    } else {
      var c := b[..|b| - 1];
      assert s[..|s| - 1] == a + [sep] + c && s[|s| - 1] == b[|b| - 1];
      SplitAppend(a, sep, c);
      assert b == c + [b[|b| - 1]];
    }
  }

  lemma {:induction false} SplitJoin(parts: seq<string>, sep: char)
    requires |parts| > 0 && forall part | part in parts :: sep !in part
    ensures Split(Join(parts, sep), sep) == parts
  {
    var n := |parts|;
    if n == 1 {
      SplitPlain(parts[0], sep);
    } else {
      SplitJoin(parts[..n - 1], sep);
      SplitAppend(Join(parts[..n - 1], sep), sep, parts[n - 1]);
      assert parts == parts[..n - 1] + [parts[n - 1]];
    }
  }

  lemma {:induction false} JoinSplit(s: string, sep: char)
    ensures Join(Split(s, sep), sep) == s
  {
    if s != "" {
      var init, last := Split(s[..|s| - 1], sep), s[|s| - 1];
      JoinSplit(s[..|s| - 1], sep);
      assert s == s[..|s| - 1] + [last];
      if last == sep {
        JoinMore(init, "", sep);
      } else {
        JoinLonger(init, [last], sep);
      }
    }
  }

  lemma JoinMore(parts: seq<string>, part: string, sep: char)
    requires |parts| > 0
    ensures Join(parts + [part], sep) == Join(parts, sep) + [sep] + part
  {
    assert (parts + [part])[..|parts|] == parts;
  }

  lemma JoinLonger(parts: seq<string>, more: string, sep: char)
    requires |parts| > 0
    ensures Join(parts[..|parts| - 1] + [parts[|parts| - 1] + more], sep) == Join(parts, sep) + more
  {
    var init := parts[..|parts| - 1];
    if init != [] {
      JoinMore(init, parts[|parts| - 1] + more, sep);
    }
  }

  function CutBefore(s: string, c: char): (r: string)
    ensures c !in r && r <= s
    ensures c !in s ==> r == s
    ensures c in s ==> |r| < |s| && s[|r|] == c
  {
    if s == "" || s[0] == c then ""
    else
      assert s == [s[0]] + s[1..];
      [s[0]] + CutBefore(s[1..], c)
  }
}
