/** The caps on a captured log excerpt, applied in place. */
module LogCaps {
  import opened Utf8

  const MAX_LOG_LINES: nat := 40
  const MAX_LOG_BYTES: nat := 8192

  type Line = seq<byte>

  /** Each line costs its bytes and a line break. */
  function Cost(lines: seq<Line>): nat {
    if lines == [] then 0 else |lines[0]| + 1 + Cost(lines[1..])
  }

  predicate Fits(lines: seq<Line>) {
    |lines| <= 40 && Cost(lines) <= 8192
  }

  lemma CostAppend(a: seq<Line>, b: seq<Line>)
    ensures Cost(a + b) == Cost(a) + Cost(b)
  {
    if a == [] {
      assert a + b == b;
    } else {
      assert (a + b)[1..] == a[1..] + b;
      CostAppend(a[1..], b);
    }
  }

  lemma LongerSuffixCostsMore(lines: seq<Line>, i: nat, j: nat)
    requires i <= j <= |lines|
    ensures Cost(lines[j..]) <= Cost(lines[i..])
  {
    assert lines[i..] == lines[i..j] + lines[j..];
    CostAppend(lines[i..j], lines[j..]);
  }

  /** The longest prefix of at most `limit` bytes that is valid UTF-8. */
  ghost predicate LongestValidPrefix(line: Line, cut: Line, limit: nat) {
    && cut <= line && |cut| <= limit && ValidString(cut)
    && forall m: nat | |cut| < m <= limit && m <= |line| :: !ValidString(line[..m])
  }

  /** What capping may leave of `lines`: the longest suffix within both caps, or one cut line. */
  ghost predicate IsCapped(lines: seq<Line>, capped: seq<Line>) {
    if lines == [] || Fits(lines[|lines| - 1..]) then
      && |capped| <= |lines| && capped == lines[|lines| - |capped|..] && Fits(capped)
      && forall k: nat | k <= |lines| && Fits(lines[k..]) :: |lines| - k <= |capped|
    else
      |capped| == 1 && LongestValidPrefix(lines[|lines| - 1], capped[0], 8191)
  }

  /** Keeps lines[from..]; only a last line that is too long by itself is overwritten. */
  method CapLines(lines: array<Line>) returns (from: nat, total: nat)
    modifies lines
    ensures from <= lines.Length && IsCapped(old(lines[..]), lines[from..])
    ensures total == Cost(lines[from..]) <= 8192
    ensures forall i | 0 <= i < lines.Length - 1 :: lines[i] == old(lines[i])
  {
    ghost var all := lines[..];
    from := if lines.Length > MAX_LOG_LINES then lines.Length - MAX_LOG_LINES else 0;
    total := TotalFrom(lines, from);
    from, total := DropOldest(lines, from, total);
    assert lines[from..] == all[from..];
    if total > MAX_LOG_BYTES && lines.Length - from == 1 {
      var line := lines[from];
      assert all[from..] == [line];
      var cut := CutLine(line);
      lines[from] := cut;
      assert lines[from..] == [cut];
      total := |cut| + 1;
    } else {
      CappedSuffix(all, from);
    }
  }

  method TotalFrom(lines: array<Line>, from: nat) returns (total: nat)
    requires from <= lines.Length
    ensures total == Cost(lines[from..])
  {
    total := 0;
    for i := from to lines.Length
      invariant total == Cost(lines[from..i])
    {
      assert lines[from..i + 1] == lines[from..i] + [lines[i]];
      CostAppend(lines[from..i], [lines[i]]);
      total := total + |lines[i]| + 1;
    }
    assert lines[from..lines.Length] == lines[from..];
  }

  method DropOldest(lines: array<Line>, start: nat, cost: nat) returns (from: nat, total: nat)
    requires start <= lines.Length && cost == Cost(lines[start..])
    ensures start <= from <= lines.Length && total == Cost(lines[from..])
    ensures total <= MAX_LOG_BYTES || lines.Length - from <= 1
    ensures from > start ==> Cost(lines[from - 1..]) > MAX_LOG_BYTES
    ensures start < lines.Length ==> from < lines.Length
  {
    from, total := start, cost;
    while total > MAX_LOG_BYTES && lines.Length - from > 1
      invariant start <= from <= lines.Length && total == Cost(lines[from..])
      invariant from > start ==> Cost(lines[from - 1..]) > MAX_LOG_BYTES
      invariant start < lines.Length ==> from < lines.Length
    {
      assert lines[from..][1..] == lines[from + 1..];
      total := total - (|lines[from]| + 1);
      from := from + 1;
    }
  }

  method CutLine(line: Line) returns (cut: Line)
    requires |line| > MAX_LOG_BYTES - 1
    ensures LongestValidPrefix(line, cut, MAX_LOG_BYTES - 1)
    ensures ValidString(line) ==> |cut| >= MAX_LOG_BYTES - 4
  {
    var maxLineBytes := MAX_LOG_BYTES - 1;
    while maxLineBytes > 0 && !ValidString(line[..maxLineBytes])
      invariant 0 <= maxLineBytes <= MAX_LOG_BYTES - 1
      invariant forall m: nat | maxLineBytes < m <= MAX_LOG_BYTES - 1 :: !ValidString(line[..m])
    {
      maxLineBytes := maxLineBytes - 1;
    }
    cut := line[..maxLineBytes];
    if ValidString(line) {
      var m := CutLosesAtMostThree(line, MAX_LOG_BYTES - 1);
    }
  }

  lemma CappedSuffix(all: seq<Line>, from: nat)
    requires from <= |all|
    requires |all| - from <= MAX_LOG_LINES && Cost(all[from..]) <= MAX_LOG_BYTES
    requires |all| > 0 ==> from < |all|
    requires from > 0 ==> |all| - from == MAX_LOG_LINES || Cost(all[from - 1..]) > MAX_LOG_BYTES
    ensures IsCapped(all, all[from..])
  {
    if all != [] {
      LongerSuffixCostsMore(all, from, |all| - 1);
    }
    forall k: nat | k <= |all| && Fits(all[k..]) ensures from <= k {
      if k < from {
        LongerSuffixCostsMore(all, k, from - 1);
      }
    }
  }

  /** A line that was valid UTF-8 loses at most three bytes beyond the cap. */
  lemma ValidLineLosesAtMostThree(lines: seq<Line>, capped: seq<Line>)
    requires IsCapped(lines, capped) && lines != [] && !Fits(lines[|lines| - 1..])
    requires ValidString(lines[|lines| - 1])
    ensures |capped| == 1 && MAX_LOG_BYTES - 4 <= |capped[0]| <= MAX_LOG_BYTES - 1
  {
    var line := lines[|lines| - 1];
    assert lines[|lines| - 1..] == [line];
    assert Cost([line]) == |line| + 1;
    var m := CutLosesAtMostThree(line, MAX_LOG_BYTES - 1);
  }
}
