/** UTF-8 well-formedness as `utf8.ValidString` decides it, against sections 3 and 4 of RFC 3629. */
module Utf8 {

  newtype byte = x: int | 0 <= x < 256

  predicate IsTail(b: byte) {
    0x80 <= b <= 0xBF
  }

  /** The length of the encoded character `s` starts with, 0 if it starts with none (section 4). */
  function CharLen(s: seq<byte>): (r: nat)
    ensures r <= 4 && r <= |s|
  {
    if s == [] then 0
    else if s[0] < 0x80 then 1
    else if 0xC2 <= s[0] <= 0xDF && |s| >= 2 && IsTail(s[1]) then 2
    else if 0xE0 <= s[0] <= 0xEF && |s| >= 3 && IsTail(s[1]) && IsTail(s[2])
            && (s[0] == 0xE0 ==> s[1] >= 0xA0) && (s[0] == 0xED ==> s[1] <= 0x9F) then 3
    else if 0xF0 <= s[0] <= 0xF4 && |s| >= 4 && IsTail(s[1]) && IsTail(s[2]) && IsTail(s[3])
            && (s[0] == 0xF0 ==> s[1] >= 0x90) && (s[0] == 0xF4 ==> s[1] <= 0x8F) then 4
    else 0
  }

  predicate ValidString(s: seq<byte>)
    decreases |s|
  {
    s == [] || (CharLen(s) > 0 && ValidString(s[CharLen(s)..]))
  }

  // ---- the encoding the check is about ----

  /** Characters that have an encoding: no surrogates, nothing above U+10FFFF. */
  predicate IsScalar(c: int) {
    0 <= c < 0xD800 || 0xE000 <= c <= 0x10FFFF
  }

  /** The encoding of one character (section 3). */
  function Encode(c: int): (r: seq<byte>)
    requires IsScalar(c)
    ensures 1 <= |r| <= 4
  {
    if c < 0x80 then [c as byte]
    else if c < 0x800 then [(0xC0 + c / 64) as byte, Tail(c)]
    else if c < 0x10000 then [(0xE0 + c / 4096) as byte, Tail(c / 64), Tail(c)]
    else [(0xF0 + c / 262144) as byte, Tail(c / 4096), Tail(c / 64), Tail(c)]
  }

  function Tail(c: nat): byte {
    (0x80 + c % 64) as byte
  }

  function Low(b: byte): int {
    b as int % 64
  }

  function Decode(s: seq<byte>): int
    requires CharLen(s) > 0
  {
    var n := CharLen(s);
    if n == 1 then s[0] as int
    else if n == 2 then (s[0] as int - 0xC0) * 64 + Low(s[1])
    else if n == 3 then ((s[0] as int - 0xE0) * 64 + Low(s[1])) * 64 + Low(s[2])
    else (((s[0] as int - 0xF0) * 64 + Low(s[1])) * 64 + Low(s[2])) * 64 + Low(s[3])
  }

  lemma Digits(high: nat, low: nat)
    requires low < 64
    ensures (high * 64 + low) / 64 == high && (high * 64 + low) % 64 == low
  {
  }

  lemma TailOfLow(b: byte)
    requires IsTail(b)
    ensures Tail(Low(b)) == b && forall high: nat :: Tail(high * 64 + Low(b)) == b
  {
    forall high: nat ensures Tail(high * 64 + Low(b)) == b {
      Digits(high, Low(b));
    }
  }

  /** What is recognized at the front of a string is exactly the encoding of a character. */
  lemma RecognizedIsEncoded(s: seq<byte>)
    requires CharLen(s) > 0
    ensures IsScalar(Decode(s)) && Encode(Decode(s)) == s[..CharLen(s)]
  {
    match CharLen(s)
    case 2 => RecognizedTwo(s);
    case 3 => RecognizedThree(s);
    case 4 => RecognizedFour(s);
    case _ =>
  }

  lemma RecognizedTwo(s: seq<byte>)
    requires CharLen(s) == 2
    ensures IsScalar(Decode(s)) && Encode(Decode(s)) == s[..2]
  {
    var a, b := s[0] as int - 0xC0, Low(s[1]);
    Digits(a, b);
    TailOfLow(s[1]);
    assert s[..2] == [s[0], s[1]];
  }

  lemma RecognizedThree(s: seq<byte>)
    requires CharLen(s) == 3
    ensures IsScalar(Decode(s)) && Encode(Decode(s)) == s[..3]
  {
    var a, b, c := s[0] as int - 0xE0, Low(s[1]), Low(s[2]);
    Digits(a, b);
    Digits(a * 64 + b, c);
    TailOfLow(s[1]);
    TailOfLow(s[2]);
    var x := Decode(s);
    assert x == (a * 64 + b) * 64 + c;
    assert 0x800 <= x < 0x10000 && IsScalar(x);
    assert x / 4096 == a;
    assert Tail(x / 64) == s[1] && Tail(x) == s[2];
    assert s[..3] == [s[0], s[1], s[2]];
  }

  lemma RecognizedFour(s: seq<byte>)
    requires CharLen(s) == 4
    ensures IsScalar(Decode(s)) && Encode(Decode(s)) == s[..4]
  {
    FourBytes(s[0], s[1], s[2], s[3]);
    assert s[..4] == [s[0], s[1], s[2], s[3]];
    hide IsScalar, Encode;
  }

  lemma FourBytes(b0: byte, b1: byte, b2: byte, b3: byte)
    requires 0xF0 <= b0 <= 0xF4 && IsTail(b1) && IsTail(b2) && IsTail(b3)
    requires (b0 == 0xF0 ==> b1 >= 0x90) && (b0 == 0xF4 ==> b1 <= 0x8F)
    ensures var x := (((b0 as int - 0xF0) * 64 + Low(b1)) * 64 + Low(b2)) * 64 + Low(b3);
            IsScalar(x) && Encode(x) == [b0, b1, b2, b3]
  {
    var a, b, c, d := b0 as int - 0xF0, Low(b1), Low(b2), Low(b3);
    var x := ((a * 64 + b) * 64 + c) * 64 + d;
    LowOfByte(b1);
    LowOfByte(b2);
    LowOfByte(b3);
    hide Low, Tail, IsScalar, Encode;
    FourDigits(a, b, c, d);
    TailAt(a, b1);
    TailAt(a * 64 + b, b2);
    TailAt((a * 64 + b) * 64 + c, b3);
    EncodeFourBytes(x, b0, b1, b2, b3);
  }

  lemma TailAt(high: nat, b: byte)
    requires IsTail(b)
    ensures Tail(high * 64 + Low(b)) == b
  {
    Digits(high, Low(b));
  }

  lemma LowOfByte(b: byte)
    requires IsTail(b)
    ensures Low(b) == b as int - 0x80
  {
  }

  lemma EncodeFourBytes(x: int, b0: byte, b1: byte, b2: byte, b3: byte)
    requires 0x10000 <= x <= 0x10FFFF
    requires x / 262144 == b0 as int - 0xF0 && Tail(x / 4096) == b1 && Tail(x / 64) == b2 && Tail(x) == b3
    ensures IsScalar(x) && Encode(x) == [b0, b1, b2, b3]
  {
  }

  lemma FourDigits(a: nat, b: nat, c: nat, d: nat)
    requires b < 64 && c < 64 && d < 64
    requires (a == 0 ==> b >= 16) && a <= 4 && (a == 4 ==> b <= 15)
    ensures var x := ((a * 64 + b) * 64 + c) * 64 + d;
            && 0x10000 <= x <= 0x10FFFF
            && x / 64 == (a * 64 + b) * 64 + c && x / 4096 == a * 64 + b && x / 262144 == a
  {
    Digits(a, b);
    Digits(a * 64 + b, c);
    Digits((a * 64 + b) * 64 + c, d);
  }

  /** And the encoding of every character is recognized, whatever follows it. */
  lemma EncodedIsRecognized(c: int, rest: seq<byte>)
    requires IsScalar(c)
    ensures CharLen(Encode(c) + rest) == |Encode(c)| && Decode(Encode(c) + rest) == c
  {
    if c < 0x80 {
    } else if c < 0x800 {
      EncodedTwo(c, rest);
    } else if c < 0x10000 {
      EncodedThree(c, rest);
    } else {
      EncodedFour(c, rest);
    }
  }

  lemma LowOfTail(x: nat)
    ensures IsTail(Tail(x)) && Low(Tail(x)) == x % 64 && x == (x / 64) * 64 + Low(Tail(x))
  {
  }

  lemma EncodedTwo(c: int, rest: seq<byte>)
    requires 0x80 <= c < 0x800
    ensures CharLen(Encode(c) + rest) == 2 && Decode(Encode(c) + rest) == c
  {
    var s := Encode(c) + rest;
    LowOfTail(c);
    assert s[0] == (0xC0 + c / 64) as byte && s[1] == Tail(c);
  }

  lemma EncodedThree(c: int, rest: seq<byte>)
    requires 0x800 <= c < 0x10000 && IsScalar(c)
    ensures CharLen(Encode(c) + rest) == 3 && Decode(Encode(c) + rest) == c
  {
    var s := Encode(c) + rest;
    LowOfTail(c);
    LowOfTail(c / 64);
    assert c / 64 / 64 == c / 4096;
    assert s[0] == (0xE0 + c / 4096) as byte && s[1] == Tail(c / 64) && s[2] == Tail(c);
  }

  lemma EncodedFour(c: int, rest: seq<byte>)
    requires 0x10000 <= c <= 0x10FFFF
    ensures CharLen(Encode(c) + rest) == 4 && Decode(Encode(c) + rest) == c
  {
    var s := Encode(c) + rest;
    LowOfTail(c);
    LowOfTail(c / 64);
    LowOfTail(c / 4096);
    assert c / 64 / 64 == c / 4096 && c / 4096 / 64 == c / 262144;
    assert s[0] == (0xF0 + c / 262144) as byte;
    assert s[1] == Tail(c / 4096) && s[2] == Tail(c / 64) && s[3] == Tail(c);
  }

  function EncodeAll(cs: seq<int>): seq<byte>
    requires forall c | c in cs :: IsScalar(c)
  {
    if cs == [] then [] else Encode(cs[0]) + EncodeAll(cs[1..])
  }

  /** A string is valid exactly when it is the encoding of some characters. */
  lemma {:induction false} ValidIsEncoded(s: seq<byte>) returns (cs: seq<int>)
    requires ValidString(s)
    ensures (forall c | c in cs :: IsScalar(c)) && EncodeAll(cs) == s
    decreases |s|
  {
    cs := [];
    if s != [] {
      var rest := ValidIsEncoded(s[CharLen(s)..]);
      RecognizedIsEncoded(s);
      cs := [Decode(s)] + rest;
      assert cs[1..] == rest;
    }
  }

  lemma {:induction false} EncodedIsValid(cs: seq<int>)
    requires forall c | c in cs :: IsScalar(c)
    ensures ValidString(EncodeAll(cs))
  {
    if cs != [] {
      EncodedIsValid(cs[1..]);
      EncodedIsRecognized(cs[0], EncodeAll(cs[1..]));
    }
  }

  // ---- cutting ----

  lemma CharLenOfPrefix(s: seq<byte>, k: nat)
    requires CharLen(s) <= k <= |s| && CharLen(s) > 0
    ensures CharLen(s[..k]) == CharLen(s)
  {
  }

  /** Cutting a valid string anywhere leaves a valid prefix after giving up at most three more bytes. */
  lemma {:induction false} CutLosesAtMostThree(s: seq<byte>, k: nat) returns (m: nat)
    requires ValidString(s) && k <= |s|
    ensures m <= k <= m + 3 && ValidString(s[..m])
    decreases |s|
  {
    var n := CharLen(s);
    if k < n || s == [] {
      m := 0;
    } else {
      var rest := CutLosesAtMostThree(s[n..], k - n);
      m := n + rest;
      CharLenOfPrefix(s, m);
      assert s[..m][n..] == s[n..][..rest];
    }
  }
}
