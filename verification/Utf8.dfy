/** UTF-8 text (section 3 of RFC 3629) and the byte-limited shortening of tool descriptions. */
module Utf8 {
  import opened Json

  function Encode(c: char): seq<byte> {
    var n := c as int;
    if n < 0x80 then [n]
    else if n < 0x800 then [0xC0 + n / 0x40, 0x80 + n % 0x40]
    else if n < 0x1_0000 then [0xE0 + n / 0x1000, 0x80 + n / 0x40 % 0x40, 0x80 + n % 0x40]
    else [0xF0 + n / 0x4_0000, 0x80 + n / 0x1000 % 0x40, 0x80 + n / 0x40 % 0x40, 0x80 + n % 0x40]
  }

  /** The character a sequence of one to four bytes stands for, by the table of RFC 3629. */
  function CodePoint(b: seq<byte>): int {
    var x: seq<int> := seq(|b|, i requires 0 <= i < |b| => b[i] as int);
    if |x| == 1 then x[0]
    else if |x| == 2 then (x[0] - 0xC0) * 0x40 + (x[1] - 0x80)
    else if |x| == 3 then (x[0] - 0xE0) * 0x1000 + (x[1] - 0x80) * 0x40 + (x[2] - 0x80)
    else if |x| == 4 then (x[0] - 0xF0) * 0x4_0000 + (x[1] - 0x80) * 0x1000 + (x[2] - 0x80) * 0x40 + (x[3] - 0x80)
    else -1
  }

  /** The six-bit digits of a number. */
  lemma Digits(n: nat)
    ensures n == n / 0x40 * 0x40 + n % 0x40
    ensures n == n / 0x1000 * 0x1000 + n / 0x40 % 0x40 * 0x40 + n % 0x40
    ensures n == n / 0x4_0000 * 0x4_0000 + n / 0x1000 % 0x40 * 0x1000 + n / 0x40 % 0x40 * 0x40 + n % 0x40
  {
    var q := n / 0x40;
    var r := q / 0x40;
    assert r == n / 0x1000 && r / 0x40 == n / 0x4_0000;
    assert q == r * 0x40 + q % 0x40 && r == r / 0x40 * 0x40 + r % 0x40;
  }

  /** Encoding is by that table: the bytes stand for the character, in the shortest form. */
  lemma EncodeByTable(c: char)
    ensures CodePoint(Encode(c)) == c as int
    ensures |Encode(c)| == if c as int < 0x80 then 1 else if c as int < 0x800 then 2 else if c as int < 0x1_0000 then 3 else 4
  {
    Digits(c as int);
  }

  function Bytes(s: string): seq<byte> {
    if s == [] then [] else Encode(s[0]) + Bytes(s[1..])
  }

  predicate IsContinuation(b: byte) {
    0x80 <= b < 0xC0
  }

  predicate IsCharBoundary(b: seq<byte>, i: nat) {
    i == 0 || i == |b| || (i < |b| && !IsContinuation(b[i]))
  }

  /** Largest index not above `max` that is a character boundary. */
  ghost predicate IsFloor(b: seq<byte>, max: nat, i: nat) {
    && i <= max && i <= |b| && IsCharBoundary(b, i)
    && (forall j :: i < j <= max && j <= |b| ==> !IsCharBoundary(b, j))
  }

  method FloorCharBoundary(b: seq<byte>, max: nat) returns (i: nat)
    ensures IsFloor(b, max, i)
  {
    if max >= |b| {
      return |b|;
    }
    i := max;
    while i > 0 && !IsCharBoundary(b, i)
      invariant i <= max < |b|
      invariant forall j :: i < j <= max ==> !IsCharBoundary(b, j)
    {
      i := i - 1;
    }
  }

  /** How many whole characters of `s` fit in `max` bytes. */
  function WholeChars(s: string, max: nat): (n: nat)
    ensures n <= |s|
  {
    if s == [] || |Encode(s[0])| > max then 0 else 1 + WholeChars(s[1..], max - |Encode(s[0])|)
  }

  lemma EncodeShape(c: char)
    ensures 1 <= |Encode(c)| <= 4 && !IsContinuation(Encode(c)[0])
    ensures forall j :: 1 <= j < |Encode(c)| ==> IsContinuation(Encode(c)[j])
  {
  }

  lemma {:induction false} BytesConcat(p: string, q: string)
    ensures Bytes(p + q) == Bytes(p) + Bytes(q)
  {
    if p == [] {
      assert p + q == q;
    } else {
      BytesConcat(p[1..], q);
      assert (p + q)[1..] == p[1..] + q;
      assert Encode(p[0]) + (Bytes(p[1..]) + Bytes(q)) == Encode(p[0]) + Bytes(p[1..]) + Bytes(q);
    }
  }

  lemma {:induction false} FirstByteIsLead(s: string)
    requires s != []
    ensures |Bytes(s)| > 0 && !IsContinuation(Bytes(s)[0])
  {
    EncodeShape(s[0]);
  }

  /** The boundaries of an encoding behind its first character are those of the rest. */
  lemma BoundaryBehind(e: seq<byte>, rest: seq<byte>, j: nat)
    requires |e| <= j <= |e| + |rest|
    ensures j > |e| || rest == [] ==> (IsCharBoundary(e + rest, j) <==> IsCharBoundary(rest, j - |e|))
    ensures rest != [] && !IsContinuation(rest[0]) ==> (IsCharBoundary(e + rest, j) <==> IsCharBoundary(rest, j - |e|))
  {
    if j < |e| + |rest| { assert (e + rest)[j] == rest[j - |e|]; }
  }

  /** A floor behind the first character is a floor of the rest. */
  lemma FloorBehind(e: seq<byte>, rest: seq<byte>, max: nat, i: nat)
    requires IsFloor(e + rest, max, i) && |e| <= max && (rest != [] ==> !IsContinuation(rest[0]))
    ensures i >= |e| && IsFloor(rest, max - |e|, i - |e|)
  {
    var b := e + rest;
    BoundaryBehind(e, rest, |e|);
    assert IsCharBoundary(rest, 0);
    assert i >= |e|;
    BoundaryBehind(e, rest, i);
    forall j: nat | i - |e| < j <= max - |e| && j <= |rest| ensures !IsCharBoundary(rest, j) {
      assert !IsCharBoundary(b, j + |e|);
      BoundaryBehind(e, rest, j + |e|);
    }
  }

  /** Nothing fits when the first character does not. */
  lemma FloorBefore(c: char, rest: seq<byte>, max: nat, i: nat)
    requires IsFloor(Encode(c) + rest, max, i) && |Encode(c)| > max
    ensures i == 0
  {
    var e := Encode(c);
    EncodeShape(c);
    assert forall j :: 1 <= j <= max ==> (e + rest)[j] == e[j];
  }

  /** The byte-level floor of an encoded string ends exactly after the characters that fit. */
  lemma {:induction false} FloorIsWholeChars(s: string, max: nat, i: nat)
    requires IsFloor(Bytes(s), max, i)
    ensures i == |Bytes(s[..WholeChars(s, max)])|
  {
    if s != [] {
      var e, t := Encode(s[0]), s[1..];
      if |e| > max {
        FloorBefore(s[0], Bytes(t), max, i);
        assert s[..0] == [];
      } else {
        if t != [] { FirstByteIsLead(t); }
        FloorBehind(e, Bytes(t), max, i);
        FloorIsWholeChars(t, max - |e|, i - |e|);
        var w := WholeChars(t, max - |e|);
        assert s[..w + 1][1..] == t[..w];
      }
    }
  }

  // ----- Slimming -----

  const MAX_DESCRIPTION_LEN := 500
  const ELLIPSIS := "\U{2026}"

  function Slim(s: string): string {
    if |Bytes(s)| > MAX_DESCRIPTION_LEN then s[..WholeChars(s, MAX_DESCRIPTION_LEN)] + ELLIPSIS else s
  }

  /** The byte-level code computes the encoding of the slimmed text. */
  method SlimBytes(b: seq<byte>, ghost s: string) returns (r: seq<byte>)
    requires b == Bytes(s)
    ensures r == Bytes(Slim(s))
  {
    r := b;
    if |b| > MAX_DESCRIPTION_LEN {
      var cut := FloorCharBoundary(b, MAX_DESCRIPTION_LEN);
      r := b[..cut] + [0xE2, 0x80, 0xA6];
      FloorIsWholeChars(s, MAX_DESCRIPTION_LEN, cut);
      var p := s[..WholeChars(s, MAX_DESCRIPTION_LEN)];
      assert s == p + s[|p|..];
      BytesConcat(p, s[|p|..]);
      BytesConcat(p, ELLIPSIS);
      EllipsisBytes();
    }
  }

  lemma EllipsisBytes()
    ensures Bytes(ELLIPSIS) == [0xE2, 0x80, 0xA6]
  {
    assert Encode(ELLIPSIS[0]) == [0xE2, 0x80, 0xA6];
    assert ELLIPSIS[1..] == [];
  }

  lemma {:induction false} WholeCharsFit(s: string, max: nat)
    ensures |Bytes(s[..WholeChars(s, max)])| <= max
    ensures WholeChars(s, max) < |s| ==> |Bytes(s[..WholeChars(s, max)])| + 4 > max
    ensures WholeChars(s, max) == |s| <==> |Bytes(s)| <= max
  {
    if s == [] {
      assert s[..0] == [];
    } else {
      EncodeShape(s[0]);
      if |Encode(s[0])| <= max {
        var w := WholeChars(s[1..], max - |Encode(s[0])|);
        WholeCharsFit(s[1..], max - |Encode(s[0])|);
        assert s[..w + 1][1..] == s[1..][..w];
      } else {
        assert s[..0] == [];
      }
    }
  }

  lemma WholeCharsStep(s: string, max: nat, n: nat)
    requires s != [] && n == |Encode(s[0])| <= max
    ensures WholeChars(s, max) == 1 + WholeChars(s[1..], max - n) && |Bytes(s)| == n + |Bytes(s[1..])|
  {
  }

  lemma {:induction false} WholeCharsConcat(p: string, q: string, max: nat)
    requires |Bytes(p)| <= max
    ensures WholeChars(p + q, max) == |p| + WholeChars(q, max - |Bytes(p)|)
    decreases |p|
  {
    if p == [] {
      assert p + q == q;
    } else {
      var n := |Encode(p[0])|;
      WholeCharsStep(p, max, n);
      assert (p + q)[0] == p[0] && (p + q)[1..] == p[1..] + q;
      WholeCharsStep(p + q, max, n);
      WholeCharsConcat(p[1..], q, max - n);
    }
  }

  /** What slimming does to a long description: it cuts at a character boundary 497 to 500 bytes in
      and appends a 3-byte ellipsis, giving 500 to 503 bytes. Short ones are left alone. */
  lemma SlimShape(s: string)
    ensures |Bytes(s)| <= 500 ==> Slim(s) == s
    ensures |Bytes(s)| > 500 ==>
      exists w :: 0 <= w <= |s| && Slim(s) == s[..w] + ELLIPSIS && 497 <= |Bytes(s[..w])| <= 500
                  && IsFloor(Bytes(s), 500, |Bytes(s[..w])|) && 500 <= |Bytes(Slim(s))| <= 503
  {
    if |Bytes(s)| > 500 {
      var w := WholeChars(s, 500);
      WholeCharsFit(s, 500);
      BytesConcat(s[..w], ELLIPSIS);
      EllipsisBytes();
      var i := FloorOf(Bytes(s), 500);
      FloorIsWholeChars(s, 500, i);
    }
  }

  ghost function FloorOf(b: seq<byte>, max: nat): (i: nat)
    ensures IsFloor(b, max, i)
  {
    if max >= |b| then |b| else if IsCharBoundary(b, max) then max else FloorOf(b, max - 1)
  }

  /** Slimming twice is slimming once. */
  lemma SlimIdempotent(s: string)
    ensures Slim(Slim(s)) == Slim(s)
  {
    if |Bytes(s)| > 500 {
      var p := s[..WholeChars(s, 500)];
      WholeCharsFit(s, 500);
      BytesConcat(p, ELLIPSIS);
      EllipsisBytes();
      WholeCharsConcat(p, ELLIPSIS, 500);
      assert (p + ELLIPSIS)[..|p|] == p;
      assert |Encode(ELLIPSIS[0])| == 3;
    }
  }
}
