/** TextEncoder over UTF-16 text, and why well-formed text can be read back from its bytes. */
module Utf8 {
  import opened Common
  import opened Json

  type Bytes = seq<int>

  /** The bytes of one code point. */
  function Point(p: int): (b: Bytes)
    ensures 0 < |b| <= 4
  {
    if p < 0x80 then [p]
    else if p < 0x800 then [0xc0 + p / 0x40, 0x80 + p % 0x40]
    else if p < 0x10000 then [0xe0 + p / 0x1000, 0x80 + p / 0x40 % 0x40, 0x80 + p % 0x40]
    else [0xf0 + p / 0x40000, 0x80 + p / 0x1000 % 0x40, 0x80 + p / 0x40 % 0x40, 0x80 + p % 0x40]
  }

  predicate StartsWithPair(t: Text) {
    |t| > 1 && IsHigh(t[0]) && IsLow(t[1])
  }

  function PairPoint(high: CodeUnit, low: CodeUnit): int {
    0x10000 + (high - 0xd800) * 0x400 + (low - 0xdc00)
  }

  /** A lone surrogate becomes U+FFFD. */
  function UnitPoint(c: CodeUnit): int {
    if IsHigh(c) || IsLow(c) then 0xfffd else c
  }

  /** `new TextEncoder().encode(t)`. */
  function Encode(t: Text): Bytes {
    if t == [] then []
    else if StartsWithPair(t) then Point(PairPoint(t[0], t[1])) + Encode(t[2..])
    else Point(UnitPoint(t[0])) + Encode(t[1..])
  }

  /** No surrogate stands alone. */
  ghost predicate Paired(t: Text) {
    t == [] || if StartsWithPair(t) then Paired(t[2..]) else !IsHigh(t[0]) && !IsLow(t[0]) && Paired(t[1..])
  }

  /** The code point at the front of the bytes. */
  ghost function FirstPoint(b: Bytes): int
    requires |b| >= 4
  {
    if b[0] < 0x80 then b[0]
    else if b[0] < 0xe0 then (b[0] - 0xc0) * 0x40 + (b[1] - 0x80)
    else if b[0] < 0xf0 then (b[0] - 0xe0) * 0x1000 + (b[1] - 0x80) * 0x40 + (b[2] - 0x80)
    else (b[0] - 0xf0) * 0x40000 + (b[1] - 0x80) * 0x1000 + (b[2] - 0x80) * 0x40 + (b[3] - 0x80)
  }

  lemma PointReadsBack(p: int, rest: Bytes)
    requires 0 <= p < 0x110000 && |rest| >= 3
    ensures FirstPoint(Point(p) + rest) == p
  {
    if p >= 0x800 {
      assert p / 0x1000 == p / 0x40 / 0x40;
      if p >= 0x10000 {
        assert p / 0x40000 == p / 0x1000 / 0x40;
      }
    }
  }

  lemma PointIsUnique(p: int, q: int, x: Bytes, y: Bytes)
    requires 0 <= p < 0x110000 && 0 <= q < 0x110000 && Point(p) + x == Point(q) + y
    ensures p == q && x == y
  {
    hide Point;
    var pad := [0, 0, 0];
    assert (Point(p) + x) + pad == Point(p) + (x + pad);
    assert (Point(q) + y) + pad == Point(q) + (y + pad);
    PointReadsBack(p, x + pad);
    PointReadsBack(q, y + pad);
    assert (Point(p) + x)[|Point(p)|..] == x && (Point(q) + y)[|Point(q)|..] == y;
  }

  lemma PairIsUnique(a: CodeUnit, b: CodeUnit, c: CodeUnit, d: CodeUnit)
    requires IsHigh(a) && IsLow(b) && IsHigh(c) && IsLow(d) && PairPoint(a, b) == PairPoint(c, d)
    ensures a == c && b == d
  {
  }

  lemma FrontOfAppend(a: Text, b: Text)
    requires a != [] && Paired(a)
    ensures StartsWithPair(a) == StartsWithPair(a + b) && (a + b)[0] == a[0]
    ensures StartsWithPair(a) ==> (a + b)[1] == a[1] && (a + b)[2..] == a[2..] + b
    ensures !StartsWithPair(a) ==> (a + b)[1..] == a[1..] + b
  {
  }

  lemma {:induction false} EncodeAppends(a: Text, b: Text)
    requires Paired(a)
    ensures Encode(a + b) == Encode(a) + Encode(b)
  {
    hide Point;
    if a == [] {
      assert a + b == b;
    } else {
      FrontOfAppend(a, b);
      if StartsWithPair(a) {
        EncodeAppends(a[2..], b);
        Associative(Point(PairPoint(a[0], a[1])), Encode(a[2..]), Encode(b));
      } else {
        EncodeAppends(a[1..], b);
        Associative(Point(UnitPoint(a[0])), Encode(a[1..]), Encode(b));
      }
    }
  }

  /** The same for any text, when what follows does not begin with the second half of a pair. */
  lemma {:induction false} EncodeAppendsAny(a: Text, b: Text)
    requires b == [] || !IsLow(b[0])
    ensures Encode(a + b) == Encode(a) + Encode(b)
  {
    hide Point;
    if a == [] {
      assert a + b == b;
    } else {
      assert StartsWithPair(a) == StartsWithPair(a + b) && (a + b)[0] == a[0];
      if StartsWithPair(a) {
        assert (a + b)[1] == a[1] && (a + b)[2..] == a[2..] + b;
        EncodeAppendsAny(a[2..], b);
        Associative(Point(PairPoint(a[0], a[1])), Encode(a[2..]), Encode(b));
      } else {
        assert (a + b)[1..] == a[1..] + b;
        EncodeAppendsAny(a[1..], b);
        Associative(Point(UnitPoint(a[0])), Encode(a[1..]), Encode(b));
      }
    }
  }

  /** Well-formed text is determined by its bytes. */
  lemma {:induction false} EncodeIsInjective(a: Text, b: Text)
    requires Paired(a) && Paired(b) && Encode(a) == Encode(b)
    ensures a == b
  {
    hide Point;
    if a != [] && b != [] {
      var m, n := if StartsWithPair(a) then 2 else 1, if StartsWithPair(b) then 2 else 1;
      var p := if m == 2 then PairPoint(a[0], a[1]) else a[0];
      var q := if n == 2 then PairPoint(b[0], b[1]) else b[0];
      PointIsUnique(p, q, Encode(a[m..]), Encode(b[n..]));
      EncodeIsInjective(a[m..], b[n..]);
      if m == 2 { PairIsUnique(a[0], a[1], b[0], b[1]); }
      assert a == a[..m] + a[m..] && b == b[..n] + b[n..];
    }
  }

  lemma {:induction false} AsciiIsPaired(t: Text)
    requires forall i | 0 <= i < |t| :: t[i] < 0x80
    ensures Paired(t)
  {
    if t != [] {
      AsciiIsPaired(t[1..]);
    }
  }

  lemma {:induction false} PairedAppend(a: Text, b: Text)
    requires Paired(a) && Paired(b)
    ensures Paired(a + b)
  {
    if a == [] {
      assert a + b == b;
    } else {
      FrontOfAppend(a, b);
      PairedAppend(if StartsWithPair(a) then a[2..] else a[1..], b);
    }
  }

  lemma EscapedUnitIsPaired(c: CodeUnit)
    ensures Paired(EscapeUnit(c))
  {
    var e := EscapeUnit(c);
    if |e| == 1 {
      assert e[1..] == [];
    } else {
      assert forall n | 0 <= n < 16 :: HexDigit(n) < 0x80;
      AsciiIsPaired(e);
    }
  }

  /** JSON.stringify never writes half a surrogate pair. */
  lemma {:induction false} EscapedIsPaired(s: Text)
    ensures Paired(Escape(s))
  {
    hide EscapeUnit;
    if s != [] {
      if IsHigh(s[0]) && |s| > 1 && IsLow(s[1]) {
        EscapedIsPaired(s[2..]);
        assert (s[..2] + Escape(s[2..]))[2..] == Escape(s[2..]);
      } else {
        EscapedIsPaired(s[1..]);
        EscapedUnitIsPaired(s[0]);
        PairedAppend(EscapeUnit(s[0]), Escape(s[1..]));
      }
    }
  }

  lemma QuotedIsPaired(s: Text)
    ensures Paired(Quote(s))
  {
    hide Escape, Paired;
    AsciiIsPaired([QUOTE]);
    EscapedIsPaired(s);
    PairedAppend([QUOTE], Escape(s));
    PairedAppend([QUOTE] + Escape(s), [QUOTE]);
  }

  /** Lone surrogates replaced as the encoder replaces them. */
  function Scrub(t: Text): Text {
    if t == [] then []
    else if StartsWithPair(t) then t[..2] + Scrub(t[2..])
    else [UnitPoint(t[0])] + Scrub(t[1..])
  }

  lemma {:induction false} ScrubKeepsBytes(t: Text)
    ensures Encode(Scrub(t)) == Encode(t) && Paired(Scrub(t))
  {
    hide Point;
    if t != [] {
      if StartsWithPair(t) {
        ScrubKeepsBytes(t[2..]);
        assert Scrub(t)[2..] == Scrub(t[2..]);
      } else {
        ScrubKeepsBytes(t[1..]);
        assert Scrub(t)[1..] == Scrub(t[1..]);
      }
    }
  }
}
