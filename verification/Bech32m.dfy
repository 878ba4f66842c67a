/**
 * The Bech32m (BIP 350) checksum over 5-bit words: a generated one verifies, and words that differ in one place do
 * not share one.
 */
module Bech32m {
  import opened Json

  function Charset(): (r: Text)
    ensures |r| == 32
  {
    [0x71, 0x70, 0x7a, 0x72, 0x79, 0x39, 0x78, 0x38, 0x67, 0x66, 0x32, 0x74, 0x76, 0x64, 0x77, 0x30,
     0x73, 0x33, 0x6a, 0x6e, 0x35, 0x34, 0x6b, 0x68, 0x63, 0x65, 0x36, 0x6d, 0x75, 0x61, 0x37, 0x6c]
  }

  const BECH32M_CONST: bv32 := 0x2bc830a3
  const ONE: CodeUnit := 0x31

  // ---------------------------------------------------------------- polymod

  // The machine operations have names, so that most proofs need only their algebra.

  function Xor(a: bv32, b: bv32): bv32 { a ^ b }
  function Up(c: bv32): bv32 { c << 5 }
  function Top(c: bv32): bv32 { c >> 25 }
  function Low(c: bv32): bv32 { (c & 0x1ffffff) << 5 }

  const GEN: seq<bv32> := [0x3b6a57b2, 0x26508e6d, 0x1ea119fa, 0x3d4233dd, 0x2a1462b3]

  function Bit(b: bv32, i: nat): bool
    requires i < 5
  {
    if i == 0 then b & 1 != 0 else if i == 1 then (b >> 1) & 1 != 0 else if i == 2 then (b >> 2) & 1 != 0
    else if i == 3 then (b >> 3) & 1 != 0 else (b >> 4) & 1 != 0
  }

  /** The generator `i` if bit `i` of `b` is set. */
  function Term(b: bv32, i: nat): bv32
    requires i < 5
  {
    if Bit(b, i) then GEN[i] else 0
  }

  /** The first `n` of those terms. */
  function Terms(b: bv32, n: nat): bv32
    requires n <= 5
  {
    if n == 0 then 0 else Xor(Terms(b, n - 1), Term(b, n - 1))
  }

  /** One step on the input 0. */
  function Shift(c: bv32): bv32 {
    Xor(Low(c), Terms(Top(c), 5))
  }

  /** The checksum state after `vs`, starting from `c`. */
  function Fold(vs: seq<bv32>, c: bv32): bv32 {
    if vs == [] then c else Fold(vs[1..], Xor(Shift(c), vs[0]))
  }

  lemma XorZero(a: bv32)
    ensures Xor(a, 0) == a && Xor(0, a) == a && Xor(a, a) == 0
  {
  }

  lemma XorCommutes(a: bv32, b: bv32)
    ensures Xor(a, b) == Xor(b, a)
  {
  }

  lemma XorAssociates(a: bv32, b: bv32, c: bv32)
    ensures Xor(Xor(a, b), c) == Xor(a, Xor(b, c))
  {
  }

  lemma XorSwaps(a: bv32, b: bv32, c: bv32)
    ensures Xor(Xor(a, b), c) == Xor(Xor(a, c), b)
  {
    hide Xor;
    XorAssociates(a, b, c);
    XorCommutes(b, c);
    XorAssociates(a, c, b);
  }

  lemma XorFour(a: bv32, b: bv32, c: bv32, d: bv32)
    ensures Xor(Xor(a, b), Xor(c, d)) == Xor(Xor(a, c), Xor(b, d))
  {
    hide Xor;
    XorAssociates(Xor(a, b), c, d);
    XorSwaps(a, b, c);
    XorAssociates(Xor(a, c), b, d);
  }

  lemma XorCancels(a: bv32, b: bv32)
    ensures Xor(a, Xor(a, b)) == b && (Xor(a, b) == 0 ==> a == b)
  {
  }

  lemma XorIsSmall(a: bv32, b: bv32)
    requires a < LIMIT && b < LIMIT
    ensures Xor(a, b) < LIMIT
  {
  }

  lemma {:induction false} FoldAppends(a: seq<bv32>, b: seq<bv32>, c: bv32)
    ensures Fold(a + b, c) == Fold(b, Fold(a, c))
    decreases |a|
  {
    hide Shift, Xor;
    if a == [] {
      assert a + b == b;
    } else {
      FoldAppends(a[1..], b, Xor(Shift(c), a[0]));
      assert (a + b)[1..] == a[1..] + b;
    }
  }

  lemma FoldOne(v: bv32, c: bv32)
    ensures Fold([v], c) == Xor(Shift(c), v) && Fold([], c) == c
  {
    hide Shift, Xor;
    assert [v][1..] == [];
  }

  lemma FoldPush(vs: seq<bv32>, v: bv32, c: bv32)
    ensures Fold(vs + [v], c) == Xor(Shift(Fold(vs, c)), v)
  {
    hide Shift, Xor, Fold;
    FoldAppends(vs, [v], c);
    FoldOne(v, Fold(vs, c));
  }

  /** `polymod`. */
  method Polymod(values: seq<bv32>) returns (chk: bv32)
    ensures chk == Fold(values, 1)
  {
    hide Fold, Bit, Xor, Low, Top;
    chk := 1;
    FoldOne(0, 1);
    for k := 0 to |values|
      invariant chk == Fold(values[..k], 1)
    {
      var b := Top(chk);
      ghost var base := Low(chk);
      chk := Xor(Low(chk), values[k]);
      XorZero(chk);
      for i := 0 to 5
        invariant chk == Xor(Xor(base, values[k]), Terms(b, i))
      {
        XorAssociates(Xor(base, values[k]), Terms(b, i), Term(b, i));
        XorZero(chk);
        if Bit(b, i) { chk := Xor(chk, GEN[i]); }
      }
      XorSwaps(base, values[k], Terms(b, 5));
      assert values[..k + 1] == values[..k] + [values[k]];
      FoldPush(values[..k], values[k], 1);
    }
    assert values[..|values|] == values;
  }

  // ---------------------------------------------------------------- linearity

  lemma BitIsLinear(a: bv32, b: bv32, i: nat)
    requires i < 5
    ensures Bit(Xor(a, b), i) == (Bit(a, i) != Bit(b, i))
  {
  }

  lemma TermIsLinear(a: bv32, b: bv32, i: nat)
    requires i < 5
    ensures Term(Xor(a, b), i) == Xor(Term(a, i), Term(b, i))
  {
    hide Bit, Xor;
    BitIsLinear(a, b, i);
    XorZero(GEN[i]);
    XorZero(0);
  }

  lemma {:induction false} TermsAreLinear(a: bv32, b: bv32, n: nat)
    requires n <= 5
    ensures Terms(Xor(a, b), n) == Xor(Terms(a, n), Terms(b, n))
  {
    hide Term, Xor;
    if n == 0 {
      XorZero(0);
    } else {
      TermsAreLinear(a, b, n - 1);
      TermIsLinear(a, b, n - 1);
      XorFour(Terms(a, n - 1), Term(a, n - 1), Terms(b, n - 1), Term(b, n - 1));
    }
  }

  lemma PartsAreLinear(a: bv32, b: bv32)
    ensures Top(Xor(a, b)) == Xor(Top(a), Top(b)) && Low(Xor(a, b)) == Xor(Low(a), Low(b))
  {
  }

  lemma ShiftIsLinear(a: bv32, b: bv32)
    ensures Shift(Xor(a, b)) == Xor(Shift(a), Shift(b))
  {
    hide Terms, Xor, Top, Low;
    PartsAreLinear(a, b);
    TermsAreLinear(Top(a), Top(b), 5);
    XorFour(Low(a), Terms(Top(a), 5), Low(b), Terms(Top(b), 5));
  }

  /** The step written out, for facts about all its bits at once. */
  function Flat(c: bv32): bv32 {
    var b := c >> 25;
    ((c & 0x1ffffff) << 5)
    ^ (if b & 1 != 0 then 0x3b6a57b2 else 0) ^ (if (b >> 1) & 1 != 0 then 0x26508e6d else 0)
    ^ (if (b >> 2) & 1 != 0 then 0x1ea119fa else 0) ^ (if (b >> 3) & 1 != 0 then 0x3d4233dd else 0)
    ^ (if (b >> 4) & 1 != 0 then 0x2a1462b3 else 0)
  }

  lemma TermsWrittenOut(b: bv32)
    ensures Terms(b, 5) == Xor(Xor(Xor(Xor(Term(b, 0), Term(b, 1)), Term(b, 2)), Term(b, 3)), Term(b, 4))
  {
    hide Term, Xor;
    XorZero(Term(b, 0));
    assert Terms(b, 1) == Term(b, 0);
    assert Terms(b, 2) == Xor(Terms(b, 1), Term(b, 1));
    assert Terms(b, 3) == Xor(Terms(b, 2), Term(b, 2));
    assert Terms(b, 4) == Xor(Terms(b, 3), Term(b, 3));
    assert Terms(b, 5) == Xor(Terms(b, 4), Term(b, 4));
  }

  lemma ShiftIsFlat(c: bv32)
    ensures Shift(c) == Flat(c)
  {
    hide Terms;
    TermsWrittenOut(Top(c));
  }

  const LIMIT: bv32 := 0x4000_0000

  lemma FlatFacts(c: bv32)
    ensures Flat(c) < LIMIT
    ensures c < LIMIT && c != 0 ==> Flat(c) != 0
    ensures c < 0x200_0000 ==> Flat(c) == Up(c)
  {
  }

  /** The state stays below 2^30, a non-zero state stays non-zero, and a short one is only shifted. */
  lemma ShiftFacts(c: bv32)
    ensures Shift(c) < LIMIT
    ensures c < LIMIT && c != 0 ==> Shift(c) != 0
    ensures c < 0x200_0000 ==> Shift(c) == Up(c)
  {
    hide Shift, Flat;
    ShiftIsFlat(c);
    FlatFacts(c);
  }

  /** The step is injective on states. */
  lemma ShiftIsInjective(a: bv32, b: bv32)
    requires a < LIMIT && b < LIMIT && Shift(a) == Shift(b)
    ensures a == b
  {
    hide Shift, Xor;
    ShiftIsLinear(a, b);
    XorIsSmall(a, b);
    XorCancels(a, b);
    XorZero(Shift(a));
    ShiftFacts(Xor(a, b));
  }

  function Xors(a: seq<bv32>, b: seq<bv32>): (r: seq<bv32>)
    requires |a| == |b|
    ensures |r| == |a| && forall i | 0 <= i < |a| :: r[i] == Xor(a[i], b[i])
  {
    seq(|a|, i requires 0 <= i < |a| => Xor(a[i], b[i]))
  }

  lemma {:induction false} FoldIsLinear(a: seq<bv32>, b: seq<bv32>, c: bv32, d: bv32)
    requires |a| == |b|
    ensures Fold(Xors(a, b), Xor(c, d)) == Xor(Fold(a, c), Fold(b, d))
    decreases |a|
  {
    hide Shift, Xor;
    if a != [] {
      ShiftIsLinear(c, d);
      XorFour(Shift(c), a[0], Shift(d), b[0]);
      FoldIsLinear(a[1..], b[1..], Xor(Shift(c), a[0]), Xor(Shift(d), b[0]));
      assert Xors(a, b)[1..] == Xors(a[1..], b[1..]);
    }
  }

  // ---------------------------------------------------------------- checksums

  /** Word `n` of a 30-bit value: `(pm >> (5 * (5 - n))) & 31`. */
  function Word(pm: bv32, n: nat): (w: bv32)
    ensures w < 32
  {
    if n == 0 then (pm >> 25) & 31 else if n == 1 then (pm >> 20) & 31 else if n == 2 then (pm >> 15) & 31
    else if n == 3 then (pm >> 10) & 31 else if n == 4 then (pm >> 5) & 31 else pm & 31
  }

  function Six(pm: bv32): (r: seq<bv32>)
    ensures |r| == 6 && forall i | 0 <= i < 6 :: r[i] == Word(pm, i)
  {
    seq(6, i requires 0 <= i < 6 => Word(pm, i))
  }

  function SixZeros(): seq<bv32> {
    [0, 0, 0, 0, 0, 0]
  }

  function ChecksumOf(vs: seq<bv32>): (r: seq<bv32>)
    ensures |r| == 6
  {
    Six(Xor(Fold(vs + SixZeros(), 1), BECH32M_CONST))
  }

  /** The first `n` words of a 30-bit value, as a number. */
  function Part(pm: bv32, n: nat): bv32 {
    if n == 0 then 0 else if n == 1 then (pm >> 25) & 31 else if n == 2 then (pm >> 20) & 0x3ff
    else if n == 3 then (pm >> 15) & 0x7fff else if n == 4 then (pm >> 10) & 0xfffff
    else if n == 5 then (pm >> 5) & 0x1ffffff else pm
  }

  lemma PartIsShort(pm: bv32, n: nat)
    requires n < 6
    ensures Part(pm, n) < 0x200_0000
  {
  }

  lemma Part1(pm: bv32)
    requires pm < LIMIT
    ensures Xor(Up(Part(pm, 0)), Word(pm, 0)) == Part(pm, 1)
  {
  }

  lemma Part2(pm: bv32)
    requires pm < LIMIT
    ensures Xor(Up(Part(pm, 1)), Word(pm, 1)) == Part(pm, 2)
  {
  }

  lemma Part3(pm: bv32)
    requires pm < LIMIT
    ensures Xor(Up(Part(pm, 2)), Word(pm, 2)) == Part(pm, 3)
  {
  }

  lemma Part4(pm: bv32)
    requires pm < LIMIT
    ensures Xor(Up(Part(pm, 3)), Word(pm, 3)) == Part(pm, 4)
  {
  }

  lemma Part5(pm: bv32)
    requires pm < LIMIT
    ensures Xor(Up(Part(pm, 4)), Word(pm, 4)) == Part(pm, 5)
  {
  }

  lemma Part6(pm: bv32)
    requires pm < LIMIT
    ensures Xor(Up(Part(pm, 5)), Word(pm, 5)) == Part(pm, 6)
  {
  }

  lemma PartStep(pm: bv32, n: nat)
    requires pm < LIMIT && n < 6
    ensures Xor(Up(Part(pm, n)), Word(pm, n)) == Part(pm, n + 1)
  {
    hide Xor, Up, Part, Word;
    Part1(pm);
    Part2(pm);
    Part3(pm);
    Part4(pm);
    Part5(pm);
    Part6(pm);
  }

  /** Fed to an empty state, the words are packed back: no bit leaves the top before the last one. */
  lemma {:induction false} FoldPacks(pm: bv32, n: nat)
    requires pm < LIMIT && n <= 6
    ensures Fold(Six(pm)[..n], 0) == Part(pm, n)
  {
    hide Shift, Fold, Xor, Six, Part, Word, Up;
    if n == 0 {
      FoldOne(0, 0);
      NoPart(pm);
    } else {
      FoldPacks(pm, n - 1);
      PartStep(pm, n - 1);
      PartIsShort(pm, n - 1);
      ShiftFacts(Part(pm, n - 1));
      assert Six(pm)[..n] == Six(pm)[..n - 1] + [Six(pm)[n - 1]];
      FoldPush(Six(pm)[..n - 1], Six(pm)[n - 1], 0);
    }
  }

  lemma NoPart(pm: bv32)
    ensures Part(pm, 0) == 0 && Part(pm, 6) == pm
  {
  }

  lemma SixPacks(pm: bv32)
    requires pm < LIMIT
    ensures Fold(Six(pm), 0) == pm
  {
    hide Part, Fold, Six;
    NoPart(pm);
    FoldPacks(pm, 6);
    assert Six(pm)[..6] == Six(pm);
  }

  lemma XorZeros(s: seq<bv32>)
    requires |s| == 6
    ensures Xors(SixZeros(), s) == s
  {
    hide Xor;
    forall i | 0 <= i < 6 ensures Xor(SixZeros()[i], s[i]) == s[i] { XorZero(s[i]); }
  }

  lemma FoldIsSmall(vs: seq<bv32>, v: bv32, c: bv32)
    requires v < LIMIT
    ensures Fold(vs + [v], c) < LIMIT
  {
    hide Shift, Fold, Xor;
    FoldPush(vs, v, c);
    ShiftFacts(Fold(vs, c));
    XorIsSmall(Shift(Fold(vs, c)), v);
  }

  /** The generated checksum verifies. */
  lemma ChecksumVerifies(vs: seq<bv32>)
    ensures Fold(vs + ChecksumOf(vs), 1) == BECH32M_CONST
  {
    hide Shift, Fold, Six, Xor;
    var z := Fold(vs + SixZeros(), 1);
    var pm := Xor(z, BECH32M_CONST);
    assert vs + SixZeros() == (vs + [0, 0, 0, 0, 0]) + [0];
    FoldIsSmall(vs + [0, 0, 0, 0, 0], 0, 1);
    XorIsSmall(z, BECH32M_CONST);
    SixPacks(pm);
    var s := Fold(vs, 1);
    FoldAppends(vs, Six(pm), 1);
    FoldAppends(vs, SixZeros(), 1);
    XorZero(s);
    FoldIsLinear(SixZeros(), Six(pm), s, 0);
    XorZeros(Six(pm));
    XorCancels(z, BECH32M_CONST);
  }

  // ---------------------------------------------------------------- one substitution

  lemma {:induction false} FoldOfNothing(vs: seq<bv32>, c: bv32)
    requires (forall i | 0 <= i < |vs| :: vs[i] == 0) && c < LIMIT && c != 0
    ensures Fold(vs, c) != 0
    decreases |vs|
  {
    hide Shift, Xor;
    if vs != [] {
      ShiftFacts(c);
      XorZero(Shift(c));
      FoldOfNothing(vs[1..], Shift(c));
    }
  }

  lemma ShiftZero()
    ensures Shift(0) == 0
  {
    ShiftFacts(0);
  }

  /** A single non-zero word, wherever it stands, leaves a non-zero state. */
  lemma {:induction false} OneErrorShows(vs: seq<bv32>, p: nat)
    requires p < |vs| && vs[p] != 0 && vs[p] < LIMIT && forall i | 0 <= i < |vs| && i != p :: vs[i] == 0
    ensures Fold(vs, 0) != 0
    decreases p
  {
    hide Shift, Xor;
    ShiftZero();
    XorZero(vs[0]);
    if p == 0 {
      FoldOfNothing(vs[1..], vs[0]);
    } else {
      OneErrorShows(vs[1..], p - 1);
    }
  }

  /** Words that differ in exactly one place never leave the same state. */
  lemma OneSubstitutionShows(a: seq<bv32>, b: seq<bv32>, p: nat)
    requires |a| == |b| && p < |a| && a[p] < LIMIT && b[p] < LIMIT && a[p] != b[p]
    requires forall i | 0 <= i < |a| && i != p :: a[i] == b[i]
    ensures Fold(a, 1) != Fold(b, 1)
  {
    hide Shift, Fold, Xor;
    var e := Xors(a, b);
    XorIsSmall(a[p], b[p]);
    XorCancels(a[p], b[p]);
    forall i | 0 <= i < |e| && i != p ensures e[i] == 0 { XorZero(a[i]); }
    OneErrorShows(e, p);
    FoldIsLinear(a, b, 1, 1);
    XorZero(1);
    XorZero(Fold(a, 1));
  }

  // ---------------------------------------------------------------- bursts

  /** 32^n. */
  function Bound(n: nat): bv32
    requires n <= 6
  {
    if n == 0 then 1 else if n == 1 then 0x20 else if n == 2 then 0x400 else if n == 3 then 0x8000
    else if n == 4 then 0x10_0000 else if n == 5 then 0x200_0000 else LIMIT
  }

  /** While the state is short, a step writes the next word behind it. */
  lemma ShortStep(c: bv32, v: bv32, n: nat)
    requires n < 6 && c < Bound(n) && v < 32
    ensures Xor(Up(c), v) < Bound(n + 1) && (Xor(Up(c), v) == 0 <==> c == 0 && v == 0)
  {
  }

  lemma ShortState(c: bv32, n: nat)
    requires n < 6 && c < Bound(n)
    ensures c < 0x200_0000
  {
  }

  /** At most six words, not all of them zero, and then zeros. */
  lemma {:induction false} BurstStays(vs: seq<bv32>, c: bv32, n: nat)
    requires n <= 6 && c < Bound(n)
    requires forall i | 0 <= i < |vs| :: if i < 6 - n then vs[i] < 32 else vs[i] == 0
    requires c != 0 || exists i :: 0 <= i < |vs| && vs[i] != 0
    ensures Fold(vs, c) != 0
    decreases |vs|
  {
    hide Shift, Xor, Up, Bound;
    if n == 6 {
      SixIsLimit();
      FoldOfNothing(vs, c);
    } else if vs != [] {
      ShortState(c, n);
      ShiftFacts(c);
      ShortStep(c, vs[0], n);
      var next := Xor(Shift(c), vs[0]);
      if next == 0 {
        var i :| 0 <= i < |vs| && vs[i] != 0;
        assert vs[1..][i - 1] != 0;
      }
      BurstStays(vs[1..], next, n + 1);
    }
  }

  lemma SixIsLimit()
    ensures Bound(6) == LIMIT && 0 < Bound(0)
  {
  }

  /** Errors within six places in a row, wherever they stand, leave a non-zero state. */
  lemma {:induction false} BurstShows(vs: seq<bv32>, p: nat)
    requires forall i | 0 <= i < |vs| :: if p <= i < p + 6 then vs[i] < 32 else vs[i] == 0
    requires exists i :: 0 <= i < |vs| && vs[i] != 0
    ensures Fold(vs, 0) != 0
    decreases p
  {
    hide Shift, Xor;
    if p == 0 {
      SixIsLimit();
      BurstStays(vs, 0, 0);
    } else {
      ShiftZero();
      XorZero(vs[0]);
      var i :| 0 <= i < |vs| && vs[i] != 0;
      assert vs[1..][i - 1] != 0;
      BurstShows(vs[1..], p - 1);
    }
  }

  lemma XorIsAWord(a: bv32, b: bv32)
    requires a < 32 && b < 32
    ensures Xor(a, b) < 32
  {
  }

  /** Words that differ, and only within six places in a row, never leave the same state. */
  lemma BurstOfSubstitutionsShows(a: seq<bv32>, b: seq<bv32>, p: nat)
    requires |a| == |b| && a != b
    requires forall i | 0 <= i < |a| :: if p <= i < p + 6 then a[i] < 32 && b[i] < 32 else a[i] == b[i]
    ensures Fold(a, 1) != Fold(b, 1)
  {
    hide Shift, Fold, Xor;
    var e := Xors(a, b);
    forall i | 0 <= i < |e| ensures if p <= i < p + 6 then e[i] < 32 else e[i] == 0 {
      if p <= i < p + 6 { XorIsAWord(a[i], b[i]); } else { XorZero(a[i]); }
    }
    var d :| 0 <= d < |a| && a[d] != b[d];
    XorCancels(a[d], b[d]);
    assert e[d] != 0;
    BurstShows(e, p);
    FoldIsLinear(a, b, 1, 1);
    XorZero(1);
    XorZero(Fold(a, 1));
  }
}
