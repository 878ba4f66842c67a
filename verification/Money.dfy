/** XRGE amounts as decimal text and as integer quanta (10^-9 XRGE), converted exactly. */
module Money {
  import opened Common
  import opened Json
  import opened Decimal
  import opened Words

  const XRGE_DECIMALS: int := 9
  const QUANTA_PER_XRGE: nat := 1_000_000_000

  // ---------------------------------------------------------------- cleaning

  function TrimStart(t: Text): Text {
    if t != [] && IsBlank(t[0]) then TrimStart(t[1..]) else t
  }

  function TrimEnd(t: Text): Text {
    if t != [] && IsBlank(t[|t| - 1]) then TrimEnd(t[..|t| - 1]) else t
  }

  function WithoutUnderscores(t: Text): Text {
    if t == [] then [] else (if t[0] == 0x5f then [] else [t[0]]) + WithoutUnderscores(t[1..])
  }

  /** Trimmed, and without underscores. */
  function Clean(t: Text): Text {
    WithoutUnderscores(TrimEnd(TrimStart(t)))
  }

  predicate IsClean(t: Text) {
    forall i | 0 <= i < |t| :: !IsBlank(t[i]) && t[i] != 0x5f
  }

  lemma CleanStays(t: Text)
    requires IsClean(t)
    ensures Clean(t) == t
  {
    NoUnderscores(t);
  }

  lemma {:induction false} NoUnderscores(t: Text)
    requires IsClean(t)
    ensures WithoutUnderscores(t) == t
  {
    if t != [] {
      NoUnderscores(t[1..]);
      assert t == [t[0]] + t[1..];
    }
  }

  // ---------------------------------------------------------------- the amount pattern

  /** `digits` with a decimal point `scale` places from the right (to the left of it when negative). */
  datatype Amount = Amount(digits: Text, scale: int)

  predicate IsAmount(a: Amount) { AllDigits(a.digits) }

  function TakeDigits(t: Text): (d: Text)
    ensures AllDigits(d) && t == d + DropDigits(t) && |d| == |t| - |DropDigits(t)|
    ensures DropDigits(t) == [] || !IsDigit(DropDigits(t)[0])
  {
    if t != [] && IsDigit(t[0]) then [t[0]] + TakeDigits(t[1..]) else []
  }

  /** The exponent part: nothing, or e, a sign and digits up to the end. */
  function ReadExponent(t: Text): Option<int> {
    if t == [] then Some(0)
    else if t[0] != 0x65 && t[0] != 0x45 then None
    else
      var u := DropSign(t[1..]);
      if !StartsWithDigit(u) || DropDigits(u) != [] then None
      else
        var n: int := DigitsValue(TakeDigits(u));
        Some(if t[1] == 0x2d then -n else n)
  }

  /**
   * What the amount pattern matches: a plus, digits, a point and digits, an exponent; not all of the digits missing.
   */
  function ReadAmount(t: Text): (r: Option<Amount>)
    ensures r.Some? ==> IsAmount(r.value)
  {
    var u := if t != [] && t[0] == 0x2b then t[1..] else t;
    var whole, rest := TakeDigits(u), DropDigits(u);
    var pointed := rest != [] && rest[0] == 0x2e;
    var frac := if pointed then TakeDigits(rest[1..]) else [];
    var exponent := ReadExponent(if pointed then DropDigits(rest[1..]) else rest);
    if exponent.None? || (whole == [] && frac == []) then None
    else
      DigitsAppend(whole, frac);
      Some(Amount(whole + frac, |frac| - exponent.value))
  }

  lemma DigitsAppend(a: Text, b: Text)
    requires AllDigits(a) && AllDigits(b)
    ensures AllDigits(a + b)
  {
  }

  // ---------------------------------------------------------------- conversion

  /** The quanta are the amount times 10^9, both sides scaled up to integers. */
  ghost predicate Exactly(a: Amount, quanta: nat)
    requires IsAmount(a)
  {
    if a.scale <= XRGE_DECIMALS then quanta == DigitsValue(a.digits) * Pow10(XRGE_DECIMALS - a.scale)
    else quanta * Pow10(a.scale - XRGE_DECIMALS) == DigitsValue(a.digits)
  }

  lemma DropZero(d: Text)
    requires AllDigits(d) && d != [] && d[|d| - 1] == 0x30
    ensures AllDigits(d[..|d| - 1]) && DigitsValue(d) == DigitsValue(d[..|d| - 1]) * 10
  {
  }

  lemma StripKeeps(a: Amount, quanta: nat)
    requires IsAmount(a) && a.scale > 0 && a.digits != [] && a.digits[|a.digits| - 1] == 0x30
    ensures var b := Amount(a.digits[..|a.digits| - 1], a.scale - 1);
            IsAmount(b) && (Exactly(a, quanta) <==> Exactly(b, quanta))
  {
    DropZero(a.digits);
    var v := DigitsValue(a.digits[..|a.digits| - 1]);
    if a.scale <= XRGE_DECIMALS {
      ShiftTen(v, XRGE_DECIMALS - a.scale);
    } else {
      ShiftTen(quanta, a.scale - XRGE_DECIMALS - 1);
    }
  }

  lemma ShiftTen(v: nat, n: nat)
    ensures v * Pow10(n + 1) == (v * 10) * Pow10(n) && v * Pow10(n + 1) == (v * Pow10(n)) * 10
  {
    assert Pow10(n + 1) == 10 * Pow10(n);
  }

  /** The digits without the zeros that only add precision. */
  function Strip(a: Amount): (b: Amount)
    decreases |a.digits|
  {
    if a.scale > 0 && a.digits != [] && a.digits[|a.digits| - 1] == 0x30
    then Strip(Amount(a.digits[..|a.digits| - 1], a.scale - 1)) else a
  }

  lemma {:induction false} StripIsExact(a: Amount, quanta: nat)
    requires IsAmount(a)
    ensures IsAmount(Strip(a)) && (Exactly(a, quanta) <==> Exactly(Strip(a), quanta))
    ensures a.scale < 0 ==> Strip(a) == a
    decreases |a.digits|
  {
    hide Exactly;
    if a.scale > 0 && a.digits != [] && a.digits[|a.digits| - 1] == 0x30 {
      StripKeeps(a, quanta);
      StripIsExact(Amount(a.digits[..|a.digits| - 1], a.scale - 1), quanta);
    }
  }

  predicate InRange(a: Amount) {
    -1000 <= Strip(a).scale <= XRGE_DECIMALS
  }

  /** Refused unless it is an amount in range; otherwise worth exactly what it says. */
  ghost predicate Converts(str: Text, r: Option<nat>) {
    var m := ReadAmount(Clean(str));
    if m.None? || !InRange(m.value) then r.None? else r.Some? && Exactly(m.value, r.value)
  }

  /** `xrgeToQuanta`, a number being given as its own text; `None` is a throw. */
  method XrgeToQuanta(str: Text) returns (r: Option<nat>)
    ensures Converts(str, r)
  {
    hide DigitsValue, Pow10, ReadAmount, Clean;
    var m := ReadAmount(Clean(str));
    if m.None? { return None; }
    var digits, scale := m.value.digits, m.value.scale;
    while scale > 0 && |digits| > 0 && digits[|digits| - 1] == 0x30
      invariant AllDigits(digits) && Strip(Amount(digits, scale)) == Strip(m.value)
      decreases |digits|
    {
      digits, scale := digits[..|digits| - 1], scale - 1;
    }
    if scale > XRGE_DECIMALS || scale < -1000 { return None; }
    var n := DigitsValue(digits);
    StripIsExact(m.value, n * Pow10(XRGE_DECIMALS - scale));
    return Some(n * Pow10(XRGE_DECIMALS - scale));
  }

  // ---------------------------------------------------------------- when it is accepted

  lemma NoTrailingZero(d: Text)
    requires AllDigits(d) && d != [] && d[|d| - 1] != 0x30
    ensures DigitsValue(d) % 10 != 0
  {
  }

  lemma TimesTen(q: nat, n: nat)
    requires n > 0
    ensures q * Pow10(n) % 10 == 0
  {
    ShiftTen(q, n - 1);
  }

  lemma {:induction false} ZeroOrLonger(d: Text)
    requires AllDigits(d) && DigitsValue(d) == 0
    ensures forall i | 0 <= i < |d| :: d[i] == 0x30
  {
    if d != [] { ZeroOrLonger(d[..|d| - 1]); }
  }

  /** Once stripped, a non-zero amount with more than nine decimals is no whole number of quanta. */
  lemma StrippedIsPrecise(b: Amount, quanta: nat)
    requires IsAmount(b) && DigitsValue(b.digits) != 0 && Strip(b) == b && b.scale > XRGE_DECIMALS
    ensures !Exactly(b, quanta)
  {
    if b.digits[|b.digits| - 1] != 0x30 {
      NoTrailingZero(b.digits);
      TimesTen(quanta, b.scale - XRGE_DECIMALS);
    } else {
      StripsShorter(b);
    }
  }

  lemma StripsShorter(b: Amount)
    requires b.scale > 0 && b.digits != [] && b.digits[|b.digits| - 1] == 0x30
    ensures |Strip(b).digits| < |b.digits|
  {
    StripShrinks(Amount(b.digits[..|b.digits| - 1], b.scale - 1));
  }

  lemma {:induction false} StripShrinks(b: Amount)
    ensures |Strip(b).digits| <= |b.digits| && Strip(Strip(b)) == Strip(b)
    decreases |b.digits|
  {
    if b.scale > 0 && b.digits != [] && b.digits[|b.digits| - 1] == 0x30 {
      StripShrinks(Amount(b.digits[..|b.digits| - 1], b.scale - 1));
    }
  }

  lemma {:induction false} StripKeepsNonZero(a: Amount)
    requires IsAmount(a) && DigitsValue(a.digits) != 0
    ensures IsAmount(Strip(a)) && DigitsValue(Strip(a).digits) != 0
    decreases |a.digits|
  {
    if a.scale > 0 && a.digits != [] && a.digits[|a.digits| - 1] == 0x30 {
      DropZero(a.digits);
      StripKeepsNonZero(Amount(a.digits[..|a.digits| - 1], a.scale - 1));
    }
  }

  lemma {:induction false} StripScale(a: Amount)
    ensures a.scale <= 0 ==> Strip(a) == a
    ensures a.scale > 0 ==> 0 <= Strip(a).scale <= a.scale
    decreases |a.digits|
  {
    if a.scale > 0 && a.digits != [] && a.digits[|a.digits| - 1] == 0x30 {
      StripScale(Amount(a.digits[..|a.digits| - 1], a.scale - 1));
    }
  }

  lemma InRangeIsWhole(a: Amount)
    requires IsAmount(a) && InRange(a)
    ensures a.scale >= -1000 && exists quanta: nat :: Exactly(a, quanta)
  {
    hide Exactly, DigitsValue, Pow10, Strip;
    StripScale(a);
    var b := Strip(a);
    StripIsExact(a, 0);
    var quanta := DigitsValue(b.digits) * Pow10(XRGE_DECIMALS - b.scale);
    WholeIsExact(b);
    StripIsExact(a, quanta);
  }

  lemma WholeIsInRange(a: Amount, quanta: nat)
    requires IsAmount(a) && DigitsValue(a.digits) != 0 && a.scale >= -1000 && Exactly(a, quanta)
    ensures InRange(a)
  {
    hide Exactly, DigitsValue, Pow10, Strip;
    StripScale(a);
    StripShrinks(a);
    StripKeepsNonZero(a);
    StripIsExact(a, quanta);
    if Strip(a).scale > XRGE_DECIMALS { StrippedIsPrecise(Strip(a), quanta); }
  }

  /** A non-zero amount is accepted exactly when it is a whole number of quanta and not past 10^1000. */
  lemma AcceptedIffWhole(a: Amount)
    requires IsAmount(a) && DigitsValue(a.digits) != 0
    ensures InRange(a) <==> a.scale >= -1000 && exists quanta: nat :: Exactly(a, quanta)
  {
    hide Exactly, InRange, DigitsValue;
    if InRange(a) { InRangeIsWhole(a); }
    if a.scale >= -1000 {
      forall quanta: nat | Exactly(a, quanta) ensures InRange(a) { WholeIsInRange(a, quanta); }
    }
  }

  lemma WholeIsExact(b: Amount)
    requires IsAmount(b) && b.scale <= XRGE_DECIMALS
    ensures Exactly(b, DigitsValue(b.digits) * Pow10(XRGE_DECIMALS - b.scale))
  {
  }

  lemma {:induction false} ZeroStrips(a: Amount)
    requires forall i | 0 <= i < |a.digits| :: a.digits[i] == 0x30
    ensures a.scale > 0 ==> Strip(a).scale == if a.scale <= |a.digits| then 0 else a.scale - |a.digits|
    decreases |a.digits|
  {
    if a.scale > 0 && a.digits != [] {
      ZeroStrips(Amount(a.digits[..|a.digits| - 1], a.scale - 1));
      StripScale(Amount(a.digits[..|a.digits| - 1], a.scale - 1));
    }
  }

  /** Zero passes exactly when its scale exceeds the number of its digits by at most nine. */
  lemma ZeroIsAcceptedIff(a: Amount)
    requires IsAmount(a) && DigitsValue(a.digits) == 0
    ensures InRange(a) <==> -1000 <= a.scale <= |a.digits| + XRGE_DECIMALS
  {
    ZeroOrLonger(a.digits);
    ZeroStrips(a);
    StripScale(a);
  }

  /** The text 0e-11. */
  const ZERO_E_MINUS_11: Text := [0x30, 0x65, 0x2d, 0x31, 0x31]

  lemma Eleven()
    ensures AllDigits([0x31, 0x31]) && DigitsValue([0x31, 0x31]) == 11
  {
    assert [0x31, 0x31][..1] == [0x31] && [0x31][..0] == [];
    assert DigitsValue([0x31]) == 1;
  }

  lemma ExponentReads()
    ensures ReadExponent([0x65, 0x2d, 0x31, 0x31]) == Some(-11)
  {
    hide TakeDigits, DropDigits, DigitsValue;
    var t := [0x65, 0x2d, 0x31, 0x31];
    assert t[1..][1..] == [0x31, 0x31] + [];
    Eleven();
    DigitsThen([0x31, 0x31], []);
  }

  lemma ZeroReads()
    ensures ReadAmount(ZERO_E_MINUS_11) == Some(Amount([0x30], 11)) && DigitsValue([0x30]) == 0
  {
    hide TakeDigits, DropDigits, ReadExponent;
    var t := ZERO_E_MINUS_11;
    assert t == [0x30] + t[1..] && t[1..] == [0x65, 0x2d, 0x31, 0x31] && [0x30][..0] == [];
    DigitsThen([0x30], t[1..]);
    ExponentReads();
    assert [0x30] + [] == [0x30];
  }

  /** So some writings of zero are refused: 0e-11, for one. */
  lemma SomeZeroIsRefused(r: Option<nat>)
    requires Converts(ZERO_E_MINUS_11, r)
    ensures r.None?
    ensures ReadAmount(ZERO_E_MINUS_11).Some? && Exactly(ReadAmount(ZERO_E_MINUS_11).value, 0)
  {
    hide Clean, ReadAmount, DigitsValue, Pow10, InRange;
    CleanStays(ZERO_E_MINUS_11);
    ZeroReads();
    ZeroIsAcceptedIff(Amount([0x30], 11));
  }

  // ---------------------------------------------------------------- formatting

  function PadStart(t: Text, n: nat): Text
    decreases n - |t|
  {
    if |t| >= n then t else PadStart([0x30] + t, n)
  }

  /** Without trailing zeros. */
  function TrimZeros(t: Text): Text {
    if t != [] && t[|t| - 1] == 0x30 then TrimZeros(t[..|t| - 1]) else t
  }

  function MagnitudeText(q: nat): Text {
    var frac := TrimZeros(PadStart(DecimalText(q % QUANTA_PER_XRGE), 9));
    DecimalText(q / QUANTA_PER_XRGE) + (if frac == [] then [] else [0x2e] + frac)
  }

  /** `quantaToXrge`. */
  function QuantaToXrge(q: int): Text {
    if q < 0 then [0x2d] + MagnitudeText(-q) else MagnitudeText(q)
  }

  lemma {:induction false} LeadingZero(t: Text)
    requires AllDigits(t)
    ensures AllDigits([0x30] + t) && DigitsValue([0x30] + t) == DigitsValue(t)
  {
    if t == [] {
      assert [0x30][..0] == [];
    } else {
      var z := [0x30] + t;
      LeadingZero(t[..|t| - 1]);
      assert z[..|z| - 1] == [0x30] + t[..|t| - 1];
    }
  }

  lemma {:induction false} PadKeepsValue(t: Text, n: nat)
    requires AllDigits(t) && |t| <= n
    ensures AllDigits(PadStart(t, n)) && |PadStart(t, n)| == n && DigitsValue(PadStart(t, n)) == DigitsValue(t)
    decreases n - |t|
  {
    if |t| < n {
      LeadingZero(t);
      PadKeepsValue([0x30] + t, n);
    }
  }

  lemma {:induction false} TrimKeepsValue(t: Text)
    requires AllDigits(t)
    ensures AllDigits(TrimZeros(t)) && |TrimZeros(t)| <= |t|
    ensures DigitsValue(t) == DigitsValue(TrimZeros(t)) * Pow10(|t| - |TrimZeros(t)|)
  {
    if t != [] && t[|t| - 1] == 0x30 {
      DropZero(t);
      TrimKeepsValue(t[..|t| - 1]);
      ShiftTen(DigitsValue(TrimZeros(t)), |t| - 1 - |TrimZeros(t)|);
    }
  }

  lemma {:induction false} ValueOfAppend(a: Text, b: Text)
    requires AllDigits(a) && AllDigits(b)
    ensures AllDigits(a + b) && DigitsValue(a + b) == DigitsValue(a) * Pow10(|b|) + DigitsValue(b)
  {
    if b == [] {
      assert a + b == a;
    } else {
      var c := b[..|b| - 1];
      ValueOfAppend(a, c);
      assert (a + b)[..|a + b| - 1] == a + c;
      ShiftTen(DigitsValue(a), |c|);
    }
  }

  lemma {:induction false} ShortEnough(n: nat, k: nat)
    requires 0 < k && n < Pow10(k)
    ensures |DecimalText(n)| <= k
    decreases k
  {
    if n >= 10 {
      assert Pow10(k) == 10 * Pow10(k - 1);
      if k > 1 { ShortEnough(n / 10, k - 1); }
    }
  }

  lemma NineDigits()
    ensures Pow10(9) == QUANTA_PER_XRGE
  {
    assert Pow10(3) == 1000;
    assert Pow10(6) == 1000000;
  }

  /** The fraction text of `f` quanta: at most nine digits, worth `f` once padded back to nine. */
  lemma FractionIsExact(f: nat)
    requires f < QUANTA_PER_XRGE
    ensures var t := TrimZeros(PadStart(DecimalText(f), 9));
            AllDigits(t) && |t| <= 9 && DigitsValue(t) * Pow10(9 - |t|) == f
  {
    hide DigitsValue, DecimalText, Pow10;
    NineDigits();
    ShortEnough(f, 9);
    TextIsCanonical(f);
    PadKeepsValue(DecimalText(f), 9);
    TrimKeepsValue(PadStart(DecimalText(f), 9));
  }

  lemma {:induction false} DigitsThen(d: Text, rest: Text)
    requires AllDigits(d) && (rest == [] || !IsDigit(rest[0]))
    ensures TakeDigits(d + rest) == d && DropDigits(d + rest) == rest
  {
    if d == [] {
      assert d + rest == rest;
    } else {
      assert (d + rest)[1..] == d[1..] + rest;
      DigitsThen(d[1..], rest);
    }
  }

  lemma FormattedReads(whole: Text, frac: Text)
    requires AllDigits(whole) && whole != [] && AllDigits(frac)
    ensures ReadAmount(whole + (if frac == [] then [] else [0x2e] + frac)) == Some(Amount(whole + frac, |frac|))
  {
    hide TakeDigits, DropDigits, DigitsValue;
    var tail := if frac == [] then [] else [0x2e] + frac;
    DigitsThen(whole, tail);
    if frac != [] {
      assert tail[1..] == frac + [];
      DigitsThen(frac, []);
    } else {
      assert whole + [] == whole;
    }
  }

  /** The text of `q` quanta is an amount worth exactly `q`, with at most nine decimals. */
  lemma FormattedIsExact(q: nat)
    ensures var m := ReadAmount(QuantaToXrge(q)); m.Some? && InRange(m.value) && Exactly(m.value, q)
    ensures IsClean(QuantaToXrge(q))
  {
    hide DigitsValue, DecimalText, Pow10, PadStart, TrimZeros, ReadAmount, Strip;
    var w, f := q / QUANTA_PER_XRGE, q % QUANTA_PER_XRGE;
    var frac := TrimZeros(PadStart(DecimalText(f), 9));
    FractionIsExact(f);
    TextIsCanonical(w);
    FormattedReads(DecimalText(w), frac);
    ValueOfAppend(DecimalText(w), frac);
    SplitPower(w, DigitsValue(frac), |frac|);
    StripScale(Amount(DecimalText(w) + frac, |frac|));
  }

  lemma ExactIsUnique(a: Amount, x: nat, y: nat)
    requires IsAmount(a) && Exactly(a, x) && Exactly(a, y)
    ensures x == y
  {
    hide DigitsValue, Pow10;
    if a.scale > XRGE_DECIMALS {
      var p := Pow10(a.scale - XRGE_DECIMALS);
      DivIs(x * p, p, x, 0);
      DivIs(y * p, p, y, 0);
    }
  }

  /** Converting the text of `q` quanta gives `q` back, and throws for a negative `q`. */
  lemma QuantaRoundTrip(q: int, r: Option<nat>)
    requires Converts(QuantaToXrge(q), r)
    ensures r == if q < 0 then None else Some(q)
  {
    hide Exactly, QuantaToXrge, InRange, ReadAmount, Clean;
    if q < 0 {
      MinusIsRefused(q);
    } else {
      FormattedIsExact(q);
      CleanStays(QuantaToXrge(q));
      ExactIsUnique(ReadAmount(QuantaToXrge(q)).value, r.value, q);
    }
  }

  lemma MinusIsRefused(q: int)
    requires q < 0
    ensures ReadAmount(Clean(QuantaToXrge(q))).None?
  {
    hide MagnitudeText, ReadAmount, Clean;
    FormattedIsExact(-q);
    var t := QuantaToXrge(q);
    assert IsClean(t);
    CleanStays(t);
    NoAmountStartsWithMinus(t);
  }

  lemma NoAmountStartsWithMinus(t: Text)
    requires t != [] && t[0] == 0x2d
    ensures ReadAmount(t).None?
  {
  }

  lemma SplitPower(w: nat, v: nat, n: nat)
    requires n <= 9
    ensures (w * Pow10(n) + v) * Pow10(9 - n) == w * QUANTA_PER_XRGE + v * Pow10(9 - n)
  {
    hide Pow10;
    NineDigits();
    PowersAdd(n, 9 - n);
    var a, b := Pow10(n), Pow10(9 - n);
    assert (w * a + v) * b == w * (a * b) + v * b;
  }

  lemma {:induction false} PowersAdd(a: nat, b: nat)
    ensures Pow10(a + b) == Pow10(a) * Pow10(b)
  {
    if a > 0 { PowersAdd(a - 1, b); }
  }
}
