/** Decimal numerals: the text of a natural number and its value. */
module Decimal {
  import opened Json

  /** `String(n)`. */
  function DecimalText(n: nat): (t: Text)
    ensures t != []
  {
    if n < 10 then [0x30 + n] else DecimalText(n / 10) + [0x30 + n % 10]
  }

  function Pow10(n: nat): (r: nat)
    ensures r > 0
  {
    if n == 0 then 1 else 10 * Pow10(n - 1)
  }

  lemma {:induction false} TextIsCanonical(n: nat)
    ensures IsInt(DecimalText(n)) && DigitsValue(DecimalText(n)) == n
    ensures n > 0 ==> DecimalText(n)[0] != 0x30
  {
    var t := DecimalText(n);
    if n < 10 {
      assert t[..0] == [];
    } else {
      TextIsCanonical(n / 10);
      assert t[..|t| - 1] == DecimalText(n / 10);
    }
  }

  lemma {:induction false} CanonicalIsPositive(t: Text)
    requires IsInt(t) && t[0] != 0x30
    ensures DigitsValue(t) > 0
  {
    if |t| > 1 {
      CanonicalIsPositive(t[..|t| - 1]);
    } else {
      assert t[..0] == [];
    }
  }

  /** A canonical numeral is the text of its value. */
  lemma {:induction false} CanonicalPrintsBack(t: Text)
    requires IsInt(t)
    ensures DecimalText(DigitsValue(t)) == t
  {
    var front := t[..|t| - 1];
    if |t| == 1 {
      assert front == [];
    } else {
      CanonicalIsPositive(front);
      CanonicalPrintsBack(front);
      assert DigitsValue(t) / 10 == DigitsValue(front);
      assert t == front + [t[|t| - 1]];
    }
  }

  lemma TextIsInjective(m: nat, n: nat)
    requires DecimalText(m) == DecimalText(n)
    ensures m == n
  {
    TextIsCanonical(m);
    TextIsCanonical(n);
  }
}
