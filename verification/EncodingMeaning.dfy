/** What canonical text means: floats keep their value, and objects are encoded as maps. */
module EncodingMeaning {
  import opened Common
  import opened Json
  import opened Decimal
  import opened Encoding

  // ---------------------------------------------------------------- numbers

  /** An integer in range is written exactly as it was read. */
  lemma IntegersAreKept(number: Reading, raw: Text)
    requires IntegerOf(raw).Some? && I64_MIN <= IntegerOf(raw).value <= U64_MAX
    ensures EncNumber(number, raw) == Some(raw)
  {
    if IsInt(raw) {
      CanonicalPrintsBack(raw);
    } else {
      CanonicalPrintsBack(raw[1..]);
      assert raw == [0x2d] + raw[1..];
      NegativeIsNegative(raw[1..]);
    }
  }

  lemma NegativeIsNegative(t: Text)
    requires IsInt(t) && t != [0x30]
    ensures DigitsValue(t) > 0
  {
    CanonicalIsPositive(t);
  }

  lemma {:induction false} ValueOfZeros(t: Text, n: nat)
    requires AllDigits(t)
    ensures AllDigits(t + Zeros(n)) && DigitsValue(t + Zeros(n)) == DigitsValue(t) * Pow10(n)
  {
    if n == 0 {
      assert t + Zeros(0) == t;
    } else {
      ValueOfZeros(t, n - 1);
      var z := t + Zeros(n);
      assert z[..|z| - 1] == t + Zeros(n - 1);
    }
  }

  lemma {:induction false} LeadingZeros(n: nat, t: Text)
    requires AllDigits(t)
    ensures AllDigits(Zeros(n) + t) && DigitsValue(Zeros(n) + t) == DigitsValue(t)
  {
    if t == [] {
      assert Zeros(n) + t == [] + Zeros(n);
      ValueOfZeros([], n);
    } else {
      var z := Zeros(n) + t;
      LeadingZeros(n, t[..|t| - 1]);
      assert z[..|z| - 1] == Zeros(n) + t[..|t| - 1];
    }
  }

  /** `whole.frac` is the number with these digits and first exponent: both sides as multiples of 10^-|frac|. */
  ghost predicate IsFixed(t: Text, whole: Text, frac: Text, digits: Digits, e: int) {
    && t == whole + ([0x2e] + frac)
    && whole != [] && frac != [] && AllDigits(whole) && AllDigits(frac) && AllDigits(whole + frac)
    && e - |digits| + 1 + |frac| >= 0
    && DigitsValue(whole + frac) == DigitsValue(digits) * Pow10(e - |digits| + 1 + |frac|)
  }

  /** Fixed notation keeps the value and always has a fractional part. */
  lemma FixedKeepsValue(digits: Digits, e: int)
    requires -5 <= e <= 15
    ensures exists whole, frac :: IsFixed(FormatMagnitude(digits, e), whole, frac, digits, e)
  {
    var len := |digits|;
    if len - 1 <= e {
      LongWhole(digits, e);
    } else if e >= 0 {
      Split(digits, e);
    } else {
      Small(digits, e);
    }
  }

  lemma LongWhole(digits: Digits, e: int)
    requires -5 <= e <= 15 && |digits| - 1 <= e
    ensures exists whole, frac :: IsFixed(FormatMagnitude(digits, e), whole, frac, digits, e)
  {
    var n := e - (|digits| - 1);
    var whole, frac := digits + Zeros(n), [0x30];
    ValueOfZeros(digits, n + 1);
    assert whole + frac == digits + Zeros(n + 1);
    assert FormatMagnitude(digits, e) == whole + ([0x2e] + frac);
    assert IsFixed(FormatMagnitude(digits, e), whole, frac, digits, e);
  }

  lemma Split(digits: Digits, e: int)
    requires 0 <= e <= 15 && |digits| - 1 > e
    ensures exists whole, frac :: IsFixed(FormatMagnitude(digits, e), whole, frac, digits, e)
  {
    var whole, frac := digits[..e + 1], digits[e + 1..];
    assert whole + frac == digits;
    assert Pow10(0) == 1;
    assert FormatMagnitude(digits, e) == whole + ([0x2e] + frac);
    assert IsFixed(FormatMagnitude(digits, e), whole, frac, digits, e);
  }

  lemma ZeroIsADigit()
    ensures AllDigits([0x30])
  {
  }

  lemma Small(digits: Digits, e: int)
    requires -5 <= e < 0
    ensures exists whole, frac :: IsFixed(FormatMagnitude(digits, e), whole, frac, digits, e)
  {
    hide AllDigits, DigitsValue;
    var whole, frac := [0x30], Zeros(-e - 1) + digits;
    LeadingZeros(-e, digits);
    LeadingZeros(-e - 1, digits);
    ZeroIsADigit();
    assert whole + frac == Zeros(-e) + digits;
    assert Pow10(0) == 1;
    assert FormatMagnitude(digits, e) == whole + ([0x2e] + frac);
    assert IsFixed(FormatMagnitude(digits, e), whole, frac, digits, e);
  }

  /**
   * `whole`, the point and `frac` if any, and the exponent `exp`: the number is `digits` with its point after the
   * `e`th place.
   */
  ghost predicate IsScientific(t: Text, whole: Text, frac: Text, exp: Text, digits: Digits, e: int) {
    && t == whole + (if frac == [] then [] else [0x2e] + frac) + [0x65, if e < 0 then 0x2d else 0x2b] + exp
    && |whole| == 1 && AllDigits(whole + frac) && IsInt(exp)
    && DigitsValue(whole + frac) == DigitsValue(digits)
    && Signed(e < 0, DigitsValue(exp)) - |frac| == e - |digits| + 1
  }

  function Signed(negative: bool, n: int): int {
    if negative then -n else n
  }

  /** Outside that range scientific notation keeps the value: the same digits, scaled by the same power of ten. */
  lemma ScientificKeepsValue(digits: Digits, e: int)
    requires !(-5 <= e <= 15)
    ensures exists whole, frac, exp :: IsScientific(FormatMagnitude(digits, e), whole, frac, exp, digits, e)
  {
    hide DigitsValue, AllDigits, IsInt, DecimalText;
    var exp := DecimalText(if e < 0 then -e else e);
    TextIsCanonical(if e < 0 then -e else e);
    var whole, frac := digits[..1], digits[1..];
    assert whole == [digits[0]] && whole + frac == digits;
    var layout := whole + (if frac == [] then [] else [0x2e] + frac) + [0x65, if e < 0 then 0x2d else 0x2b] + exp;
    assert FormatMagnitude(digits, e) == layout;
    hide FormatMagnitude;
    assert IsScientific(FormatMagnitude(digits, e), whole, frac, exp, digits, e);
  }

  // ---------------------------------------------------------------- key order

  lemma {:induction false} PointsAreInjective(a: Text, b: Text)
    requires CodePoints(a) == CodePoints(b)
    ensures a == b
  {
    if a != [] && b != [] {
      var m, n := if |a| > 1 && IsHigh(a[0]) && IsLow(a[1]) then 2 else 1, if |b| > 1 && IsHigh(b[0])
          && IsLow(b[1]) then 2 else 1;
      assert CodePoints(a)[1..] == CodePoints(a[m..]) && CodePoints(b)[1..] == CodePoints(b[n..]);
      assert CodePoints(a)[0] == CodePoints(b)[0];
      PointsAreInjective(a[m..], b[n..]);
      assert a == a[..m] + a[m..] && b == b[..n] + b[n..];
    }
  }

  lemma {:induction false} PointsTotal(a: seq<int>, b: seq<int>)
    ensures a != b ==> PointsLess(a, b) || PointsLess(b, a)
    ensures !(PointsLess(a, b) && PointsLess(b, a)) && !PointsLess(a, a)
  {
    if a != [] {
      PointsTotal(a[1..], a[1..]);
      if b != [] {
        PointsTotal(a[1..], b[1..]);
        assert a == [a[0]] + a[1..] && b == [b[0]] + b[1..];
      }
    }
  }

  lemma {:induction false} PointsTransitive(a: seq<int>, b: seq<int>, c: seq<int>)
    requires PointsLess(a, b) && PointsLess(b, c)
    ensures PointsLess(a, c)
  {
    if a != [] && a[0] == b[0] && b[0] == c[0] { PointsTransitive(a[1..], b[1..], c[1..]); }
  }

  lemma KeysTotal(a: Text, b: Text)
    ensures a != b ==> KeyLess(a, b) || KeyLess(b, a)
    ensures !(KeyLess(a, b) && KeyLess(b, a)) && !KeyLess(a, a)
  {
    PointsTotal(CodePoints(a), CodePoints(b));
    if CodePoints(a) == CodePoints(b) { PointsAreInjective(a, b); }
  }

  lemma KeysTransitive(a: Text, b: Text, c: Text)
    requires KeyLess(a, b) && KeyLess(b, c)
    ensures KeyLess(a, c)
  {
    PointsTransitive(CodePoints(a), CodePoints(b), CodePoints(c));
  }

  /** A strict total order on keys. */
  lemma KeysAreOrdered(a: Text, b: Text, c: Text)
    ensures a == b <==> !KeyLess(a, b) && !KeyLess(b, a)
    ensures !(KeyLess(a, b) && KeyLess(b, a))
    ensures KeyLess(a, b) && KeyLess(b, c) ==> KeyLess(a, c)
  {
    hide KeyLess;
    KeysTotal(a, b);
    if KeyLess(a, b) && KeyLess(b, c) { KeysTransitive(a, b, c); }
  }

  ghost predicate Sorted(es: seq<Entry>) {
    forall i, j | 0 <= i < j < |es| :: KeyLess(es[i].key, es[j].key)
  }

  ghost predicate SameEntries(es: seq<Entry>, fs: seq<Entry>) {
    forall e :: e in es <==> e in fs
  }

  lemma {:induction false} InsertSorts(es: seq<Entry>, e: Entry)
    requires Sorted(es) && forall i | 0 <= i < |es| :: es[i].key != e.key
    ensures Sorted(InsertEntry(es, e)) && SameEntries(InsertEntry(es, e), [e] + es)
  {
    hide KeyLess;
    if es != [] {
      KeysTotal(e.key, es[0].key);
      var r := InsertEntry(es, e);
      if KeyLess(e.key, es[0].key) {
        forall j | 0 <= j < |es| ensures KeyLess(e.key, es[j].key) {
          if j > 0 { KeysTransitive(e.key, es[0].key, es[j].key); }
        }
      } else {
        InsertSorts(es[1..], e);
        var rest := InsertEntry(es[1..], e);
        forall j | 0 <= j < |rest| ensures KeyLess(es[0].key, rest[j].key) {
          assert rest[j] in [e] + es[1..];
        }
        assert es == [es[0]] + es[1..];
      }
    }
  }

  ghost predicate UniqueKeys(es: seq<Entry>) {
    forall i, j | 0 <= i < j < |es| :: es[i].key != es[j].key
  }

  lemma {:induction false} SortSorts(es: seq<Entry>)
    requires UniqueKeys(es)
    ensures Sorted(SortEntries(es)) && SameEntries(SortEntries(es), es)
  {
    hide KeyLess, InsertEntry;
    if es != [] {
      SortSorts(es[1..]);
      var rest := SortEntries(es[1..]);
      forall i | 0 <= i < |rest| ensures rest[i].key != es[0].key {
        assert rest[i] in es[1..];
      }
      InsertSorts(rest, es[0]);
      assert es == [es[0]] + es[1..];
    }
  }

  lemma {:induction false} SortedIsUnique(es: seq<Entry>, fs: seq<Entry>)
    requires Sorted(es) && Sorted(fs) && SameEntries(es, fs)
    ensures es == fs
  {
    hide KeyLess;
    assert es != [] ==> es[0] in es;
    assert fs != [] ==> fs[0] in fs;
    if es != [] && fs != [] {
      HeadsAgree(es, fs);
      HeadNotInTail(es);
      HeadNotInTail(fs);
      forall e ensures e in es[1..] <==> e in fs[1..] {
        assert e in es <==> e in fs;
        InOrHead(es, e);
        InOrHead(fs, e);
      }
      assert es == [es[0]] + es[1..] && fs == [fs[0]] + fs[1..];
      SortedIsUnique(es[1..], fs[1..]);
    }
  }

  lemma InOrHead(es: seq<Entry>, e: Entry)
    requires es != []
    ensures e in es <==> e == es[0] || e in es[1..]
  {
    assert es == [es[0]] + es[1..];
  }

  lemma HeadNotInTail(es: seq<Entry>)
    requires es != [] && Sorted(es)
    ensures es[0] !in es[1..]
  {
    hide KeyLess;
    KeysTotal(es[0].key, es[0].key);
  }

  lemma HeadsAgree(es: seq<Entry>, fs: seq<Entry>)
    requires es != [] && fs != [] && Sorted(es) && Sorted(fs) && SameEntries(es, fs)
    ensures es[0] == fs[0]
  {
    hide KeyLess;
    KeysTotal(es[0].key, fs[0].key);
    assert es[0] in fs && fs[0] in es;
    var i :| 0 <= i < |fs| && fs[i] == es[0];
    var j :| 0 <= j < |es| && es[j] == fs[0];
  }

  // ---------------------------------------------------------------- objects as maps

  ghost predicate UniqueMembers(ms: seq<Member>) {
    forall i, j | 0 <= i < j < |ms| :: ms[i].key != ms[j].key
  }

  /** The same value, but for the order of members, at any depth. */
  ghost predicate Same(a: Value, b: Value)
    decreases a
  {
    if a.Arr? && b.Arr? then
      |a.items| == |b.items| && forall i | 0 <= i < |a.items| :: Same(a.items[i], b.items[i])
    else if a.Obj? && b.Obj? then
      && UniqueMembers(a.members) && UniqueMembers(b.members)
      && (forall i | 0 <= i < |a.members| :: HasTwin(a.members[i], b.members))
      && (forall j | 0 <= j < |b.members| :: IsTwin(a.members, b.members[j]))
    else a == b
  }

  ghost predicate SameMember(m: Member, n: Member)
    decreases m, 0
  {
    m.key == n.key && Same(m.value, n.value)
  }

  ghost predicate HasTwin(m: Member, ns: seq<Member>)
    decreases m, 1
  {
    exists j :: 0 <= j < |ns| && SameMember(m, ns[j])
  }

  ghost predicate IsTwin(ms: seq<Member>, n: Member)
    decreases ms
  {
    exists i :: 0 <= i < |ms| && SameMember(ms[i], n)
  }

  lemma {:induction false} ItemsFollow(number: Reading, items: seq<Value>)
    ensures EncItems(number, items).Some? <==> forall i | 0 <= i < |items| :: EncValue(number, items[i]).Some?
    ensures EncItems(number, items).Some? ==>
              forall i | 0 <= i < |items| :: Some(EncItems(number, items).value[i]) == EncValue(number, items[i])
  {
    hide EncValue;
    if items != [] {
      ItemsFollow(number, items[1..]);
      assert items == [items[0]] + items[1..];
    }
  }

  lemma {:induction false} EntriesFollow(number: Reading, ms: seq<Member>)
    ensures EncEntries(number, ms).Some? <==> forall i | 0 <= i < |ms| :: EncValue(number, ms[i].value).Some?
    ensures EncEntries(number, ms).Some? ==>
              forall i | 0 <= i < |ms| ::
                EncEntries(number, ms).value[i].key == ms[i].key
                    && Some(EncEntries(number, ms).value[i].text) == EncValue(number, ms[i].value)
  {
    hide EncValue;
    if ms != [] {
      EntriesFollow(number, ms[1..]);
      assert ms == [ms[0]] + ms[1..];
    }
  }

  /** A member of `ns` with the same key and the same encoding. */
  ghost predicate EncodedIn(number: Reading, m: Member, ns: seq<Member>) {
    exists j :: 0 <= j < |ns| && ns[j].key == m.key && EncValue(number, m.value) == EncValue(number, ns[j].value)
  }

  lemma EntriesAreIn(number: Reading, ms: seq<Member>, ns: seq<Member>)
    requires forall i | 0 <= i < |ms| :: EncodedIn(number, ms[i], ns)
    ensures EncEntries(number, ns).Some? ==>
              EncEntries(number, ms).Some? && forall e | e in EncEntries(number, ms).value ::
                    e in EncEntries(number, ns).value
  {
    hide EncValue, EncEntries, EncodedIn;
    EntriesFollow(number, ms);
    if EncEntries(number, ns).Some? {
      forall i | 0 <= i < |ms|
        ensures EncValue(number, ms[i].value).Some?
                && Entry(ms[i].key, EncValue(number, ms[i].value).value) in EncEntries(number, ns).value
      {
        EntryIsIn(number, ms[i], ns);
      }
    }
  }

  lemma EntryIsIn(number: Reading, m: Member, ns: seq<Member>)
    requires EncodedIn(number, m, ns) && EncEntries(number, ns).Some?
    ensures EncValue(number, m.value).Some?
            && Entry(m.key, EncValue(number, m.value).value) in EncEntries(number, ns).value
  {
    hide EncValue, EncEntries;
    EntriesFollow(number, ns);
    var j :| 0 <= j < |ns| && ns[j].key == m.key && EncValue(number, m.value) == EncValue(number, ns[j].value);
    assert EncEntries(number, ns).value[j] == Entry(m.key, EncValue(number, m.value).value);
  }

  lemma MembersEncodeAlike(number: Reading, ms: seq<Member>, ns: seq<Member>)
    requires UniqueMembers(ms) && UniqueMembers(ns)
    requires forall i | 0 <= i < |ms| :: EncodedIn(number, ms[i], ns)
    requires forall j | 0 <= j < |ns| :: EncodedIn(number, ns[j], ms)
    ensures EncValue(number, Obj(ms)) == EncValue(number, Obj(ns))
  {
    hide EncEntries, SortEntries, EntryTexts, Braces, EncodedIn, KeyLess;
    EntriesAreIn(number, ms, ns);
    EntriesAreIn(number, ns, ms);
    EntriesFollow(number, ms);
    EntriesFollow(number, ns);
    if EncEntries(number, ms).Some? {
      var es, fs := EncEntries(number, ms).value, EncEntries(number, ns).value;
      SortSorts(es);
      SortSorts(fs);
      assert SameEntries(es, fs);
      SortedIsUnique(SortEntries(es), SortEntries(fs));
    }
  }

  lemma ArraysEncodeAlike(number: Reading, xs: seq<Value>, ys: seq<Value>)
    requires |xs| == |ys| && forall i | 0 <= i < |xs| :: EncValue(number, xs[i]) == EncValue(number, ys[i])
    ensures EncValue(number, Arr(xs)) == EncValue(number, Arr(ys))
  {
    hide EncItems, Brackets;
    ItemsFollow(number, xs);
    ItemsFollow(number, ys);
    if EncItems(number, xs).Some? { assert EncItems(number, xs).value == EncItems(number, ys).value; }
  }

  /** Values that differ only in the order in which members were inserted, at any depth, have the same encoding. */
  lemma {:induction false} ObjectsAreMaps(number: Reading, a: Value, b: Value)
    requires Same(a, b)
    ensures EncValue(number, a) == EncValue(number, b)
    decreases a, 2
  {
    hide EncValue, EncItems, EncEntries, SameMember, HasTwin, IsTwin, EncodedIn;
    if a.Arr? && b.Arr? {
      forall i | 0 <= i < |a.items| ensures EncValue(number, a.items[i]) == EncValue(number, b.items[i]) {
        ObjectsAreMaps(number, a.items[i], b.items[i]);
      }
      ArraysEncodeAlike(number, a.items, b.items);
    } else if a.Obj? && b.Obj? {
      forall i | 0 <= i < |a.members| ensures EncodedIn(number, a.members[i], b.members) {
        TwinEncodes(number, a.members[i], b.members);
      }
      forall j | 0 <= j < |b.members| ensures EncodedIn(number, b.members[j], a.members) {
        TwinOfEncodes(number, a.members, b.members[j]);
      }
      MembersEncodeAlike(number, a.members, b.members);
    }
  }

  lemma {:induction false} TwinEncodes(number: Reading, m: Member, ns: seq<Member>)
    requires HasTwin(m, ns)
    ensures EncodedIn(number, m, ns)
    decreases m, 0
  {
    hide EncValue, Same;
    var j :| 0 <= j < |ns| && SameMember(m, ns[j]);
    ObjectsAreMaps(number, m.value, ns[j].value);
  }

  lemma {:induction false} TwinOfEncodes(number: Reading, ms: seq<Member>, n: Member)
    requires IsTwin(ms, n)
    ensures EncodedIn(number, n, ms)
    decreases ms, 0
  {
    hide EncValue, Same;
    var i :| 0 <= i < |ms| && SameMember(ms[i], n);
    ObjectsAreMaps(number, ms[i].value, n.value);
  }
}
