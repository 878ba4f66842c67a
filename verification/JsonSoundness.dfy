/** Whatever the parser accepts is a well-formed value nested at most 256 deep. */
module JsonSoundness {
  import opened Json
  import opened JsonRoundTrip

  /** What was consumed when `r` is left of `t`. */
  function Taken(t: Text, r: Text): Text
    requires |r| <= |t|
  {
    t[..|t| - |r|]
  }

  /** `r` is what is left of `t`. */
  ghost predicate Left(t: Text, r: Text) {
    |r| <= |t| && t == Taken(t, r) + r
  }

  lemma {:induction false} DigitsTaken(t: Text)
    ensures Left(t, DropDigits(t)) && AllDigits(Taken(t, DropDigits(t)))
  {
    if t != [] && IsDigit(t[0]) {
      DigitsTaken(t[1..]);
      assert t == [t[0]] + t[1..];
      assert Taken(t, DropDigits(t)) == [t[0]] + Taken(t[1..], DropDigits(t[1..]));
    }
  }

  lemma MinusTaken(t: Text)
    ensures Left(t, DropMinus(t)) && IsMinus(Taken(t, DropMinus(t)))
  {
  }

  lemma IntTaken(t: Text)
    requires StartsWithDigit(t)
    ensures Left(t, DropInt(t)) && IsInt(Taken(t, DropInt(t)))
  {
    DigitsTaken(t[1..]);
    assert t == [t[0]] + t[1..];
    if t[0] != 0x30 {
      assert Taken(t, DropInt(t)) == [t[0]] + Taken(t[1..], DropDigits(t[1..]));
    }
  }

  lemma FracTaken(t: Text)
    ensures Left(t, DropFrac(t)) && IsFrac(Taken(t, DropFrac(t)))
  {
    if DropFrac(t) != t {
      DigitsTaken(t[1..]);
      assert t == [t[0]] + t[1..];
      var d := Taken(t[1..], DropDigits(t[1..]));
      SomeDigits(t[1..]);
      assert Taken(t, DropFrac(t)) == [t[0]] + d;
      assert ([t[0]] + d)[1..] == d;
    }
  }

  lemma SomeDigits(t: Text)
    requires StartsWithDigit(t)
    ensures |DropDigits(t)| < |t|
  {
  }

  lemma ExpTaken(t: Text)
    ensures Left(t, DropExp(t)) && IsExp(Taken(t, DropExp(t)))
  {
    if DropExp(t) != t {
      var u := DropSign(t[1..]);
      DigitsTaken(u);
      SomeDigits(u);
      LongExp(t, u, DropDigits(u));
    }
  }

  lemma LongExp(t: Text, u: Text, r: Text)
    requires t != [] && t[0] in {0x65, 0x45} && u == DropSign(t[1..])
    requires Left(u, r) && |r| < |u| && AllDigits(Taken(u, r))
    ensures Left(t, r) && IsExp(Taken(t, r))
  {
    hide AllDigits, IsExp, Taken, Left;
    ExpHead(t, u);
    TakenTwice(t, u, r);
    TakenSize(u, r);
    ExpShape(Taken(t, u), Taken(u, r));
    LeftIsShorter(t, r);
  }

  lemma TakenSize(t: Text, r: Text)
    requires |r| <= |t|
    ensures |Taken(t, r)| == |t| - |r|
  {
  }

  /** The exponent mark and its optional sign. */
  ghost predicate IsExpHead(head: Text) {
    && 0 < |head| <= 2
    && head[0] in {0x65, 0x45}
    && (|head| == 2 ==> head[1] in {0x2b, 0x2d})
  }

  lemma ExpHead(t: Text, u: Text)
    requires t != [] && t[0] in {0x65, 0x45} && u == DropSign(t[1..])
    ensures Left(t, u) && IsExpHead(Taken(t, u))
  {
  }

  lemma ExpShape(head: Text, d: Text)
    requires IsExpHead(head) && d != [] && AllDigits(d)
    ensures IsExp(head + d)
  {
    hide AllDigits;
    assert (head + d)[|head|..] == d;
  }

  lemma NumberTaken(t: Text)
    requires DropNumber(t).Some?
    ensures Left(t, DropNumber(t).value) && IsNumber(Taken(t, DropNumber(t).value))
  {
    var a := DropMinus(t);
    MinusTaken(t);
    IntTaken(a);
    var b := DropInt(a);
    FracTaken(b);
    var c := DropFrac(b);
    ExpTaken(c);
    var d := DropExp(c);
    FourParts(t, a, b, c, d);
  }

  lemma TakenTwice(t: Text, a: Text, b: Text)
    requires Left(t, a) && Left(a, b)
    ensures Left(t, b) && Taken(t, b) == Taken(t, a) + Taken(a, b)
  {
  }

  lemma FourParts(t: Text, a: Text, b: Text, c: Text, d: Text)
    requires Left(t, a) && Left(a, b) && Left(b, c) && Left(c, d)
    requires IsMinus(Taken(t, a)) && IsInt(Taken(a, b)) && IsFrac(Taken(b, c)) && IsExp(Taken(c, d))
    ensures Left(t, d) && IsNumber(Taken(t, d))
  {
    hide Taken, Left, IsMinus, IsInt, IsFrac, IsExp;
    LeftIsShorter(t, a);
    LeftIsShorter(a, b);
    LeftIsShorter(b, c);
    LeftIsShorter(c, d);
    TakenTwice(b, c, d);
    TakenTwice(a, b, d);
    TakenTwice(t, a, d);
  }

  lemma LeftIsShorter(t: Text, r: Text)
    requires Left(t, r)
    ensures |r| <= |t|
  {
  }

  // ---------------------------------------------------------------- members

  lemma {:induction false} InsertKeepsOwnOrder(ms: seq<Member>, m: Member)
    requires OwnOrder(ms) && !HasKey(ms, m.key)
    ensures OwnOrder(InsertMember(ms, m)) && |InsertMember(ms, m)| == |ms| + 1
    ensures forall i | 0 <= i <= |ms| :: InsertMember(ms, m)[i] == m || InsertMember(ms, m)[i] in ms
  {
    if ms != [] {
      var rest := ms[1..];
      assert forall i | 0 <= i < |rest| :: rest[i] == ms[i + 1];
      if KeyBefore(m.key, ms[0].key) {
        forall j | 0 <= j < |ms| ensures ms[j].key != m.key && !KeyBefore(ms[j].key, m.key) {
          assert j > 0 ==> !KeyBefore(ms[j].key, ms[0].key);
        }
      } else {
        InsertKeepsOwnOrder(rest, m);
        var r := InsertMember(rest, m);
        forall j | 0 <= j < |r| ensures r[j].key != ms[0].key && !KeyBefore(r[j].key, ms[0].key) {
          if r[j] != m {
            var k :| 0 <= k < |rest| && rest[k] == r[j];
            assert ms[k + 1] == r[j];
          }
        }
      }
    }
  }

  lemma {:induction false} InsertKeepsDepth(ms: seq<Member>, m: Member)
    ensures MembersDepth(InsertMember(ms, m)) == Max(MembersDepth(ms), Depth(m.value))
  {
    hide Depth;
    var r := InsertMember(ms, m);
    if ms == [] {
      assert r[1..] == [];
    } else if KeyBefore(m.key, ms[0].key) {
      assert r[1..] == ms;
    } else {
      InsertKeepsDepth(ms[1..], m);
      assert r[1..] == InsertMember(ms[1..], m);
    }
  }

  lemma {:induction false} AppendKeepsDepth(items: seq<Value>, v: Value)
    ensures ItemsDepth(items + [v]) == Max(ItemsDepth(items), Depth(v))
  {
    hide Depth;
    if items == [] {
      assert (items + [v])[1..] == [];
    } else {
      AppendKeepsDepth(items[1..], v);
      assert (items + [v])[1..] == items[1..] + [v];
    }
  }

  // ---------------------------------------------------------------- values

  /** A value read at `depth` that fits under the nesting limit. */
  ghost predicate Fits(v: Value, depth: nat) {
    WellFormed(v) && depth + Depth(v) <= MAX_DEPTH
  }

  ghost predicate ItemsFit(items: seq<Value>, depth: nat) {
    && (forall i | 0 <= i < |items| :: WellFormed(items[i]))
    && depth + 1 + ItemsDepth(items) <= MAX_DEPTH + (if items == [] then 1 else 0)
  }

  ghost predicate MembersFit(ms: seq<Member>, depth: nat) {
    && OwnOrder(ms) && (forall i | 0 <= i < |ms| :: WellFormed(ms[i].value))
    && depth + 1 + MembersDepth(ms) <= MAX_DEPTH + (if ms == [] then 1 else 0)
  }

  lemma {:induction false} ParsedValueFits(t: Text, depth: nat)
    requires ParseValue(t, depth).Some?
    ensures Fits(ParseValue(t, depth).value.0, depth)
    decreases |t|, 1
  {
    hide ParseItems, ParseMembers, SkipSpace, DropNumber, ParseString, MembersDepth, ItemsDepth;
    var u := SkipSpace(t);
    var w := SkipSpace(u[1..]);
    if u[0] == LBRACE && !(w != [] && w[0] == RBRACE) {
      EmptyFits(depth);
      ParsedMembersFit(w, depth, []);
    } else if u[0] == LBRACKET && !(w != [] && w[0] == RBRACKET) {
      EmptyFits(depth);
      ParsedItemsFit(w, depth, []);
    } else if u[0] !in {LBRACE, LBRACKET, QUOTE} && ParseValue(t, depth).value.0.Num? {
      NumberTaken(u);
    }
  }

  lemma EmptyFits(depth: nat)
    requires depth <= MAX_DEPTH
    ensures ItemsFit([], depth) && MembersFit([], depth)
  {
  }

  lemma {:induction false} ParsedItemsFit(t: Text, depth: nat, done: seq<Value>)
    requires ItemsFit(done, depth) && depth <= MAX_DEPTH && ParseItems(t, depth, done).Some?
    ensures Fits(ParseItems(t, depth, done).value.0, depth)
    decreases |t|, 2
  {
    hide ParseValue, SkipSpace, WellFormed, Depth, ItemsDepth;
    var v := ParseValue(t, depth + 1);
    ParsedValueFits(t, depth + 1);
    var more := done + [v.value.0];
    ItemFits(done, v.value.0, depth);
    var u := SkipSpace(v.value.1);
    if u[0] == COMMA {
      ParsedItemsFit(u[1..], depth, more);
    } else {
      ArrayFits(more, depth);
    }
  }

  lemma ItemFits(done: seq<Value>, v: Value, depth: nat)
    requires ItemsFit(done, depth) && Fits(v, depth + 1)
    ensures ItemsFit(done + [v], depth)
  {
    hide WellFormed, Depth;
    AppendKeepsDepth(done, v);
    DepthSteps([], []);
  }

  lemma ArrayFits(items: seq<Value>, depth: nat)
    requires ItemsFit(items, depth) && items != []
    ensures Fits(Arr(items), depth)
  {
    hide ItemsDepth;
  }

  lemma {:induction false} ParsedMembersFit(t: Text, depth: nat, done: seq<Member>)
    requires MembersFit(done, depth) && depth <= MAX_DEPTH && ParseMembers(t, depth, done).Some?
    ensures Fits(ParseMembers(t, depth, done).value.0, depth)
    decreases |t|, 0
  {
    hide ParseValue, SkipSpace, WellFormed, Depth, MembersDepth, OwnOrder, ParseKey, HasKey, InsertMember;
    var k := ParseKey(t);
    var v := ParseValue(k.value.1, depth + 1);
    ParsedValueFits(k.value.1, depth + 1);
    var m := Member(k.value.0, v.value.0);
    MemberFits(done, m, depth);
    var more := InsertMember(done, m);
    var u := SkipSpace(v.value.1);
    if u[0] == COMMA {
      ParsedMembersFit(u[1..], depth, more);
    } else {
      ObjectFits(more, depth);
    }
  }

  lemma MemberFits(done: seq<Member>, m: Member, depth: nat)
    requires MembersFit(done, depth) && Fits(m.value, depth + 1) && !HasKey(done, m.key)
    ensures InsertMember(done, m) != [] && MembersFit(InsertMember(done, m), depth)
  {
    hide WellFormed, Depth, OwnOrder;
    InsertKeepsDepth(done, m);
    InsertKeepsOwnOrder(done, m);
    DepthSteps([], []);
  }

  lemma ObjectFits(ms: seq<Member>, depth: nat)
    requires MembersFit(ms, depth) && ms != []
    ensures Fits(Obj(ms), depth)
  {
    hide MembersDepth, OwnOrder;
  }

  /** Accepted text means a printable value: printing it and parsing again changes nothing. */
  lemma ParseIsStable(t: Text)
    requires Parse(t).Some?
    ensures WellFormed(Parse(t).value) && Depth(Parse(t).value) <= MAX_DEPTH
    ensures Parse(Print(Parse(t).value)) == Parse(t)
  {
    hide ParseValue, WellFormed, Depth, Print, SkipSpace;
    ParsedValueFits(t, 0);
    RoundTrip(Parse(t).value);
  }
}
