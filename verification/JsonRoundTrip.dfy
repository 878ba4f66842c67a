/** Parsing undoes printing, for every value that can be printed. */
module JsonRoundTrip {
  import opened Common
  import opened Json

  // ---------------------------------------------------------------- strings

  lemma HexRoundTrip(n: int)
    requires 0 <= n < 16
    ensures HexValue(HexDigit(n)) == Some(n)
  {
  }

  lemma HexQuad(c: CodeUnit)
    ensures (c / 0x1000) * 0x1000 + (c / 0x100 % 16) * 0x100 + (c / 16 % 16) * 16 + c % 16 == c
  {
    assert c / 0x100 == c / 16 / 16 && c / 0x1000 == c / 0x100 / 16;
    assert c == (c / 16) * 16 + c % 16;
    assert c / 16 == (c / 0x100) * 16 + c / 16 % 16;
    assert c / 0x100 == (c / 0x1000) * 16 + c / 0x100 % 16;
  }

  lemma UnicodeEscapeReadsBack(c: CodeUnit, rest: Text)
    ensures UnescapeUnit(UnicodeEscape(c) + rest) == Some((c, 6))
  {
    hide HexValue, HexDigit, SimpleEscape;
    var w, x, y, z := c / 0x1000, c / 0x100 % 16, c / 16 % 16, c % 16;
    HexRoundTrip(w);
    HexRoundTrip(x);
    HexRoundTrip(y);
    HexRoundTrip(z);
    HexQuad(c);
    var t := UnicodeEscape(c) + rest;
    assert t[0] == BACKSLASH && t[1] == 0x75;
    assert t[2] == HexDigit(w) && t[3] == HexDigit(x) && t[4] == HexDigit(y) && t[5] == HexDigit(z);
  }

  lemma EscapedUnitReadsBack(c: CodeUnit, rest: Text)
    ensures UnescapeUnit(EscapeUnit(c) + rest) == Some((c, |EscapeUnit(c)|))
  {
    hide UnescapeUnit, UnicodeEscape;
    var e := EscapeUnit(c);
    UnicodeEscapeIsSix(c);
    if |e| == 1 {
      PlainReadsBack(c, rest);
    } else if |e| == 2 && e[0] == BACKSLASH && SimpleEscape(e[1]) == Some(c) {
      SimpleEscapeReadsBack(c, e[1], rest);
      assert e == [BACKSLASH, e[1]];
    } else {
      UnicodeEscapeReadsBack(c, rest);
    }
  }

  lemma UnicodeEscapeIsSix(c: CodeUnit)
    ensures |UnicodeEscape(c)| == 6
  {
  }

  lemma PlainReadsBack(c: CodeUnit, rest: Text)
    requires IsPlain(c)
    ensures UnescapeUnit([c] + rest) == Some((c, 1))
  {
  }

  lemma SimpleEscapeReadsBack(c: CodeUnit, x: CodeUnit, rest: Text)
    requires SimpleEscape(x) == Some(c)
    ensures UnescapeUnit([BACKSLASH, x] + rest) == Some((c, 2))
  {
    hide HexValue;
  }

  lemma UnescapeStep(c: CodeUnit, e: Text, s: Text)
    requires Unescape(e) == Some(s)
    ensures Unescape(EscapeUnit(c) + e) == Some([c] + s)
  {
    hide EscapeUnit, UnescapeUnit;
    EscapedUnitReadsBack(c, e);
    assert (EscapeUnit(c) + e)[|EscapeUnit(c)|..] == e;
  }

  lemma UnescapePair(high: CodeUnit, low: CodeUnit, e: Text, s: Text)
    requires IsHigh(high) && IsLow(low) && Unescape(e) == Some(s)
    ensures Unescape([high, low] + e) == Some([high, low] + s)
  {
    var t := [high, low] + e;
    assert t[1..] == [low] + e && t[1..][1..] == e;
    assert [high] + ([low] + s) == [high, low] + s;
  }

  lemma {:induction false} UnescapeInvertsEscape(s: Text)
    ensures Unescape(Escape(s)) == Some(s)
  {
    hide EscapeUnit, Unescape, UnescapeUnit;
    if s == [] {
      EmptyReadsBack();
    } else if IsHigh(s[0]) && |s| > 1 && IsLow(s[1]) {
      UnescapeInvertsEscape(s[2..]);
      UnescapePair(s[0], s[1], Escape(s[2..]), s[2..]);
      assert s == [s[0], s[1]] + s[2..] && s[..2] == [s[0], s[1]];
    } else {
      UnescapeInvertsEscape(s[1..]);
      UnescapeStep(s[0], Escape(s[1..]), s[1..]);
      assert s == [s[0]] + s[1..];
    }
  }

  lemma EmptyReadsBack()
    ensures Unescape([]) == Some([])
  {
  }

  ghost function Plus(n: Option<nat>, k: nat): Option<nat> {
    if n.None? then None else Some(n.value + k)
  }

  predicate IsPlain(c: CodeUnit) { c >= 0x20 && c != QUOTE && c != BACKSLASH }

  lemma ScanPassesPlain(c: CodeUnit, rest: Text)
    requires IsPlain(c)
    ensures StringLength([c] + rest) == Plus(StringLength(rest), 1)
  {
    assert ([c] + rest)[1..] == rest;
  }

  lemma ScanPassesEscape(c: CodeUnit, rest: Text)
    ensures StringLength([BACKSLASH, c] + rest) == Plus(StringLength(rest), 2)
  {
    assert ([BACKSLASH, c] + rest)[2..] == rest;
  }

  lemma ScanPassesUnicodeEscape(c: CodeUnit, rest: Text)
    ensures StringLength(UnicodeEscape(c) + rest) == Plus(StringLength(rest), 6)
  {
    hide StringLength;
    assert forall n | 0 <= n < 16 :: IsPlain(HexDigit(n));
    var w, x, y, z := HexDigit(c / 0x1000), HexDigit(c / 0x100 % 16), HexDigit(c / 16 % 16), HexDigit(c % 16);
    ScanPassesPlain(z, rest);
    ScanPassesPlain(y, [z] + rest);
    ScanPassesPlain(x, [y] + ([z] + rest));
    ScanPassesPlain(w, [x] + ([y] + ([z] + rest)));
    ScanPassesEscape(0x75, [w] + ([x] + ([y] + ([z] + rest))));
    assert UnicodeEscape(c) + rest == [BACKSLASH, 0x75] + ([w] + ([x] + ([y] + ([z] + rest))));
  }

  /** The scanner walks over an escaped code unit without stopping. */
  lemma ScanPassesUnit(c: CodeUnit, rest: Text)
    ensures StringLength(EscapeUnit(c) + rest) == Plus(StringLength(rest), |EscapeUnit(c)|)
  {
    hide StringLength;
    var e := EscapeUnit(c);
    if |e| == 1 {
      ScanPassesPlain(c, rest);
    } else if |e| == 2 {
      ScanPassesEscape(e[1], rest);
      assert e == [BACKSLASH, e[1]];
    } else {
      ScanPassesUnicodeEscape(c, rest);
    }
  }

  lemma {:induction false} ScanFindsTheQuote(s: Text, post: Text)
    ensures StringLength(Escape(s) + ([QUOTE] + post)) == Some(|Escape(s)| + 1)
  {
    hide EscapeUnit, StringLength;
    var rest := [QUOTE] + post;
    if s == [] {
      assert Escape(s) + rest == rest;
      ScanStops(post);
    } else if IsHigh(s[0]) && |s| > 1 && IsLow(s[1]) {
      ScanFindsTheQuote(s[2..], post);
      ScanPassesPlain(s[1], Escape(s[2..]) + rest);
      ScanPassesPlain(s[0], [s[1]] + (Escape(s[2..]) + rest));
      assert Escape(s) + rest == [s[0]] + ([s[1]] + (Escape(s[2..]) + rest));
    } else {
      ScanFindsTheQuote(s[1..], post);
      ScanPassesUnit(s[0], Escape(s[1..]) + rest);
      Associative(EscapeUnit(s[0]), Escape(s[1..]), rest);
    }
  }

  lemma ScanStops(post: Text)
    ensures StringLength([QUOTE] + post) == Some(1)
  {
  }

  lemma QuotedStringReadsBack(s: Text, post: Text)
    ensures ParseString(Quote(s) + post) == Some((s, post))
  {
    hide Escape, Unescape, StringLength;
    var e := Escape(s);
    ScanFindsTheQuote(s, post);
    UnescapeInvertsEscape(s);
    var t := Quote(s) + post;
    Associative([QUOTE] + e, [QUOTE], post);
    Associative([QUOTE], e, [QUOTE] + post);
    assert t == [QUOTE] + (e + ([QUOTE] + post));
    assert t[1..] == e + ([QUOTE] + post);
    assert t[1..|e| + 1] == t[1..][..|e|] == e;
    assert t[|e| + 2..] == t[1..][|e| + 1..] == post;
  }

  // ---------------------------------------------------------------- numbers

  /** What may follow a number without being read as part of it. */
  predicate Stops(post: Text) {
    post == [] || (!IsDigit(post[0]) && post[0] !in {0x2e, 0x65, 0x45})
  }

  predicate NoDigit(post: Text) { post == [] || !IsDigit(post[0]) }

  lemma {:induction false} DigitsStopHere(digits: Text, post: Text)
    requires AllDigits(digits) && NoDigit(post)
    ensures DropDigits(digits + post) == post
  {
    if digits == [] {
      assert digits + post == post;
    } else {
      assert (digits + post)[1..] == digits[1..] + post;
      DigitsStopHere(digits[1..], post);
    }
  }

  lemma IntStopsHere(whole: Text, post: Text)
    requires IsInt(whole) && NoDigit(post)
    ensures StartsWithDigit(whole + post) && DropInt(whole + post) == post
  {
    DigitsStopHere(whole[1..], post);
    assert (whole + post)[1..] == whole[1..] + post;
    if |whole| == 1 { assert whole[1..] + post == post; }
  }

  lemma FracStopsHere(frac: Text, post: Text)
    requires IsFrac(frac) && NoDigit(post) && (post != [] ==> post[0] != 0x2e)
    ensures DropFrac(frac + post) == post && NoDigit(frac + post)
  {
    if frac == [] {
      assert frac + post == post;
    } else {
      DigitsStopHere(frac[1..], post);
      assert (frac + post)[1..] == frac[1..] + post;
      assert frac[1..][0] == frac[1];
    }
  }

  lemma ExpStopsHere(exp: Text, post: Text)
    requires IsExp(exp) && Stops(post)
    ensures DropExp(exp + post) == post && NoDigit(exp + post) && (exp + post != [] ==> (exp + post)[0] != 0x2e)
  {
    if exp == [] {
      assert exp + post == post;
    } else {
      var t := exp[1..] + post;
      assert (exp + post)[1..] == t;
      if AllDigits(exp[1..]) {
        DigitsStopHere(exp[1..], post);
        assert t[0] == exp[1..][0];
      } else {
        DigitsStopHere(exp[2..], post);
        assert t[1..] == exp[2..] + post;
        assert t[0] == exp[1] && exp[2..][0] == exp[2];
      }
    }
  }

  lemma NumberReadsBack(n: Text, post: Text)
    requires IsNumber(n) && Stops(post)
    ensures DropNumber(n + post) == Some(post)
    ensures n != [] && (n[0] == 0x2d || IsDigit(n[0]))
  {
    hide DropNumber;
    var minus: Text, whole: Text, frac: Text, exp: Text :|
      n == minus + (whole + (frac + exp)) && IsMinus(minus) && IsInt(whole) && IsFrac(frac) && IsExp(exp);
    NumberPartsReadBack(minus, whole, frac, exp, post);
    Associative(minus, whole + (frac + exp), post);
    Associative(whole, frac + exp, post);
    Associative(frac, exp, post);
  }

  lemma NumberPartsReadBack(minus: Text, whole: Text, frac: Text, exp: Text, post: Text)
    requires IsMinus(minus) && IsInt(whole) && IsFrac(frac) && IsExp(exp) && Stops(post)
    ensures DropNumber(minus + (whole + (frac + (exp + post)))) == Some(post)
  {
    hide DropInt, DropFrac, DropExp;
    ExpStopsHere(exp, post);
    FracStopsHere(frac, exp + post);
    IntStopsHere(whole, frac + (exp + post));
    MinusStopsHere(minus, whole + (frac + (exp + post)));
  }

  lemma MinusStopsHere(minus: Text, post: Text)
    requires IsMinus(minus) && StartsWithDigit(post)
    ensures DropMinus(minus + post) == post
  {
    assert [] + post == post;
    assert ([0x2d] + post)[1..] == post;
  }

  // ---------------------------------------------------------------- values

  /** Values the parser can produce: number text in the grammar, keys distinct and in own-property order. */
  ghost predicate WellFormed(v: Value) {
    match v
    case Num(raw) => IsNumber(raw)
    case Arr(items) => forall i | 0 <= i < |items| :: WellFormed(items[i])
    case Obj(ms) => OwnOrder(ms) && forall i | 0 <= i < |ms| :: WellFormed(ms[i].value)
    case _ => true
  }

  function Max(a: nat, b: nat): nat { if a < b then b else a }

  /** How many containers a value sits under its own root, at most. */
  function Depth(v: Value): nat
    decreases v, 1
  {
    match v
    case Arr(items) => if items == [] then 0 else 1 + ItemsDepth(items)
    case Obj(ms) => if ms == [] then 0 else 1 + MembersDepth(ms)
    case _ => 0
  }

  function ItemsDepth(items: seq<Value>): nat
    decreases items, 0
  {
    if items == [] then 0 else Max(Depth(items[0]), ItemsDepth(items[1..]))
  }

  function MembersDepth(ms: seq<Member>): nat
    decreases ms, 0
  {
    if ms == [] then 0 else Max(Depth(ms[0].value), MembersDepth(ms[1..]))
  }

  /** What a parser reading `v` at `depth`, with `post` after it, must answer. */
  ghost function Expected(v: Value, height: nat, post: Text): Option<(Value, Text)> {
    if height <= MAX_DEPTH then Some((v, post)) else None
  }

  predicate IsValueStart(c: CodeUnit) {
    !IsSpace(c) && c !in {RBRACKET, RBRACE, COMMA, COLON}
  }

  lemma PrintStarts(v: Value)
    requires WellFormed(v)
    ensures Print(v) != [] && IsValueStart(Print(v)[0])
  {
    if v.Num? {
      assert v.raw + [] == v.raw;
      NumberReadsBack(v.raw, []);
    }
  }

  lemma NoSpaceToSkip(t: Text)
    requires t != [] && !IsSpace(t[0])
    ensures SkipSpace(t) == t
  {
  }

  lemma {:induction false} ScalarReadsBack(v: Value, depth: nat, post: Text)
    requires WellFormed(v) && !v.Arr? && !v.Obj? && Stops(post)
    ensures ParseValue(Print(v) + post, depth) == Expected(v, depth, post)
  {
    hide ParseItems, ParseMembers, SkipSpace, DropNumber, ParseString, Quote;
    var t := Print(v) + post;
    PrintStarts(v);
    NoSpaceToSkip(t);
    match v
    case Str(s) =>
      QuotedStringReadsBack(s, post);
      QuoteStarts(s);
    case Num(raw) =>
      NumberReadsBack(raw, post);
      assert t[..|raw|] == raw;
    case Bool(b) =>
      assert t[|Print(v)|..] == post && t[..|Print(v)|] == Print(v);
    case Null =>
      assert t[4..] == post && t[..4] == NULL_TEXT;
  }

  lemma QuoteStarts(s: Text)
    ensures Quote(s) != [] && Quote(s)[0] == QUOTE
  {
  }

  lemma {:induction false} ValueReadsBack(v: Value, depth: nat, post: Text)
    requires WellFormed(v) && Stops(post)
    ensures ParseValue(Print(v) + post, depth) == Expected(v, depth + Depth(v), post)
    decreases v, 1
  {
    hide ParseValue, Print;
    if v.Arr? {
      ArrayReadsBack(v, depth, post);
    } else if v.Obj? {
      ObjectReadsBack(v, depth, post);
    } else {
      ScalarReadsBack(v, depth, post);
    }
  }

  lemma {:induction false} ArrayReadsBack(v: Value, depth: nat, post: Text)
    requires v.Arr? && WellFormed(v) && Stops(post)
    ensures ParseValue(Print(v) + post, depth) == Expected(v, depth + Depth(v), post)
    decreases v, 0
  {
    hide ParseValue, ParseItems, SkipSpace, Print, PrintItems, Depth, ItemsDepth, WellFormed;
    var items := v.items;
    Unfold(v);
    var inner := PrintItems(items) + ([RBRACKET] + post);
    Associative([LBRACKET] + PrintItems(items), [RBRACKET], post);
    Associative([LBRACKET], PrintItems(items), [RBRACKET] + post);
    OpenArray(inner, depth);
    if items == [] {
      assert inner == [RBRACKET] + post && inner[1..] == post;
    } else {
      if depth <= MAX_DEPTH { ItemsReadBack(items, depth, post, []); }
      assert [] + items == items;
      ItemsStart(items, [RBRACKET] + post);
    }
    NoSpaceToSkip(inner);
  }

  lemma {:induction false} ObjectReadsBack(v: Value, depth: nat, post: Text)
    requires v.Obj? && WellFormed(v) && Stops(post)
    ensures ParseValue(Print(v) + post, depth) == Expected(v, depth + Depth(v), post)
    decreases v, 0
  {
    hide ParseValue, ParseMembers, SkipSpace, Print, PrintMembers, Depth, MembersDepth, WellFormed, OwnOrder;
    var ms := v.members;
    Unfold(v);
    var inner := PrintMembers(ms) + ([RBRACE] + post);
    Associative([LBRACE] + PrintMembers(ms), [RBRACE], post);
    Associative([LBRACE], PrintMembers(ms), [RBRACE] + post);
    OpenObject(inner, depth);
    if ms == [] {
      assert inner == [RBRACE] + post && inner[1..] == post;
    } else {
      assert [] + ms == ms;
      if depth <= MAX_DEPTH { MembersReadBack(ms, depth, post, []); }
      MembersStart(ms, [RBRACE] + post);
    }
    NoSpaceToSkip(inner);
  }

  /** One unfolding of printer, depth and well-formedness at a container. */
  lemma Unfold(v: Value)
    requires WellFormed(v)
    ensures v.Arr? ==> && Print(v) == [LBRACKET] + PrintItems(v.items) + [RBRACKET]
                       && Depth(v) == (if v.items == [] then 0 else 1 + ItemsDepth(v.items))
                       && (forall i | 0 <= i < |v.items| :: WellFormed(v.items[i]))
                       && (v.items == [] ==> PrintItems(v.items) == [])
    ensures v.Obj? ==> && Print(v) == [LBRACE] + PrintMembers(v.members) + [RBRACE]
                       && Depth(v) == (if v.members == [] then 0 else 1 + MembersDepth(v.members))
                       && OwnOrder(v.members) && (forall i | 0 <= i < |v.members| :: WellFormed(v.members[i].value))
                       && (v.members == [] ==> PrintMembers(v.members) == [])
  {
    hide ItemsDepth, MembersDepth, Quote;
  }

  lemma OpenArray(t: Text, depth: nat)
    ensures ParseValue([LBRACKET] + t, depth) ==
            if depth > MAX_DEPTH then None
            else if SkipSpace(t) != [] && SkipSpace(t)[0] == RBRACKET then Some((Arr([]), SkipSpace(t)[1..]))
            else ParseItems(SkipSpace(t), depth, [])
  {
    hide ParseItems, ParseMembers, SkipSpace, ParseString, DropNumber;
    NoSpaceToSkip([LBRACKET] + t);
    assert ([LBRACKET] + t)[1..] == t;
  }

  lemma OpenObject(t: Text, depth: nat)
    ensures ParseValue([LBRACE] + t, depth) ==
            if depth > MAX_DEPTH then None
            else if SkipSpace(t) != [] && SkipSpace(t)[0] == RBRACE then Some((Obj([]), SkipSpace(t)[1..]))
            else ParseMembers(SkipSpace(t), depth, [])
  {
    hide ParseItems, ParseMembers, SkipSpace, ParseString, DropNumber;
    NoSpaceToSkip([LBRACE] + t);
    assert ([LBRACE] + t)[1..] == t;
  }

  lemma ItemsStart(items: seq<Value>, post: Text)
    requires items != [] && forall i | 0 <= i < |items| :: WellFormed(items[i])
    ensures PrintItems(items) + post != [] && IsValueStart((PrintItems(items) + post)[0])
  {
    PrintStarts(items[0]);
    assert PrintItems(items)[0] == Print(items[0])[0];
  }

  lemma MembersStart(ms: seq<Member>, post: Text)
    requires ms != []
    ensures PrintMembers(ms) + post != [] && (PrintMembers(ms) + post)[0] == QUOTE
  {
    hide Quote, Print;
    QuoteStarts(ms[0].key);
    var p := PrintMember(ms[0]);
    assert p != [] && p[0] == QUOTE;
    assert PrintMembers(ms)[..|p|] == p;
  }

  /** One element, and what the separator after it means. */
  lemma ItemStep(t: Text, depth: nat, done: seq<Value>, v: Value, rest: Text)
    requires ParseValue(t, depth + 1) == Some((v, rest)) && rest != [] && rest[0] in {COMMA, RBRACKET}
    ensures ParseItems(t, depth, done) ==
            if rest[0] == COMMA then ParseItems(rest[1..], depth, done + [v]) else Some((Arr(done + [v]), rest[1..]))
  {
    hide ParseValue, SkipSpace;
    NoSpaceToSkip(rest);
  }

  lemma ItemFails(t: Text, depth: nat, done: seq<Value>)
    requires ParseValue(t, depth + 1) == None
    ensures ParseItems(t, depth, done) == None
  {
    hide ParseValue;
  }

  lemma DepthSteps(items: seq<Value>, ms: seq<Member>)
    ensures items != [] ==> ItemsDepth(items) == Max(Depth(items[0]), ItemsDepth(items[1..]))
    ensures ms != [] ==> MembersDepth(ms) == Max(Depth(ms[0].value), MembersDepth(ms[1..]))
    ensures ItemsDepth([]) == 0 && MembersDepth([]) == 0
  {
    hide Depth;
  }

  ghost function AfterItem(items: seq<Value>, post: Text): Text
    requires items != []
  {
    if |items| == 1 then [RBRACKET] + post else [COMMA] + (PrintItems(items[1..]) + ([RBRACKET] + post))
  }

  lemma SplitItems(items: seq<Value>, post: Text)
    requires items != []
    ensures PrintItems(items) + ([RBRACKET] + post) == Print(items[0]) + AfterItem(items, post)
  {
    hide Print;
    if |items| > 1 {
      var p, more, end := Print(items[0]), PrintItems(items[1..]), [RBRACKET] + post;
      Associative(p + [COMMA], more, end);
      Associative(p, [COMMA], more + end);
    }
  }

  lemma {:induction false} ItemsReadBack(items: seq<Value>, depth: nat, post: Text, done: seq<Value>)
    requires items != [] && (forall i | 0 <= i < |items| :: WellFormed(items[i])) && depth <= MAX_DEPTH
    ensures ParseItems(PrintItems(items) + ([RBRACKET] + post), depth, done)
         == Expected(Arr(done + items), depth + 1 + ItemsDepth(items), post)
    decreases items, 0
  {
    hide ParseValue, ParseItems, Print, PrintItems, Depth, ItemsDepth, WellFormed;
    DepthSteps(items, []);
    var t := PrintItems(items) + ([RBRACKET] + post);
    var rest := AfterItem(items, post);
    SplitItems(items, post);
    ValueReadsBack(items[0], depth + 1, rest);
    if depth + 1 + Depth(items[0]) > MAX_DEPTH {
      ItemFails(t, depth, done);
    } else {
      ItemStep(t, depth, done, items[0], rest);
      if |items| == 1 {
        assert rest[1..] == post && done + [items[0]] == done + items;
        assert items[1..] == [];
      } else {
        ItemsReadBack(items[1..], depth, post, done + [items[0]]);
        assert rest[1..] == PrintItems(items[1..]) + ([RBRACKET] + post);
        assert (done + [items[0]]) + items[1..] == done + items;
      }
    }
  }

  /** A key in own-property order is appended. */
  lemma {:induction false} InsertAtEnd(ms: seq<Member>, m: Member)
    requires forall i | 0 <= i < |ms| :: !KeyBefore(m.key, ms[i].key)
    ensures InsertMember(ms, m) == ms + [m]
  {
    if ms != [] {
      InsertAtEnd(ms[1..], m);
      assert ms == [ms[0]] + ms[1..];
    }
  }

  lemma KeyReadsBack(key: Text, post: Text)
    ensures ParseKey(Quote(key) + ([COLON] + post)) == Some((key, post))
  {
    hide ParseString, Quote, SkipSpace;
    QuoteStarts(key);
    QuotedStringReadsBack(key, [COLON] + post);
    NoSpaceToSkip(Quote(key) + ([COLON] + post));
    NoSpaceToSkip([COLON] + post);
    assert ([COLON] + post)[1..] == post;
  }

  /** One member, and what the separator after it means. */
  lemma MemberStep(t: Text, depth: nat, done: seq<Member>, m: Member, u: Text, rest: Text)
    requires ParseKey(t) == Some((m.key, u)) && !HasKey(done, m.key)
    requires ParseValue(u, depth + 1) == Some((m.value, rest)) && rest != [] && rest[0] in {COMMA, RBRACE}
    ensures ParseMembers(t, depth, done) ==
            if rest[0] == COMMA then ParseMembers(rest[1..], depth, InsertMember(done, m))
            else Some((Obj(InsertMember(done, m)), rest[1..]))
  {
    hide ParseValue, SkipSpace, ParseKey;
    NoSpaceToSkip(rest);
  }

  lemma MemberFails(t: Text, depth: nat, done: seq<Member>, m: Member, u: Text)
    requires ParseKey(t) == Some((m.key, u)) && ParseValue(u, depth + 1) == None
    ensures ParseMembers(t, depth, done) == None
  {
    hide ParseValue, ParseKey;
  }

  ghost function AfterMember(ms: seq<Member>, post: Text): Text
    requires ms != []
  {
    if |ms| == 1 then [RBRACE] + post else [COMMA] + (PrintMembers(ms[1..]) + ([RBRACE] + post))
  }

  lemma SplitMembers(ms: seq<Member>, post: Text)
    requires ms != []
    ensures PrintMembers(ms) + ([RBRACE] + post) == PrintMember(ms[0]) + AfterMember(ms, post)
  {
    hide PrintMember;
    if |ms| > 1 {
      var p, more, end := PrintMember(ms[0]), PrintMembers(ms[1..]), [RBRACE] + post;
      Associative(p + [COMMA], more, end);
      Associative(p, [COMMA], more + end);
    }
  }

  lemma {:induction false} MembersReadBack(ms: seq<Member>, depth: nat, post: Text, done: seq<Member>)
    requires ms != [] && (forall i | 0 <= i < |ms| ::
                          WellFormed(ms[i].value)) && depth <= MAX_DEPTH && OwnOrder(done + ms)
    ensures ParseMembers(PrintMembers(ms) + ([RBRACE] + post), depth, done)
         == Expected(Obj(done + ms), depth + 1 + MembersDepth(ms), post)
    decreases ms, 0
  {
    hide ParseValue, ParseKey, ParseMembers, Quote, Print, PrintMember, PrintMembers, Depth, MembersDepth,
         InsertMember, HasKey, OwnOrder, WellFormed;
    DepthSteps([], ms);
    var t := PrintMembers(ms) + ([RBRACE] + post);
    var m := ms[0];
    var rest := AfterMember(ms, post);
    SplitMembers(ms, post);
    var u := Print(m.value) + rest;
    SplitMember(m, rest);
    KeyReadsBack(m.key, u);
    ValueReadsBack(m.value, depth + 1, rest);
    NewKey(done, ms);
    if depth + 1 + Depth(m.value) > MAX_DEPTH {
      MemberFails(t, depth, done, m, u);
    } else {
      MemberStep(t, depth, done, m, u, rest);
      if |ms| == 1 {
        assert rest[1..] == post && done + [m] == done + ms;
        assert ms[1..] == [];
      } else {
        assert (done + [m]) + ms[1..] == done + ms;
        MembersReadBack(ms[1..], depth, post, done + [m]);
        assert rest[1..] == PrintMembers(ms[1..]) + ([RBRACE] + post);
      }
    }
  }

  lemma SplitMember(m: Member, rest: Text)
    ensures PrintMember(m) + rest == Quote(m.key) + ([COLON] + (Print(m.value) + rest))
  {
    hide Quote, Print;
    var k, c, p := Quote(m.key), [COLON], Print(m.value);
    Associative(k + c, p, rest);
    Associative(k, c, p + rest);
  }

  lemma NewKey(done: seq<Member>, ms: seq<Member>)
    requires ms != [] && OwnOrder(done + ms)
    ensures !HasKey(done, ms[0].key) && InsertMember(done, ms[0]) == done + [ms[0]]
  {
    var all := done + ms;
    assert all[|done|] == ms[0];
    forall i | 0 <= i < |done| ensures done[i].key != ms[0].key && !KeyBefore(ms[0].key, done[i].key) {
      assert all[i] == done[i];
    }
    InsertAtEnd(done, ms[0]);
  }

  /**
   * The round trip, exactly: for every value the parser can produce, the printed text parses back to
   * that very value if and only if it nests at most 256 deep.
   */
  lemma RoundTrip(v: Value)
    requires WellFormed(v)
    ensures Parse(Print(v)) == if Depth(v) <= MAX_DEPTH then Some(v) else None
  {
    hide ParseValue, Print, Depth, WellFormed;
    ValueReadsBack(v, 0, []);
    assert Print(v) + [] == Print(v);
  }
}
