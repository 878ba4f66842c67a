/**
 * Unique reading of canonical JSON text. A scanner that knows nothing but nesting depth and string
 * quoting finds the end of every member and of every object, whatever follows.
 */
module Scanner {
  import opened Common
  import opened Json

  type Units = seq<int>

  datatype Mode = Out | InString | Escaped

  /** The text from the first comma or closing bracket outside every string and bracket. */
  ghost function Cut(t: Units, depth: nat, mode: Mode): (r: Option<Units>) {
    if t == [] then None
    else if mode == Escaped then Cut(t[1..], depth, InString)
    else if mode == InString then
      Cut(t[1..], depth, if t[0] == QUOTE then Out else if t[0] == BACKSLASH then Escaped else InString)
    else if t[0] == QUOTE then Cut(t[1..], depth, InString)
    else if t[0] == LBRACE || t[0] == LBRACKET then Cut(t[1..], depth + 1, Out)
    else if t[0] == RBRACE || t[0] == RBRACKET then if depth == 0 then Some(t) else Cut(t[1..], depth - 1, Out)
    else if t[0] == COMMA && depth == 0 then Some(t)
    else Cut(t[1..], depth, Out)
  }

  /** The scanner walks over `t` at any depth and is where it was. */
  ghost predicate Solid(t: Units) {
    forall depth: nat, post: Units :: Cut(t + post, depth, Out) == Cut(post, depth, Out)
  }

  /** The same, inside at least one bracket. */
  ghost predicate Inside(t: Units) {
    forall depth: nat, post: Units | depth > 0 :: Cut(t + post, depth, Out) == Cut(post, depth, Out)
  }

  lemma OneStep(c: int, t: Units, depth: nat, mode: Mode)
    ensures Cut([c] + t, depth, mode) ==
            if mode == Escaped then Cut(t, depth, InString)
            else if mode == InString then
              Cut(t, depth, if c == QUOTE then Out else if c == BACKSLASH then Escaped else InString)
            else if c == QUOTE then Cut(t, depth, InString)
            else if c == LBRACE || c == LBRACKET then Cut(t, depth + 1, Out)
            else if c == RBRACE || c == RBRACKET then if depth == 0 then Some([c] + t) else Cut(t, depth - 1, Out)
            else if c == COMMA && depth == 0 then Some([c] + t)
            else Cut(t, depth, Out)
  {
    assert ([c] + t)[1..] == t;
  }

  lemma EmptyIsSolid()
    ensures Solid([])
  {
    forall depth: nat, post: Units
      ensures Cut([] + post, depth, Out) == Cut(post, depth, Out)
    {
      assert [] + post == post;
    }
  }

  lemma SolidAppend(a: Units, b: Units)
    requires Solid(a) && Solid(b)
    ensures Solid(a + b)
  {
    hide Cut;
    forall depth: nat, post: Units
      ensures Cut((a + b) + post, depth, Out) == Cut(post, depth, Out)
    {
      Associative(a, b, post);
    }
  }

  lemma InsideAppend(a: Units, b: Units)
    requires Inside(a) && Inside(b)
    ensures Inside(a + b)
  {
    hide Cut;
    forall depth: nat, post: Units | depth > 0
      ensures Cut((a + b) + post, depth, Out) == Cut(post, depth, Out)
    {
      Associative(a, b, post);
    }
  }

  lemma SolidIsInside(t: Units)
    requires Solid(t)
    ensures Inside(t)
  {
  }

  predicate IsOrdinary(c: int) {
    c !in {QUOTE, LBRACE, LBRACKET, RBRACE, RBRACKET, COMMA}
  }

  lemma UnitIsSolid(c: int)
    requires IsOrdinary(c)
    ensures Solid([c])
  {
    hide Cut;
    forall depth: nat, post: Units
      ensures Cut([c] + post, depth, Out) == Cut(post, depth, Out)
    {
      OneStep(c, post, depth, Out);
    }
  }

  lemma CommaIsInside()
    ensures Inside([COMMA])
  {
    hide Cut;
    forall depth: nat, post: Units | depth > 0
      ensures Cut([COMMA] + post, depth, Out) == Cut(post, depth, Out)
    {
      OneStep(COMMA, post, depth, Out);
    }
  }

  lemma {:induction false} OrdinaryIsSolid(t: Units)
    requires forall i | 0 <= i < |t| :: IsOrdinary(t[i])
    ensures Solid(t)
  {
    hide Solid;
    if t == [] {
      EmptyIsSolid();
    } else {
      UnitIsSolid(t[0]);
      OrdinaryIsSolid(t[1..]);
      SolidAppend([t[0]], t[1..]);
      assert t == [t[0]] + t[1..];
    }
  }

  /** Brackets around anything that reads over inside them. */
  lemma BracketedIsSolid(open: int, t: Units, close: int)
    requires open in {LBRACE, LBRACKET} && close in {RBRACE, RBRACKET} && Inside(t)
    ensures Solid([open] + (t + [close]))
  {
    hide Cut;
    forall depth: nat, post: Units
      ensures Cut(([open] + (t + [close])) + post, depth, Out) == Cut(post, depth, Out)
    {
      Associative([open], t + [close], post);
      Associative(t, [close], post);
      OneStep(open, t + ([close] + post), depth, Out);
      OneStep(close, post, depth + 1, Out);
    }
  }

  // ---------------------------------------------------------------- strings

  /** Inside a string, the scanner walks over `t`. */
  ghost predicate Quiet(t: Units) {
    forall depth: nat, post: Units :: Cut(t + post, depth, InString) == Cut(post, depth, InString)
  }

  lemma QuietUnit(c: int)
    requires c != QUOTE && c != BACKSLASH
    ensures Quiet([c])
  {
    hide Cut;
    forall depth: nat, post: Units
      ensures Cut([c] + post, depth, InString) == Cut(post, depth, InString)
    {
      OneStep(c, post, depth, InString);
    }
  }

  lemma QuietEscape(c: int)
    ensures Quiet([BACKSLASH, c])
  {
    hide Cut;
    forall depth: nat, post: Units
      ensures Cut([BACKSLASH, c] + post, depth, InString) == Cut(post, depth, InString)
    {
      assert [BACKSLASH, c] + post == [BACKSLASH] + ([c] + post);
      OneStep(BACKSLASH, [c] + post, depth, InString);
      OneStep(c, post, depth, Escaped);
    }
  }

  lemma QuietAppend(a: Units, b: Units)
    requires Quiet(a) && Quiet(b)
    ensures Quiet(a + b)
  {
    hide Cut;
    forall depth: nat, post: Units
      ensures Cut((a + b) + post, depth, InString) == Cut(post, depth, InString)
    {
      Associative(a, b, post);
    }
  }

  lemma QuietUnicodeEscape(c: CodeUnit)
    ensures Quiet(UnicodeEscape(c))
  {
    hide Quiet;
    assert forall n | 0 <= n < 16 :: HexDigit(n) != QUOTE && HexDigit(n) != BACKSLASH;
    var w, x, y, z := HexDigit(c / 0x1000), HexDigit(c / 0x100 % 16), HexDigit(c / 16 % 16), HexDigit(c % 16);
    QuietEscape(0x75);
    QuietUnit(w);
    QuietUnit(x);
    QuietUnit(y);
    QuietUnit(z);
    QuietAppend([BACKSLASH, 0x75], [w]);
    QuietAppend([BACKSLASH, 0x75] + [w], [x]);
    QuietAppend([BACKSLASH, 0x75] + [w] + [x], [y]);
    QuietAppend([BACKSLASH, 0x75] + [w] + [x] + [y], [z]);
    assert UnicodeEscape(c) == [BACKSLASH, 0x75] + [w] + [x] + [y] + [z];
  }

  lemma QuietEscapeUnit(c: CodeUnit)
    ensures Quiet(EscapeUnit(c))
  {
    hide Quiet, UnicodeEscape;
    var e := EscapeUnit(c);
    if c == QUOTE || c == BACKSLASH || c in {0x08, 0x09, 0x0a, 0x0c, 0x0d} {
      QuietEscape(e[1]);
    } else if c < 0x20 || IsHigh(c) || IsLow(c) {
      QuietUnicodeEscape(c);
    } else {
      QuietUnit(c);
    }
  }

  lemma QuietNothing()
    ensures Quiet([])
  {
    hide Cut;
    forall depth: nat, post: Units
      ensures Cut([] + post, depth, InString) == Cut(post, depth, InString)
    {
      assert [] + post == post;
    }
  }

  lemma {:induction false} QuietBody(s: Text)
    ensures Quiet(Escape(s))
  {
    hide Quiet, EscapeUnit;
    if s == [] {
      QuietNothing();
    } else if IsHigh(s[0]) && |s| > 1 && IsLow(s[1]) {
      QuietBody(s[2..]);
      QuietUnit(s[0]);
      QuietUnit(s[1]);
      QuietAppend([s[0]], [s[1]]);
      assert s[..2] == [s[0]] + [s[1]];
      QuietAppend(s[..2], Escape(s[2..]));
    } else {
      QuietBody(s[1..]);
      QuietEscapeUnit(s[0]);
      QuietAppend(EscapeUnit(s[0]), Escape(s[1..]));
    }
  }

  lemma QuotedIsSolid(s: Text)
    ensures Solid(Quote(s))
  {
    hide Cut, Escape;
    QuietBody(s);
    var e := Escape(s);
    forall depth: nat, post: Units
      ensures Cut(Quote(s) + post, depth, Out) == Cut(post, depth, Out)
    {
      assert Quote(s) + post == [QUOTE] + (e + ([QUOTE] + post));
      OneStep(QUOTE, e + ([QUOTE] + post), depth, Out);
      OneStep(QUOTE, post, depth, InString);
    }
  }

  // ---------------------------------------------------------------- lists

  /** `parts.join(",")`. */
  function Join<T>(comma: T, parts: seq<seq<T>>): seq<T> {
    if parts == [] then []
    else if |parts| == 1 then parts[0]
    else parts[0] + ([comma] + Join(comma, parts[1..]))
  }

  ghost predicate AllSolid(parts: seq<Units>) {
    forall i | 0 <= i < |parts| :: Solid(parts[i])
  }

  /** Parts that could be told from a closing bracket. */
  ghost predicate AllMembers(parts: seq<Units>) {
    AllSolid(parts) && forall i | 0 <= i < |parts| :: parts[i] != [] && parts[i][0] == QUOTE
  }

  ghost function Joined(parts: seq<Units>): Units {
    Join(COMMA as int, parts)
  }

  lemma {:induction false} JoinedIsInside(parts: seq<Units>)
    requires AllSolid(parts)
    ensures Inside(Joined(parts))
  {
    hide Solid, Inside;
    if parts == [] {
      EmptyIsSolid();
      SolidIsInside([]);
    } else {
      SolidIsInside(parts[0]);
      if |parts| > 1 {
        JoinedIsInside(parts[1..]);
        CommaIsInside();
        InsideAppend([COMMA], Joined(parts[1..]));
        InsideAppend(parts[0], [COMMA] + Joined(parts[1..]));
      }
    }
  }

  /** What the scanner stops at after the first part. */
  ghost function AfterFirst(parts: seq<Units>, close: int, post: Units): Units
    requires parts != []
  {
    if |parts| == 1 then [close] + post else [COMMA] + (Joined(parts[1..]) + ([close] + post))
  }

  lemma CutFirst(parts: seq<Units>, close: int, post: Units)
    requires parts != [] && AllSolid(parts) && close in {RBRACE, RBRACKET}
    ensures Joined(parts) + ([close] + post) == parts[0] + AfterFirst(parts, close, post)
    ensures Cut(Joined(parts) + ([close] + post), 0, Out) == Some(AfterFirst(parts, close, post))
  {
    hide Cut;
    var after := AfterFirst(parts, close, post);
    if |parts| == 1 {
      OneStep(close, post, 0, Out);
    } else {
      var more := Joined(parts[1..]) + ([close] + post);
      Associative(parts[0], [COMMA] + Joined(parts[1..]), [close] + post);
      Associative([COMMA], Joined(parts[1..]), [close] + post);
      OneStep(COMMA, more, 0, Out);
    }
    assert Solid(parts[0]);
    assert Cut(parts[0] + after, 0, Out) == Cut(after, 0, Out);
  }

  /** Equal texts, each a joined list and whatever follows its closing bracket, are equal part by part. */
  lemma {:induction false} SplitIsUnique(ps: seq<Units>, qs: seq<Units>, close: int, x: Units, y: Units)
    requires AllMembers(ps) && AllMembers(qs) && close in {RBRACE, RBRACKET}
    requires Joined(ps) + ([close] + x) == Joined(qs) + ([close] + y)
    ensures ps == qs && x == y
  {
    hide Cut, Solid;
    if ps == [] || qs == [] {
      FirstUnit(ps, close, x);
      FirstUnit(qs, close, y);
      assert ([close] + x)[1..] == x && ([close] + y)[1..] == y;
      assert [] + ([close] + x) == [close] + x && [] + ([close] + y) == [close] + y;
    } else {
      CutFirst(ps, close, x);
      CutFirst(qs, close, y);
      var a, b := AfterFirst(ps, close, x), AfterFirst(qs, close, y);
      SameFront(ps[0], qs[0], a, b);
      assert ps == [ps[0]] + ps[1..] && qs == [qs[0]] + qs[1..];
      assert a[0] == b[0] && a[1..] == b[1..];
      assert ([close] + x)[1..] == x && ([close] + y)[1..] == y;
      if |ps| > 1 && |qs| > 1 {
        assert a[1..] == Joined(ps[1..]) + ([close] + x);
        assert b[1..] == Joined(qs[1..]) + ([close] + y);
        SplitIsUnique(ps[1..], qs[1..], close, x, y);
      }
    }
  }

  lemma FirstUnit(ps: seq<Units>, close: int, x: Units)
    requires AllMembers(ps)
    ensures ps == [] ==> (Joined(ps) + ([close] + x)) == [close] + x
    ensures ps != [] ==> (Joined(ps) + ([close] + x)) != [] && (Joined(ps) + ([close] + x))[0] !in {RBRACE, RBRACKET}
  {
    hide Solid;
    if ps != [] {
      assert Joined(ps) != [] && Joined(ps)[0] == ps[0][0];
    }
  }

  lemma SameFront(p: Units, q: Units, a: Units, b: Units)
    requires p + a == q + b && a == b
    ensures p == q
  {
    assert |p| == |q|;
    assert p == (p + a)[..|p|] && q == (q + b)[..|q|];
  }
}
