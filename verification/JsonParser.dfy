/** The parser as it runs: one cursor moved over the text, objects and arrays filled as it goes. */
module JsonParser {
  import opened Common
  import opened Json
  import JsonSoundness

  /** The text from position `i` on. */
  ghost function From(t: Text, i: nat): (r: Text)
    requires i <= |t|
  {
    t[i..]
  }

  lemma FromFirst(t: Text, i: nat)
    requires i < |t|
    ensures From(t, i) != [] && From(t, i)[0] == t[i] && From(t, i)[1..] == From(t, i + 1)
  {
  }

  lemma FromEnd(t: Text)
    ensures From(t, |t|) == [] && From(t, 0) == t
  {
  }

  // One unfolding of each specification function.

  lemma SkipOne(u: Text)
    ensures u != [] && IsSpace(u[0]) ==> SkipSpace(u) == SkipSpace(u[1..])
    ensures u == [] || !IsSpace(u[0]) ==> SkipSpace(u) == u
  {
  }

  lemma ScanStep(u: Text)
    ensures u == [] ==> StringLength(u).None?
    ensures u != [] && u[0] == QUOTE ==> StringLength(u) == Some(1)
    ensures u != [] && u[0] == BACKSLASH && |u| < 2 ==> StringLength(u).None?
    ensures u != [] && u[0] == BACKSLASH && |u| >= 2 ==> Follows(StringLength(u), StringLength(u[2..]), 2)
    ensures u != [] && u[0] !in {QUOTE, BACKSLASH} && u[0] < 0x20 ==> StringLength(u).None?
    ensures u != [] && u[0] !in {QUOTE, BACKSLASH} && u[0] >= 0x20 ==> Follows(StringLength(u), StringLength(u[1..]), 1)
  {
  }

  /** Scan result `x` is scan result `y` with `k` code units before it. */
  ghost predicate Follows(x: Option<nat>, y: Option<nat>, k: int) {
    if y.None? then x.None? else x.Some? && x.value == y.value + k
  }

  lemma StringEnds(t: Text, start: nat, i: nat)
    requires start < i < |t| && StringLength(From(t, start + 1)) == Some(i - start)
    ensures ParseString(From(t, start)) ==
            var s := Unescape(t[start + 1..i]);
            if s.None? then None else Some((s.value, From(t, i + 1)))
  {
    hide StringLength, Unescape;
    FromFirst(t, start);
    assert From(t, start)[1..i - start] == t[start + 1..i];
    assert From(t, start)[i - start + 1..] == From(t, i + 1);
  }

  lemma StringFails(t: Text, start: nat)
    requires start < |t| && StringLength(From(t, start + 1)).None?
    ensures ParseString(From(t, start)).None?
  {
    hide StringLength, Unescape;
    FromFirst(t, start);
  }

  lemma ValueStarts(t: Text, depth: nat)
    ensures depth > MAX_DEPTH || SkipSpace(t) == [] ==> ParseValue(t, depth).None?
    ensures depth <= MAX_DEPTH && SkipSpace(t) != [] ==>
            ParseValue(t, depth) ==
            var u := SkipSpace(t);
            if u[0] == LBRACE then ObjectOf(SkipSpace(u[1..]), depth)
            else if u[0] == LBRACKET then ArrayOf(SkipSpace(u[1..]), depth)
            else if u[0] == QUOTE then StringOf(u)
            else ScalarOf(u)
  {
    hide ParseItems, ParseMembers, SkipSpace, ParseString, DropNumber;
  }

  ghost function ObjectOf(w: Text, depth: nat): Option<(Value, Text)> {
    if w != [] && w[0] == RBRACE then Some((Obj([]), w[1..])) else ParseMembers(w, depth, [])
  }

  ghost function ArrayOf(w: Text, depth: nat): Option<(Value, Text)> {
    if w != [] && w[0] == RBRACKET then Some((Arr([]), w[1..])) else ParseItems(w, depth, [])
  }

  ghost function StringOf(u: Text): Option<(Value, Text)>
    requires u != []
  {
    var s := ParseString(u);
    if s.None? then None else Some((Str(s.value.0), s.value.1))
  }

  ghost function ScalarOf(u: Text): Option<(Value, Text)> {
    if TRUE_TEXT <= u then Some((Bool(true), u[4..]))
    else if FALSE_TEXT <= u then Some((Bool(false), u[5..]))
    else if NULL_TEXT <= u then Some((Null, u[4..]))
    else
      var rest := DropNumber(u);
      if rest.None? then None else Some((Num(u[..|u| - |rest.value|]), rest.value))
  }

  lemma ItemsUnfold(t: Text, depth: nat, done: seq<Value>)
    ensures ParseItems(t, depth, done) ==
            var v := ParseValue(t, depth + 1);
            if v.None? then None else AfterOneItem(SkipSpace(v.value.1), depth, done + [v.value.0])
  {
    hide ParseValue, SkipSpace;
  }

  ghost function AfterOneItem(u: Text, depth: nat, a: seq<Value>): Option<(Value, Text)> {
    if u == [] then None
    else if u[0] == COMMA then ParseItems(u[1..], depth, a)
    else if u[0] == RBRACKET then Some((Arr(a), u[1..]))
    else None
  }

  lemma MembersUnfold(t: Text, depth: nat, done: seq<Member>)
    ensures ParseMembers(t, depth, done) ==
            var k := ParseKey(t);
            if k.None? || HasKey(done, k.value.0) then None
            else
              var v := ParseValue(k.value.1, depth + 1);
              if v.None? then None
              else AfterOneMember(SkipSpace(v.value.1), depth, InsertMember(done, Member(k.value.0, v.value.0)))
  {
    hide ParseValue, SkipSpace, HasKey, InsertMember, ParseKey;
  }

  ghost function AfterOneMember(u: Text, depth: nat, o: seq<Member>): Option<(Value, Text)> {
    if u == [] then None
    else if u[0] == COMMA then ParseMembers(u[1..], depth, o)
    else if u[0] == RBRACE then Some((Obj(o), u[1..]))
    else None
  }

  class Parser {
    const text: Text
    var i: nat

    constructor (text: Text)
      ensures this.text == text && i == 0
    {
      this.text := text;
      i := 0;
    }

    /** The cursor has reached the point where `rest` is left. */
    ghost predicate At(rest: Text)
      reads this
    {
      i <= |text| && From(text, i) == rest
    }

    method Ws(ghost t: Text)
      requires At(t)
      modifies this
      ensures At(SkipSpace(t)) && i >= old(i)
    {
      hide From, SkipSpace;
      FromEnd(text);
      while i < |text| && IsSpace(text[i])
        invariant old(i) <= i <= |text| && SkipSpace(From(text, i)) == SkipSpace(t)
      {
        FromFirst(text, i);
        SkipOne(From(text, i));
        i := i + 1;
      }
      if i < |text| { FromFirst(text, i); }
      SkipOne(From(text, i));
    }

    /** The outcome `r` and the new cursor are what `p` says. */
    ghost predicate Reads<T>(p: Option<(T, Text)>, r: Option<T>)
      reads this
    {
      if p.Some? then r == Some(p.value.0) && At(p.value.1) else r.None?
    }

    method Str(ghost t: Text) returns (r: Option<Text>)
      requires At(t) && i < |text|
      modifies this
      ensures Reads(ParseString(t), r) && (r.Some? ==> i > old(i))
    {
      hide From, StringLength, Unescape, ParseString;
      var start := i;
      i := i + 1;
      while i < |text|
        invariant start < i <= |text| + 1
        invariant i > |text| ==> StringLength(From(text, start + 1)).None?
        invariant i <= |text| ==>
          Follows(StringLength(From(text, start + 1)), StringLength(From(text, i)), i - start - 1)
      {
        FromFirst(text, i);
        ScanStep(From(text, i));
        if text[i] == QUOTE {
          StringEnds(text, start, i);
          i := i + 1;
          return Unescape(text[start + 1..i - 1]);
        }
        if text[i] == BACKSLASH {
          TwoOn(text, i);
          i := i + 2;
        } else if text[i] < 0x20 {
          StringFails(text, start);
          return None;
        } else {
          i := i + 1;
        }
      }
      FromEnd(text);
      ScanStep([]);
      StringFails(text, start);
      return None;
    }

    method Val(depth: nat, ghost t: Text) returns (r: Option<Value>)
      requires At(t)
      modifies this
      ensures Reads(ParseValue(t, depth), r) && (r.Some? ==> i > old(i))
      decreases |text| - i, 1
    {
      hide From, ParseValue, SkipSpace, ParseItems, ParseMembers, ParseString, ScalarOf;
      ValueStarts(t, depth);
      if depth > MAX_DEPTH { return None; }
      Ws(t);
      FromEnd(text);
      if i == |text| { return None; }
      FromFirst(text, i);
      ghost var u := SkipSpace(t);
      var c := text[i];
      if c == LBRACE {
        i := i + 1;
        Ws(u[1..]);
        r := ObjectOrEmpty(depth, SkipSpace(u[1..]));
      } else if c == LBRACKET {
        i := i + 1;
        Ws(u[1..]);
        r := ArrayOrEmpty(depth, SkipSpace(u[1..]));
      } else if c == QUOTE {
        var s := Str(u);
        r := if s.None? then None else Some(Value.Str(s.value));
      } else {
        r := Scalar(u);
      }
    }

    method Scalar(ghost t: Text) returns (r: Option<Value>)
      requires At(t)
      modifies this
      ensures Reads(ScalarOf(t), r) && (r.Some? ==> i > old(i))
    {
      hide DropNumber;
      if TRUE_TEXT <= text[i..] {
        i := i + 4;
        return Some(Bool(true));
      }
      if FALSE_TEXT <= text[i..] {
        i := i + 5;
        return Some(Bool(false));
      }
      if NULL_TEXT <= text[i..] {
        i := i + 4;
        return Some(Null);
      }
      var m := DropNumber(text[i..]);
      if m.None? { return None; }
      JsonSoundness.NumberTaken(t);
      var raw := text[i..][..|text| - i - |m.value|];
      i := i + |raw|;
      return Some(Num(raw));
    }

    method ArrayOrEmpty(depth: nat, ghost t: Text) returns (r: Option<Value>)
      requires At(t) && depth <= MAX_DEPTH
      modifies this
      ensures Reads(ArrayOf(t, depth), r) && (r.Some? ==> i > old(i))
      decreases |text| - i, 3
    {
      hide From, ParseItems;
      FromEnd(text);
      if i < |text| { FromFirst(text, i); }
      if i < |text| && text[i] == RBRACKET {
        i := i + 1;
        r := Some(Arr([]));
      } else {
        r := ArrayItems(depth, t);
      }
    }

    method ArrayItems(depth: nat, ghost t: Text) returns (r: Option<Value>)
      requires At(t) && depth <= MAX_DEPTH
      modifies this
      ensures Reads(ParseItems(t, depth, []), r) && (r.Some? ==> i > old(i))
      decreases |text| - i, 2
    {
      hide From, ParseValue, ParseItems, SkipSpace;
      FromEnd(text);
      var a: seq<Value> := [];
      while true
        invariant old(i) <= i <= |text|
        invariant ParseItems(From(text, i), depth, a) == ParseItems(t, depth, [])
        decreases |text| - i
      {
        ghost var u := From(text, i);
        ItemsUnfold(u, depth, a);
        var v := Val(depth + 1, u);
        if v.None? { return None; }
        a := a + [v.value];
        Ws(ParseValue(u, depth + 1).value.1);
        if i == |text| { return None; }
        FromFirst(text, i);
        if text[i] == COMMA {
          i := i + 1;
        } else if text[i] == RBRACKET {
          i := i + 1;
          return Some(Arr(a));
        } else {
          return None;
        }
      }
      return None;
    }

    /** A key and its colon. */
    method Key(ghost t: Text) returns (r: Option<Text>)
      requires At(t)
      modifies this
      ensures Reads(ParseKey(t), r) && (r.Some? ==> i > old(i))
    {
      hide From, ParseString, SkipSpace;
      Ws(t);
      FromEnd(text);
      if i < |text| { FromFirst(text, i); }
      if i == |text| || text[i] != QUOTE { return None; }
      ghost var u := SkipSpace(t);
      r := Str(u);
      if r.None? { return None; }
      Ws(ParseString(u).value.1);
      if i < |text| { FromFirst(text, i); }
      if i == |text| || text[i] != COLON { return None; }
      i := i + 1;
    }

    method ObjectOrEmpty(depth: nat, ghost t: Text) returns (r: Option<Value>)
      requires At(t) && depth <= MAX_DEPTH
      modifies this
      ensures Reads(ObjectOf(t, depth), r) && (r.Some? ==> i > old(i))
      decreases |text| - i, 3
    {
      hide From, ParseMembers;
      FromEnd(text);
      if i < |text| { FromFirst(text, i); }
      if i < |text| && text[i] == RBRACE {
        i := i + 1;
        r := Some(Obj([]));
      } else {
        r := ObjectMembers(depth, t);
      }
    }

    method ObjectMembers(depth: nat, ghost t: Text) returns (r: Option<Value>)
      requires At(t) && depth <= MAX_DEPTH
      modifies this
      ensures Reads(ParseMembers(t, depth, []), r) && (r.Some? ==> i > old(i))
      decreases |text| - i, 2
    {
      hide From, ParseValue, ParseMembers, SkipSpace, ParseKey, HasKey, InsertMember;
      FromEnd(text);
      var o: seq<Member> := [];
      while true
        invariant old(i) <= i <= |text|
        invariant ParseMembers(From(text, i), depth, o) == ParseMembers(t, depth, [])
        decreases |text| - i
      {
        ghost var u := From(text, i);
        MembersUnfold(u, depth, o);
        var k := Key(u);
        if k.None? || HasKey(o, k.value) { return None; }
        ghost var w := ParseKey(u).value.1;
        var v := Val(depth + 1, w);
        if v.None? { return None; }
        o := InsertMember(o, Member(k.value, v.value));
        Ws(ParseValue(w, depth + 1).value.1);
        if i == |text| { return None; }
        FromFirst(text, i);
        if text[i] == COMMA {
          i := i + 1;
        } else if text[i] == RBRACE {
          i := i + 1;
          return Some(Obj(o));
        } else {
          return None;
        }
      }
      return None;
    }
  }

  lemma TwoOn(t: Text, i: nat)
    requires i < |t|
    ensures |From(t, i)| == |t| - i
    ensures i + 2 <= |t| ==> From(t, i)[2..] == From(t, i + 2)
  {
  }

  /** `parseJsonLossless`. */
  method ParseJsonLossless(text: Text) returns (r: Option<Value>)
    ensures r == Parse(text)
  {
    hide From, ParseValue, SkipSpace;
    var p := new Parser(text);
    FromEnd(text);
    var v := p.Val(0, text);
    if v.None? { return None; }
    p.Ws(ParseValue(text, 0).value.1);
    if p.i < |text| { FromFirst(text, p.i); }
    r := if p.i == |text| then v else None;
  }
}
