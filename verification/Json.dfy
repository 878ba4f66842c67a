/**
 * Lossless JSON: values that keep every number as its source text, the printer, and the parser as
 * functions from text to text left over. Text is a sequence of UTF-16 code units.
 */
module Json {
  import opened Common

  type CodeUnit = c: int | 0 <= c < 0x10000
  type Text = seq<CodeUnit>

  /** Object members are listed in own-property order (see `InsertMember`). */
  datatype Value =
    | Null
    | Bool(b: bool)
    | Str(s: Text)
    | Num(raw: Text)
    | Arr(items: seq<Value>)
    | Obj(members: seq<Member>)
  datatype Member = Member(key: Text, value: Value)

  const QUOTE: CodeUnit := 0x22
  const BACKSLASH: CodeUnit := 0x5c
  const COMMA: CodeUnit := 0x2c
  const COLON: CodeUnit := 0x3a
  const LBRACE: CodeUnit := 0x7b
  const RBRACE: CodeUnit := 0x7d
  const LBRACKET: CodeUnit := 0x5b
  const RBRACKET: CodeUnit := 0x5d
  const TRUE_TEXT: Text := [0x74, 0x72, 0x75, 0x65]
  const FALSE_TEXT: Text := [0x66, 0x61, 0x6c, 0x73, 0x65]
  const NULL_TEXT: Text := [0x6e, 0x75, 0x6c, 0x6c]
  const MAX_DEPTH: nat := 256

  // ---------------------------------------------------------------- strings

  function HexDigit(n: int): (c: CodeUnit)
    requires 0 <= n < 16
  {
    if n < 10 then 0x30 + n else 0x61 + n - 10
  }

  function UnicodeEscape(c: CodeUnit): Text {
    [BACKSLASH, 0x75, HexDigit(c / 0x1000), HexDigit(c / 0x100 % 16), HexDigit(c / 16 % 16), HexDigit(c % 16)]
  }

  predicate IsHigh(c: CodeUnit) { 0xd800 <= c <= 0xdbff }
  predicate IsLow(c: CodeUnit) { 0xdc00 <= c <= 0xdfff }

  /** One code unit as JSON.stringify writes it when it is not half of a surrogate pair. */
  function EscapeUnit(c: CodeUnit): (t: Text) {
    if c == QUOTE || c == BACKSLASH then [BACKSLASH, c]
    else if c == 0x08 then [BACKSLASH, 0x62]
    else if c == 0x09 then [BACKSLASH, 0x74]
    else if c == 0x0a then [BACKSLASH, 0x6e]
    else if c == 0x0c then [BACKSLASH, 0x66]
    else if c == 0x0d then [BACKSLASH, 0x72]
    else if c < 0x20 || IsHigh(c) || IsLow(c) then UnicodeEscape(c)
    else [c]
  }

  function Escape(s: Text): Text {
    if s == [] then []
    else if IsHigh(s[0]) && |s| > 1 && IsLow(s[1]) then s[..2] + Escape(s[2..])
    else EscapeUnit(s[0]) + Escape(s[1..])
  }

  /** `JSON.stringify` of a string. */
  function Quote(s: Text): Text {
    [QUOTE] + Escape(s) + [QUOTE]
  }

  function HexValue(c: CodeUnit): (r: Option<nat>)
    ensures r.Some? ==> r.value < 16
  {
    if 0x30 <= c <= 0x39 then Some(c - 0x30)
    else if 0x61 <= c <= 0x66 then Some(c - 0x61 + 10)
    else if 0x41 <= c <= 0x46 then Some(c - 0x41 + 10)
    else None
  }

  function SimpleEscape(c: CodeUnit): Option<CodeUnit> {
    if c == QUOTE || c == BACKSLASH || c == 0x2f then Some(c)
    else if c == 0x62 then Some(0x08)
    else if c == 0x66 then Some(0x0c)
    else if c == 0x6e then Some(0x0a)
    else if c == 0x72 then Some(0x0d)
    else if c == 0x74 then Some(0x09)
    else None
  }

  /** The first decoded code unit of a string body, and how many code units of text it took. */
  function UnescapeUnit(t: Text): (r: Option<(CodeUnit, nat)>)
    requires t != []
    ensures r.Some? ==> 0 < r.value.1 <= |t|
  {
    if t[0] == QUOTE || t[0] < 0x20 then None
    else if t[0] != BACKSLASH then Some((t[0], 1))
    else if |t| < 2 then None
    else if t[1] == 0x75 then
      if |t| < 6 then None
      else
        var a, b, c, d := HexValue(t[2]), HexValue(t[3]), HexValue(t[4]), HexValue(t[5]);
        if a.None? || b.None? || c.None? || d.None? then None
        else Some((a.value * 0x1000 + b.value * 0x100 + c.value * 16 + d.value, 6))
    else
      var e := SimpleEscape(t[1]);
      if e.None? then None else Some((e.value, 2))
  }

  /** `JSON.parse` of a string token, given what is between its quotes. */
  function Unescape(t: Text): (r: Option<Text>) {
    if t == [] then Some([])
    else
      var u := UnescapeUnit(t);
      if u.None? then None
      else
        var rest := Unescape(t[u.value.1..]);
        if rest.None? then None else Some([u.value.0] + rest.value)
  }

  /** How much text is left of a string token, its closing quote included. */
  function StringLength(t: Text): (r: Option<nat>)
    ensures r.Some? ==> 0 < r.value <= |t| && t[r.value - 1] == QUOTE
  {
    if t == [] then None
    else if t[0] == QUOTE then Some(1)
    else if t[0] == BACKSLASH then
      if |t| < 2 then None
      else
        var n := StringLength(t[2..]);
        if n.None? then None else Some(n.value + 2)
    else if t[0] < 0x20 then None
    else
      var n := StringLength(t[1..]);
      if n.None? then None else Some(n.value + 1)
  }

  /** A string token at the front of the text. */
  function ParseString(t: Text): (r: Option<(Text, Text)>)
    requires t != []
    ensures r.Some? ==> |r.value.1| < |t|
  {
    var n := StringLength(t[1..]);
    if n.None? then None
    else
      var s := Unescape(t[1..n.value]);
      if s.None? then None else Some((s.value, t[n.value + 1..]))
  }

  // ---------------------------------------------------------------- numbers

  /** What `trim` removes. */
  predicate IsBlank(c: CodeUnit) {
    0x09 <= c <= 0x0d || c == 0x20 || c == 0xa0 || c == 0x1680 || 0x2000 <= c <= 0x200a || c == 0x2028 || c == 0x2029
    || c == 0x202f || c == 0x205f || c == 0x3000 || c == 0xfeff
  }

  predicate IsDigit(c: CodeUnit) { 0x30 <= c <= 0x39 }

  predicate AllDigits(t: Text) { forall i | 0 <= i < |t| :: IsDigit(t[i]) }

  /** The text after its leading digits. */
  function DropDigits(t: Text): (r: Text)
    ensures |r| <= |t|
  {
    if t != [] && IsDigit(t[0]) then DropDigits(t[1..]) else t
  }

  predicate StartsWithDigit(t: Text) { t != [] && IsDigit(t[0]) }

  function DropMinus(t: Text): (r: Text)
    ensures |r| <= |t|
  {
    if t != [] && t[0] == 0x2d then t[1..] else t
  }

  function DropInt(t: Text): (r: Text)
    requires StartsWithDigit(t)
    ensures |r| < |t|
  {
    if t[0] == 0x30 then t[1..] else DropDigits(t[1..])
  }

  function DropFrac(t: Text): (r: Text)
    ensures |r| <= |t|
  {
    if t != [] && t[0] == 0x2e && StartsWithDigit(t[1..]) then DropDigits(t[1..]) else t
  }

  function DropSign(t: Text): (r: Text)
    ensures |r| <= |t|
  {
    if t != [] && t[0] in {0x2b, 0x2d} then t[1..] else t
  }

  function DropExp(t: Text): (r: Text)
    ensures |r| <= |t|
  {
    if t != [] && t[0] in {0x65, 0x45} && StartsWithDigit(DropSign(t[1..])) then DropDigits(DropSign(t[1..])) else t
  }

  /** The text after the longest prefix the number pattern matches, if it matches. */
  function DropNumber(t: Text): (r: Option<Text>)
    ensures r.Some? ==> |r.value| < |t|
  {
    var u := DropMinus(t);
    if StartsWithDigit(u) then Some(DropExp(DropFrac(DropInt(u)))) else None
  }

  /** Section 6 of RFC 8259: [ minus ] int [ frac ] [ exp ]. */
  ghost predicate IsNumber(n: Text) {
    exists minus: Text, whole: Text, frac: Text, exp: Text ::
      n == minus + (whole + (frac + exp)) && IsMinus(minus) && IsInt(whole) && IsFrac(frac) && IsExp(exp)
  }
  ghost predicate IsMinus(t: Text) { t == [] || t == [0x2d] }
  predicate IsInt(t: Text) { t != [] && AllDigits(t) && (t[0] == 0x30 ==> |t| == 1) }
  ghost predicate IsFrac(t: Text) { t == [] || (|t| > 1 && t[0] == 0x2e && AllDigits(t[1..])) }
  ghost predicate IsExp(t: Text) {
    || t == []
    || (|t| > 1 && t[0] in {0x65, 0x45} &&
        (AllDigits(t[1..]) || (|t| > 2 && t[1] in {0x2b, 0x2d} && AllDigits(t[2..]))))
  }

  // ---------------------------------------------------------------- own-property order

  function DigitsValue(t: Text): nat
    requires AllDigits(t)
  {
    if t == [] then 0 else DigitsValue(t[..|t| - 1]) * 10 + (t[|t| - 1] - 0x30)
  }

  /** Canonical array indices, which JavaScript lists first and in numeric order. */
  predicate IsIndex(k: Text) {
    k != [] && AllDigits(k) && (k[0] == 0x30 ==> |k| == 1) && DigitsValue(k) < 0xffff_ffff
  }

  predicate KeyBefore(a: Text, b: Text) {
    IsIndex(a) && (!IsIndex(b) || DigitsValue(a) < DigitsValue(b))
  }

  predicate HasKey(ms: seq<Member>, k: Text) { exists i :: 0 <= i < |ms| && ms[i].key == k }

  /** `o[k] = v` for a new key `k`, keeping own-property order. */
  function InsertMember(ms: seq<Member>, m: Member): seq<Member> {
    if ms == [] then [m]
    else if KeyBefore(m.key, ms[0].key) then [m] + ms
    else [ms[0]] + InsertMember(ms[1..], m)
  }

  predicate OwnOrder(ms: seq<Member>) {
    forall i, j | 0 <= i < j < |ms| :: ms[i].key != ms[j].key && !KeyBefore(ms[j].key, ms[i].key)
  }

  // ---------------------------------------------------------------- printer

  function Print(v: Value): (t: Text)
    decreases v, 1
  {
    match v
    case Null => NULL_TEXT
    case Bool(b) => if b then TRUE_TEXT else FALSE_TEXT
    case Str(s) => Quote(s)
    case Num(raw) => raw
    case Arr(items) => [LBRACKET] + PrintItems(items) + [RBRACKET]
    case Obj(members) => [LBRACE] + PrintMembers(members) + [RBRACE]
  }

  function PrintItems(items: seq<Value>): Text
    decreases items, 0
  {
    if items == [] then []
    else if |items| == 1 then Print(items[0])
    else Print(items[0]) + [COMMA] + PrintItems(items[1..])
  }

  function PrintMember(m: Member): Text
    decreases m, 0
  {
    Quote(m.key) + [COLON] + Print(m.value)
  }

  function PrintMembers(ms: seq<Member>): Text
    decreases ms, 0
  {
    if ms == [] then []
    else if |ms| == 1 then PrintMember(ms[0])
    else PrintMember(ms[0]) + [COMMA] + PrintMembers(ms[1..])
  }

  // ---------------------------------------------------------------- parser

  predicate IsSpace(c: CodeUnit) { c == 0x20 || c == 0x09 || c == 0x0a || c == 0x0d }

  function SkipSpace(t: Text): (r: Text)
    ensures |r| <= |t| && r == t[|t| - |r|..] && (r != [] ==> !IsSpace(r[0]))
  {
    if t != [] && IsSpace(t[0]) then SkipSpace(t[1..]) else t
  }

  /** A value at the front of the text, and the text after it. */
  function ParseValue(t: Text, depth: nat): (r: Option<(Value, Text)>)
    ensures r.Some? ==> |r.value.1| < |t|
    decreases |t|, 1
  {
    var u := SkipSpace(t);
    if depth > MAX_DEPTH || u == [] then None
    else if u[0] == LBRACE then
      var w := SkipSpace(u[1..]);
      if w != [] && w[0] == RBRACE then Some((Obj([]), w[1..])) else ParseMembers(w, depth, [])
    else if u[0] == LBRACKET then
      var w := SkipSpace(u[1..]);
      if w != [] && w[0] == RBRACKET then Some((Arr([]), w[1..])) else ParseItems(w, depth, [])
    else if u[0] == QUOTE then
      var s := ParseString(u);
      if s.None? then None else Some((Str(s.value.0), s.value.1))
    else if TRUE_TEXT <= u then Some((Bool(true), u[4..]))
    else if FALSE_TEXT <= u then Some((Bool(false), u[5..]))
    else if NULL_TEXT <= u then Some((Null, u[4..]))
    else
      var rest := DropNumber(u);
      if rest.None? then None else Some((Num(u[..|u| - |rest.value|]), rest.value))
  }

  function ParseItems(t: Text, depth: nat, done: seq<Value>): (r: Option<(Value, Text)>)
    ensures r.Some? ==> |r.value.1| < |t|
    decreases |t|, 2
  {
    var v := ParseValue(t, depth + 1);
    if v.None? then None
    else
      var u := SkipSpace(v.value.1);
      if u == [] then None
      else if u[0] == COMMA then ParseItems(u[1..], depth, done + [v.value.0])
      else if u[0] == RBRACKET then Some((Arr(done + [v.value.0]), u[1..]))
      else None
  }

  /** A member key and its colon. */
  function ParseKey(t: Text): (r: Option<(Text, Text)>)
    ensures r.Some? ==> |r.value.1| < |t|
  {
    var u := SkipSpace(t);
    if u == [] || u[0] != QUOTE then None
    else
      var k := ParseString(u);
      if k.None? then None
      else
        var w := SkipSpace(k.value.1);
        if w == [] || w[0] != COLON then None else Some((k.value.0, w[1..]))
  }

  function ParseMembers(t: Text, depth: nat, done: seq<Member>): (r: Option<(Value, Text)>)
    ensures r.Some? ==> |r.value.1| < |t|
    decreases |t|, 0
  {
    var k := ParseKey(t);
    if k.None? || HasKey(done, k.value.0) then None
    else
      var v := ParseValue(k.value.1, depth + 1);
      if v.None? then None
      else
        var ms := InsertMember(done, Member(k.value.0, v.value.0));
        var x := SkipSpace(v.value.1);
        if x == [] then None
        else if x[0] == COMMA then ParseMembers(x[1..], depth, ms)
        else if x[0] == RBRACE then Some((Obj(ms), x[1..]))
        else None
  }

  /** `parseJsonLossless`: one value and nothing else. */
  function Parse(t: Text): (r: Option<Value>) {
    var v := ParseValue(t, 0);
    if v.Some? && SkipSpace(v.value.1) == [] then Some(v.value.0) else None
  }
}
