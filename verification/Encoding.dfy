/**
 * The canonical (serde_json) encoding that feeds block and transaction hashes. `None` is
 * a throw.
 */
module Encoding {
  import opened Common
  import opened Json
  import opened Decimal
  import opened Scanner

  /** Plain text of a string literal. */
  function T(s: string): Text {
    seq(|s|, i requires 0 <= i < |s| => if s[i] as int < 0x80 then s[i] as int else 0xfffd)
  }

  // ---------------------------------------------------------------- floats

  /**
   * An f64 by its shortest round-trip digits `d0 d1 .. dk` and the decimal exponent of `d0`: what
   * `toExponential` reports.
   */
  datatype F64 = NonFinite | Zero(negative: bool) | Finite(negative: bool, digits: Digits, exponent: int)

  type Digits = t: Text | t != [] && AllDigits(t) witness [0x30]

  /** `Number(raw)`. */
  type Reading = Text -> F64

  function Zeros(n: nat): (t: Text)
    ensures |t| == n && forall i | 0 <= i < n :: t[i] == 0x30
  {
    seq(n, _ => 0x30)
  }

  function Sign(negative: bool): Text {
    if negative then [0x2d] else []
  }

  /** The part of the text after the sign. */
  function FormatMagnitude(digits: Digits, e: int): Text {
    var len := |digits|;
    if -5 <= e <= 15 then
      if len - 1 <= e then digits + Zeros(e - (len - 1)) + [0x2e, 0x30]
      else if e >= 0 then digits[..e + 1] + [0x2e] + digits[e + 1..]
      else [0x30, 0x2e] + Zeros(-e - 1) + digits
    else
      [digits[0]] + (if len > 1 then [0x2e] + digits[1..] else []) + [0x65, if e < 0 then 0x2d else 0x2b]
      + DecimalText(if e < 0 then -e else e)
  }

  /** `formatF64`. */
  function FormatF64(x: F64): (r: Option<Text>) {
    match x
    case NonFinite => None
    case Zero(negative) => Some(Sign(negative) + [0x30, 0x2e, 0x30])
    case Finite(negative, digits, e) => Some(Sign(negative) + FormatMagnitude(digits, e))
  }

  // ---------------------------------------------------------------- scalars

  const U8_MAX: nat := 255
  const U16_MAX: nat := 65535
  const U32_MAX: nat := 4294967295
  const U64_MAX: nat := 0xffff_ffff_ffff_ffff
  const U128_MAX: nat := 0xffff_ffff_ffff_ffff_ffff_ffff_ffff_ffff
  const I64_MIN: int := -0x8000_0000_0000_0000

  function EncUint(v: Value, max: nat): (r: Option<Text>) {
    if v.Num? && IsInt(v.raw) && DigitsValue(v.raw) <= max then Some(v.raw) else None
  }

  function EncF64(number: Reading, v: Value): Option<Text> {
    if v.Num? then FormatF64(number(v.raw)) else None
  }

  function EncStr(v: Value): Option<Text> {
    if v.Str? then Some(Quote(v.s)) else None
  }

  function EncBool(v: Value): Option<Text> {
    if v.Bool? then Some(if v.b then TRUE_TEXT else FALSE_TEXT) else None
  }

  /** Whether the text is an integer other than "-0", and its value. */
  function IntegerOf(raw: Text): Option<int> {
    if IsInt(raw) then Some(DigitsValue(raw))
    else if raw != [] && raw[0] == 0x2d && IsInt(raw[1..])
        && raw[1..] != [0x30] then Some(-(DigitsValue(raw[1..]) as int))
    else None
  }

  function IntegerText(n: int): Text {
    if n < 0 then [0x2d] + DecimalText(-n) else DecimalText(n)
  }

  function EncNumber(number: Reading, raw: Text): Option<Text> {
    var n := IntegerOf(raw);
    if n.Some? && I64_MIN <= n.value <= U64_MAX then Some(IntegerText(n.value)) else FormatF64(number(raw))
  }

  // ---------------------------------------------------------------- JSON values

  function CodePoints(t: Text): seq<int> {
    if t == [] then []
    else if |t| > 1 && IsHigh(t[0]) && IsLow(t[1]) then
      [0x10000 + (t[0] - 0xd800) * 0x400 + (t[1] - 0xdc00)] + CodePoints(t[2..])
    else [t[0]] + CodePoints(t[1..])
  }

  predicate PointsLess(a: seq<int>, b: seq<int>) {
    b != [] && (a == [] || a[0] < b[0] || (a[0] == b[0] && PointsLess(a[1..], b[1..])))
  }

  predicate KeyLess(a: Text, b: Text) {
    PointsLess(CodePoints(a), CodePoints(b))
  }

  /** A key and the encoding of its value. */
  datatype Entry = Entry(key: Text, text: Text)

  function InsertEntry(es: seq<Entry>, e: Entry): seq<Entry> {
    if es == [] || KeyLess(e.key, es[0].key) then [e] + es else [es[0]] + InsertEntry(es[1..], e)
  }

  /** Entries by key, in code point order. */
  function SortEntries(es: seq<Entry>): seq<Entry> {
    if es == [] then [] else InsertEntry(SortEntries(es[1..]), es[0])
  }

  function EntryText(e: Entry): Text {
    Quote(e.key) + ([COLON] + e.text)
  }

  function EntryTexts(es: seq<Entry>): (r: seq<Text>)
    ensures |r| == |es|
    ensures forall i | 0 <= i < |es| :: r[i] == EntryText(es[i])
  {
    seq(|es|, i requires 0 <= i < |es| => EntryText(es[i]))
  }

  function Braces(parts: seq<Text>): Text {
    [LBRACE] + (Join(COMMA, parts) + [RBRACE])
  }

  function Brackets(parts: seq<Text>): Text {
    [LBRACKET] + (Join(COMMA, parts) + [RBRACKET])
  }

  /** `encValue`. */
  function EncValue(number: Reading, v: Value): (r: Option<Text>)
    decreases v, 1
  {
    match v
    case Num(raw) => EncNumber(number, raw)
    case Arr(items) =>
      var parts := EncItems(number, items);
      if parts.None? then None else Some(Brackets(parts.value))
    case Obj(members) =>
      var es := EncEntries(number, members);
      if es.None? then None else Some(Braces(EntryTexts(SortEntries(es.value))))
    case _ => Some(Print(v))
  }

  function EncItems(number: Reading, items: seq<Value>): (r: Option<seq<Text>>)
    ensures r.Some? ==> |r.value| == |items|
    decreases items, 0
  {
    if items == [] then Some([])
    else
      var first, rest := EncValue(number, items[0]), EncItems(number, items[1..]);
      if first.None? || rest.None? then None else Some([first.value] + rest.value)
  }

  function EncEntries(number: Reading, ms: seq<Member>): (r: Option<seq<Entry>>)
    ensures r.Some? ==> |r.value| == |ms|
    decreases ms, 0
  {
    if ms == [] then Some([])
    else
      var first, rest := EncValue(number, ms[0].value), EncEntries(number, ms[1..]);
      if first.None? || rest.None? then None else Some([Entry(ms[0].key, first.value)] + rest.value)
  }

  // ---------------------------------------------------------------- structs

  datatype Kind =
    | StrKind | UintKind(max: nat) | F64Kind | BoolKind | StrsKind | U64sKind | ValueKind | ValuesKind
    | StructKind(fields: seq<Field>) | StructsKind(fields: seq<Field>)

  /** Always present; an option written as null; an option left out. */
  datatype Presence = Required | Nullable | Skipped

  datatype Field = Field(name: Text, kind: Kind, presence: Presence)

  function EncStrs(items: seq<Value>): Option<seq<Text>> {
    if items == [] then Some([])
    else
      var first, rest := EncStr(items[0]), EncStrs(items[1..]);
      if first.None? || rest.None? then None else Some([first.value] + rest.value)
  }

  function EncUints(items: seq<Value>, max: nat): Option<seq<Text>> {
    if items == [] then Some([])
    else
      var first, rest := EncUint(items[0], max), EncUints(items[1..], max);
      if first.None? || rest.None? then None else Some([first.value] + rest.value)
  }

  function InBrackets(parts: Option<seq<Text>>): Option<Text> {
    if parts.None? then None else Some(Brackets(parts.value))
  }

  /** `encKind`, and the nested structs of transactions, headers and certificates. */
  function EncKind(number: Reading, kind: Kind, v: Value): (r: Option<Text>)
    decreases kind, 0, 0
  {
    match kind
    case StrKind => EncStr(v)
    case UintKind(max) => EncUint(v, max)
    case F64Kind => EncF64(number, v)
    case BoolKind => EncBool(v)
    case StrsKind => if v.Arr? then InBrackets(EncStrs(v.items)) else None
    case U64sKind => if v.Arr? then InBrackets(EncUints(v.items, U64_MAX)) else None
    case ValueKind => EncValue(number, v)
    case ValuesKind => if v.Arr? then InBrackets(EncItems(number, v.items)) else None
    case StructKind(fields) => EncStruct(number, v, fields)
    case StructsKind(fields) => if v.Arr? then InBrackets(EncStructs(number, v.items, fields)) else None
  }

  function Lookup(ms: seq<Member>, name: Text): Option<Value> {
    if ms == [] then None
    else if ms[0].key == name then Some(ms[0].value)
    else Lookup(ms[1..], name)
  }

  /** What one field contributes: nothing (`Ok(None)`), a member's text, or a failure. */
  function EncField(number: Reading, ms: seq<Member>, f: Field): (r: Result<Option<Text>, ()>)
    decreases f, 0, 0
  {
    var x := Lookup(ms, f.name);
    if f.presence.Required? && x.None? then Err(())
    else if !f.presence.Required? && (x.None? || x.value.Null?) then
      Ok(if f.presence.Nullable? then Some(NULL_TEXT) else None)
    else
      var enc := EncKind(number, f.kind, x.value);
      if enc.None? then Err(()) else Ok(enc)
  }

  function EncFields(number: Reading, ms: seq<Member>, fields: seq<Field>): (r: Option<seq<Entry>>)
    decreases fields, 0, 0
  {
    if fields == [] then Some([])
    else
      var first, rest := EncField(number, ms, fields[0]), EncFields(number, ms, fields[1..]);
      if first.Err? || rest.None? then None
      else if first.value.None? then rest
      else Some([Entry(fields[0].name, first.value.value)] + rest.value)
  }

  predicate OnlyKnown(ms: seq<Member>, fields: seq<Field>) {
    forall i | 0 <= i < |ms| :: exists j | 0 <= j < |fields| :: fields[j].name == ms[i].key
  }

  /** `encStruct`: no unexpected field, then the fields in declaration order. */
  function EncStruct(number: Reading, v: Value, fields: seq<Field>): (r: Option<Text>)
    decreases fields, 1, 0
  {
    if !v.Obj? || !OnlyKnown(v.members, fields) then None
    else
      var es := EncFields(number, v.members, fields);
      if es.None? then None else Some(Braces(EntryTexts(es.value)))
  }

  function EncStructs(number: Reading, items: seq<Value>, fields: seq<Field>): (r: Option<seq<Text>>)
    decreases fields, 2, |items|
  {
    if items == [] then Some([])
    else
      var first, rest := EncStruct(number, items[0], fields), EncStructs(number, items[1..], fields);
      if first.None? || rest.None? then None else Some([first.value] + rest.value)
  }
}
