/**
 * Canonical encodings can be read back: every encoded struct ends where its own brackets close, its
 * members are determined by its text, and concatenations of encodings split in one way only.
 */
module UniqueReading {
  import opened Common
  import opened Json
  import opened JsonRoundTrip
  import opened Decimal
  import opened Scanner
  import opened Encoding
  import Utf8

  /** A complete piece of canonical text. */
  ghost predicate Whole(t: Text) {
    Solid(t) && Utf8.Paired(t)
  }

  ghost predicate AllWhole(ts: seq<Text>) {
    forall i | 0 <= i < |ts| :: Whole(ts[i])
  }

  predicate IsNumberChar(c: CodeUnit) {
    IsDigit(c) || c in {0x2b, 0x2d, 0x2e, 0x65}
  }

  lemma WholeOrdinary(t: Text)
    requires forall i | 0 <= i < |t| :: IsOrdinary(t[i]) && t[i] < 0x80
    ensures Whole(t)
  {
    OrdinaryIsSolid(t);
    Utf8.AsciiIsPaired(t);
  }

  lemma WholeNumber(t: Text)
    requires forall i | 0 <= i < |t| :: IsNumberChar(t[i])
    ensures Whole(t)
  {
    WholeOrdinary(t);
  }

  lemma WholeQuote(s: Text)
    ensures Whole(Quote(s))
  {
    QuotedIsSolid(s);
    Utf8.QuotedIsPaired(s);
  }

  lemma WholeAppend(a: Text, b: Text)
    requires Whole(a) && Whole(b)
    ensures Whole(a + b)
  {
    SolidAppend(a, b);
    Utf8.PairedAppend(a, b);
  }

  lemma WholeEntry(e: Entry)
    requires Whole(e.text)
    ensures Whole(EntryText(e)) && EntryText(e) != [] && EntryText(e)[0] == QUOTE
  {
    hide Whole, Quote;
    WholeQuote(e.key);
    WholeOrdinary([COLON]);
    WholeAppend([COLON], e.text);
    WholeAppend(Quote(e.key), [COLON] + e.text);
    QuoteStarts(e.key);
  }

  lemma {:induction false} JoinIsPaired(parts: seq<Text>)
    requires AllWhole(parts)
    ensures Utf8.Paired(Join(COMMA, parts))
  {
    hide Utf8.Paired, Solid;
    if parts == [] {
      Utf8.AsciiIsPaired([]);
    } else if |parts| > 1 {
      JoinIsPaired(parts[1..]);
      Utf8.AsciiIsPaired([COMMA]);
      Utf8.PairedAppend([COMMA], Join(COMMA, parts[1..]));
      Utf8.PairedAppend(parts[0], [COMMA] + Join(COMMA, parts[1..]));
    }
  }

  lemma {:induction false} JoinIsJoined(parts: seq<Text>)
    ensures Join(COMMA, parts) == Joined(parts)
  {
    if |parts| > 1 { JoinIsJoined(parts[1..]); }
  }

  lemma WholeBracketed(open: CodeUnit, parts: seq<Text>, close: CodeUnit)
    requires open in {LBRACE, LBRACKET} && close in {RBRACE, RBRACKET} && AllWhole(parts)
    ensures Whole([open] + (Join(COMMA, parts) + [close]))
  {
    hide Utf8.Paired, Solid, Inside, Join;
    JoinedIsInside(parts);
    JoinIsJoined(parts);
    BracketedIsSolid(open, Join(COMMA, parts), close);
    JoinIsPaired(parts);
    Utf8.AsciiIsPaired([open]);
    Utf8.AsciiIsPaired([close]);
    Utf8.PairedAppend(Join(COMMA, parts), [close]);
    Utf8.PairedAppend([open], Join(COMMA, parts) + [close]);
  }

  // ---------------------------------------------------------------- numbers

  lemma {:induction false} DecimalChars(n: nat)
    ensures forall i | 0 <= i < |DecimalText(n)| :: IsNumberChar(DecimalText(n)[i])
  {
    if n >= 10 { DecimalChars(n / 10); }
  }

  lemma WholeMagnitude(digits: Digits, e: int)
    ensures Whole(FormatMagnitude(digits, e))
  {
    DecimalChars(if e < 0 then -e else e);
    WholeNumber(FormatMagnitude(digits, e));
  }

  lemma WholeFloat(x: F64)
    requires FormatF64(x).Some?
    ensures Whole(FormatF64(x).value)
  {
    hide FormatMagnitude, Whole;
    match x {
      case Zero(negative) => WholeNumber(FormatF64(x).value);
      case Finite(negative, digits, e) =>
        WholeNumber(Sign(negative));
        WholeMagnitude(digits, e);
        WholeAppend(Sign(negative), FormatMagnitude(digits, e));
    }
  }

  lemma WholeInteger(n: int)
    ensures Whole(IntegerText(n))
  {
    hide Whole;
    DecimalChars(if n < 0 then -n else n);
    WholeNumber(IntegerText(n));
  }

  lemma WholeUint(v: Value, max: nat)
    requires EncUint(v, max).Some?
    ensures Whole(EncUint(v, max).value)
  {
    hide Whole;
    WholeNumber(v.raw);
  }

  lemma WholeBool(b: bool)
    ensures Whole(if b then TRUE_TEXT else FALSE_TEXT) && Whole(NULL_TEXT)
  {
    hide Whole;
    WholeOrdinary(TRUE_TEXT);
    WholeOrdinary(FALSE_TEXT);
    WholeOrdinary(NULL_TEXT);
  }

  // ---------------------------------------------------------------- values

  ghost predicate AllEntriesWhole(es: seq<Entry>) {
    forall i | 0 <= i < |es| :: Whole(es[i].text)
  }

  lemma {:induction false} InsertKeepsWhole(es: seq<Entry>, e: Entry)
    requires AllEntriesWhole(es) && Whole(e.text)
    ensures AllEntriesWhole(InsertEntry(es, e))
  {
    hide Whole, KeyLess;
    if es != [] { InsertKeepsWhole(es[1..], e); }
  }

  lemma {:induction false} SortKeepsWhole(es: seq<Entry>)
    requires AllEntriesWhole(es)
    ensures AllEntriesWhole(SortEntries(es))
  {
    hide Whole, InsertEntry;
    if es != [] {
      SortKeepsWhole(es[1..]);
      InsertKeepsWhole(SortEntries(es[1..]), es[0]);
    }
  }

  lemma WholeEntries(es: seq<Entry>)
    requires AllEntriesWhole(es)
    ensures AllWhole(EntryTexts(es)) && AllMembers(EntryTexts(es)) && Whole(Braces(EntryTexts(es)))
  {
    forall i | 0 <= i < |es|
      ensures Whole(EntryTexts(es)[i]) && EntryTexts(es)[i] != [] && EntryTexts(es)[i][0] == QUOTE
    {
      WholeEntry(es[i]);
    }
    hide Solid, Utf8.Paired, EntryText;
    WholeBracketed(LBRACE, EntryTexts(es), RBRACE);
  }

  lemma {:induction false} WholeValue(number: Reading, v: Value)
    requires EncValue(number, v).Some?
    ensures Whole(EncValue(number, v).value)
    decreases v, 1
  {
    hide Whole, EncItems, EncEntries, SortEntries, EntryTexts, Quote, FormatF64, IntegerText;
    match v {
      case Null => WholeBool(true);
      case Bool(b) => WholeBool(b);
      case Str(s) => WholeQuote(s);
      case Num(raw) =>
        var n := IntegerOf(raw);
        if n.Some? { WholeInteger(n.value); }
        if FormatF64(number(raw)).Some? { WholeFloat(number(raw)); }
      case Arr(items) =>
        WholeItems(number, items);
        WholeBracketed(LBRACKET, EncItems(number, items).value, RBRACKET);
      case Obj(members) =>
        WholeMembers(number, members);
        SortKeepsWhole(EncEntries(number, members).value);
        WholeEntries(SortEntries(EncEntries(number, members).value));
    }
  }

  lemma {:induction false} WholeItems(number: Reading, items: seq<Value>)
    requires EncItems(number, items).Some?
    ensures AllWhole(EncItems(number, items).value)
    decreases items, 0
  {
    hide Whole, EncValue;
    if items != [] {
      WholeValue(number, items[0]);
      WholeItems(number, items[1..]);
    }
  }

  lemma {:induction false} WholeMembers(number: Reading, ms: seq<Member>)
    requires EncEntries(number, ms).Some?
    ensures AllEntriesWhole(EncEntries(number, ms).value)
    decreases ms, 0
  {
    hide Whole, EncValue;
    if ms != [] {
      WholeValue(number, ms[0].value);
      WholeMembers(number, ms[1..]);
    }
  }

  // ---------------------------------------------------------------- structs

  lemma {:induction false} WholeStrs(items: seq<Value>)
    requires EncStrs(items).Some?
    ensures AllWhole(EncStrs(items).value)
  {
    hide Whole;
    if items != [] {
      WholeStrs(items[1..]);
      WholeQuote(items[0].s);
    }
  }

  lemma {:induction false} WholeUints(items: seq<Value>, max: nat)
    requires EncUints(items, max).Some?
    ensures AllWhole(EncUints(items, max).value)
  {
    hide Whole;
    if items != [] {
      WholeUints(items[1..], max);
      WholeUint(items[0], max);
    }
  }

  lemma {:induction false} WholeKind(number: Reading, kind: Kind, v: Value)
    requires EncKind(number, kind, v).Some?
    ensures Whole(EncKind(number, kind, v).value)
    decreases kind, 0, 0
  {
    hide Whole, EncStruct, EncStructs, EncValue, EncItems, EncStrs, EncUints, EncUint, FormatF64, Quote;
    match kind {
      case StrKind => WholeQuote(v.s);
      case UintKind(max) => WholeUint(v, max);
      case F64Kind => WholeFloat(number(v.raw));
      case BoolKind => WholeBool(v.b);
      case StrsKind =>
        WholeStrs(v.items);
        WholeBracketed(LBRACKET, EncStrs(v.items).value, RBRACKET);
      case U64sKind =>
        WholeUints(v.items, U64_MAX);
        WholeBracketed(LBRACKET, EncUints(v.items, U64_MAX).value, RBRACKET);
      case ValueKind => WholeValue(number, v);
      case ValuesKind =>
        WholeItems(number, v.items);
        WholeBracketed(LBRACKET, EncItems(number, v.items).value, RBRACKET);
      case StructKind(fields) => WholeStruct(number, v, fields);
      case StructsKind(fields) =>
        WholeStructs(number, v.items, fields);
        WholeBracketed(LBRACKET, EncStructs(number, v.items, fields).value, RBRACKET);
    }
  }

  lemma {:induction false} WholeFields(number: Reading, ms: seq<Member>, fields: seq<Field>)
    requires EncFields(number, ms, fields).Some?
    ensures AllEntriesWhole(EncFields(number, ms, fields).value)
    decreases fields, 0, 0
  {
    hide Whole, EncKind;
    if fields != [] {
      WholeFields(number, ms, fields[1..]);
      if EncField(number, ms, fields[0]).value.Some? { WholeField(number, ms, fields[0]); }
    }
  }

  lemma {:induction false} WholeField(number: Reading, ms: seq<Member>, f: Field)
    requires EncField(number, ms, f).Ok? && EncField(number, ms, f).value.Some?
    ensures Whole(EncField(number, ms, f).value.value)
    decreases f, 0, 0
  {
    hide Whole, EncKind;
    var x := Lookup(ms, f.name);
    WholeBool(true);
    if x.Some? && EncKind(number, f.kind, x.value).Some? {
      WholeKind(number, f.kind, x.value);
    }
  }

  lemma {:induction false} WholeStruct(number: Reading, v: Value, fields: seq<Field>)
    requires EncStruct(number, v, fields).Some?
    ensures Whole(EncStruct(number, v, fields).value)
    decreases fields, 1, 0
  {
    hide Whole, EncFields, EntryTexts;
    WholeFields(number, v.members, fields);
    WholeEntries(EncFields(number, v.members, fields).value);
  }

  lemma {:induction false} WholeStructs(number: Reading, items: seq<Value>, fields: seq<Field>)
    requires EncStructs(number, items, fields).Some?
    ensures AllWhole(EncStructs(number, items, fields).value)
    decreases fields, 2, |items|
  {
    hide Whole, EncStruct;
    if items != [] {
      WholeStruct(number, items[0], fields);
      WholeStructs(number, items[1..], fields);
    }
  }

  // ---------------------------------------------------------------- what a text determines

  lemma EntryIsDetermined(e: Entry, f: Entry)
    requires EntryText(e) == EntryText(f)
    ensures e == f
  {
    hide Quote, ParseString;
    QuotedStringReadsBack(e.key, [COLON] + e.text);
    QuotedStringReadsBack(f.key, [COLON] + f.text);
    QuoteStarts(e.key);
    assert ([COLON] + e.text)[1..] == e.text && ([COLON] + f.text)[1..] == f.text;
  }

  lemma EntriesAreDetermined(es: seq<Entry>, fs: seq<Entry>)
    requires EntryTexts(es) == EntryTexts(fs)
    ensures es == fs
  {
    hide EntryText;
    forall i | 0 <= i < |es| ensures es[i] == fs[i] {
      assert EntryTexts(es)[i] == EntryTexts(fs)[i];
      EntryIsDetermined(es[i], fs[i]);
    }
  }

  /** Braced member lists followed by anything: the text fixes the members and what follows. */
  lemma BracesReadOneWay(es: seq<Entry>, fs: seq<Entry>, x: Text, y: Text)
    requires AllEntriesWhole(es) && AllEntriesWhole(fs)
    requires Braces(EntryTexts(es)) + x == Braces(EntryTexts(fs)) + y
    ensures es == fs && x == y
  {
    hide Whole, EntryTexts, Join, Solid;
    var ps, qs := EntryTexts(es), EntryTexts(fs);
    WholeEntries(es);
    WholeEntries(fs);
    JoinIsJoined(ps);
    JoinIsJoined(qs);
    Unbrace(ps, x);
    Unbrace(qs, y);
    SplitIsUnique(ps, qs, RBRACE, x, y);
    EntriesAreDetermined(es, fs);
  }

  lemma Unbrace(ps: seq<Text>, x: Text)
    ensures (Braces(ps) + x)[1..] == Join(COMMA, ps) + ([RBRACE] + x)
  {
    hide Join;
    var j := Join(COMMA, ps);
    assert Braces(ps) + x == [LBRACE] + (j + ([RBRACE] + x));
  }

  /** Encoded structs are prefix-free, and the text fixes every entry. */
  lemma StructReadsOneWay(number: Reading, v: Value, w: Value, fields: seq<Field>, gields: seq<Field>, x: Text, y: Text)
    requires EncStruct(number, v, fields).Some? && EncStruct(number, w, gields).Some?
    requires EncStruct(number, v, fields).value + x == EncStruct(number, w, gields).value + y
    ensures EncStruct(number, v, fields) == EncStruct(number, w, gields) && x == y
    ensures EncFields(number, v.members, fields) == EncFields(number, w.members, gields)
  {
    hide Whole, EncFields, EntryTexts, Braces;
    WholeFields(number, v.members, fields);
    WholeFields(number, w.members, gields);
    BracesReadOneWay(EncFields(number, v.members, fields).value, EncFields(number, w.members, gields).value, x, y);
  }

  ghost predicate DistinctNames(fields: seq<Field>) {
    forall i, j | 0 <= i < j < |fields| :: fields[i].name != fields[j].name
  }

  lemma {:induction false} EntryNames(number: Reading, ms: seq<Member>, fields: seq<Field>)
    requires EncFields(number, ms, fields).Some?
    ensures forall e | e in EncFields(number, ms, fields).value ::
              exists j :: 0 <= j < |fields| && fields[j].name == e.key
  {
    hide EncField;
    if fields != [] {
      EntryNames(number, ms, fields[1..]);
      forall e | e in EncFields(number, ms, fields).value
        ensures exists j :: 0 <= j < |fields| && fields[j].name == e.key
      {
        if e in EncFields(number, ms, fields[1..]).value {
          var j :| 0 <= j < |fields[1..]| && fields[1..][j].name == e.key;
          assert fields[j + 1].name == e.key;
        } else {
          assert fields[0].name == e.key;
        }
      }
    }
  }

  /** Equal entry lists come from equal fields, field by field, absent ones included. */
  lemma {:induction false} FieldsAreDetermined(number: Reading, ms: seq<Member>, ns: seq<Member>, fields: seq<Field>)
    requires DistinctNames(fields)
    requires EncFields(number, ms, fields).Some? && EncFields(number, ms, fields) == EncFields(number, ns, fields)
    ensures forall i | 0 <= i < |fields| :: EncField(number, ms, fields[i]) == EncField(number, ns, fields[i])
  {
    hide EncField;
    if fields != [] {
      var rest := fields[1..];
      assert DistinctNames(rest);
      HeadIsDetermined(number, ms, ns, fields);
      FieldsAreDetermined(number, ms, ns, rest);
      forall i | 0 <= i < |fields| ensures EncField(number, ms, fields[i]) == EncField(number, ns, fields[i]) {
        assert i > 0 ==> fields[i] == rest[i - 1];
      }
    }
  }

  /** The first entry bears the first field's name exactly when that field is present. */
  lemma HeadName(number: Reading, ms: seq<Member>, fields: seq<Field>)
    requires fields != [] && DistinctNames(fields) && EncFields(number, ms, fields).Some?
    ensures var es := EncFields(number, ms, fields).value;
            EncField(number, ms, fields[0]).value.Some? <==> es != [] && es[0].key == fields[0].name
  {
    hide EncField;
    var rest := fields[1..];
    EntryNames(number, ms, rest);
    var p := EncFields(number, ms, rest).value;
    assert forall j | 0 <= j < |rest| :: rest[j].name != fields[0].name;
    assert p != [] ==> p[0] in p;
  }

  lemma HeadIsDetermined(number: Reading, ms: seq<Member>, ns: seq<Member>, fields: seq<Field>)
    requires fields != [] && DistinctNames(fields)
    requires EncFields(number, ms, fields).Some? && EncFields(number, ms, fields) == EncFields(number, ns, fields)
    ensures EncField(number, ms, fields[0]) == EncField(number, ns, fields[0])
    ensures EncFields(number, ms, fields[1..]) == EncFields(number, ns, fields[1..])
  {
    hide EncField, DistinctNames;
    HeadName(number, ms, fields);
    HeadName(number, ns, fields);
    var es := EncFields(number, ms, fields).value;
    if EncField(number, ms, fields[0]).value.Some? {
      assert es[1..] == EncFields(number, ms, fields[1..]).value;
      assert es[1..] == EncFields(number, ns, fields[1..]).value;
    }
  }

  /** A struct's text commits to every one of its fields. */
  lemma StructCommitsToFields(number: Reading, v: Value, w: Value, fields: seq<Field>)
    requires DistinctNames(fields)
    requires EncStruct(number, v, fields).Some? && EncStruct(number, v, fields) == EncStruct(number, w, fields)
    ensures forall i | 0 <= i < |fields| ::
              EncField(number, v.members, fields[i]) == EncField(number, w.members, fields[i])
  {
    hide EncFields, EncField;
    StructReadsOneWay(number, v, w, fields, fields, [], []);
    FieldsAreDetermined(number, v.members, w.members, fields);
  }

  predicate IsScalar(k: Kind) {
    k.StrKind? || k.UintKind? || k.BoolKind?
  }

  /** What a field was given: an optional field that is null was given nothing. */
  function Given(ms: seq<Member>, f: Field): Option<Value> {
    var x := Lookup(ms, f.name);
    if !f.presence.Required? && x == Some(Null) then None else x
  }

  /**
   * Text, unsigned and boolean fields are themselves determined, not only their encodings; optional ones up to null.
   */
  lemma ScalarIsDetermined(number: Reading, ms: seq<Member>, ns: seq<Member>, f: Field)
    requires IsScalar(f.kind) && EncField(number, ms, f).Ok? && EncField(number, ms, f) == EncField(number, ns, f)
    ensures Given(ms, f) == Given(ns, f)
  {
    hide EncKind, NULL_TEXT;
    var x, y := Given(ms, f), Given(ns, f);
    if x.Some? { ScalarIsNotNull(number, f.kind, x.value); }
    if y.Some? { ScalarIsNotNull(number, f.kind, y.value); }
    if x.Some? && y.Some? { ScalarTextIsUnique(number, f.kind, x.value, y.value); }
  }

  lemma ScalarIsNotNull(number: Reading, kind: Kind, x: Value)
    requires IsScalar(kind) && EncKind(number, kind, x).Some?
    ensures EncKind(number, kind, x).value != NULL_TEXT
  {
    hide Quote;
    if kind.StrKind? { QuoteStarts(x.s); }
  }

  lemma ScalarTextIsUnique(number: Reading, kind: Kind, x: Value, y: Value)
    requires IsScalar(kind) && EncKind(number, kind, x).Some? && EncKind(number, kind, x) == EncKind(number, kind, y)
    ensures x == y
  {
    hide Quote;
    if kind.StrKind? { EntryIsDetermined(Entry(x.s, []), Entry(y.s, [])); }
  }
}
