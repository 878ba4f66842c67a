/** Sign-in text: one canonical text per set of fields, written line by line and read back. */
module SignIn {
  import opened Common
  import opened Json
  import opened Bech32m
  import opened Address
  import opened Scanner
  import opened Encoding

  const NEWLINE: CodeUnit := LINE_FEED
  const MAX_TEXT: nat := 16384

  datatype Fields = Fields(
    domain: Text, address: Text, uri: Text, statement: Option<Text>, nonce: Text, issuedAt: Text,
    expirationTime: Option<Text>, chainId: Text, resources: Option<seq<Text>>)

  // ---------------------------------------------------------------- field rules

  predicate IsAlnum(c: CodeUnit) { IsDigit(c) || 0x41 <= c <= 0x5a || 0x61 <= c <= 0x7a }

  predicate HostOk(t: Text) {
    && 0 < |t| <= 253 && IsAlnum(t[0]) && IsAlnum(t[|t| - 1])
    && forall i | 0 <= i < |t| :: IsAlnum(t[i]) || t[i] == 0x2e || t[i] == 0x2d
  }

  predicate PortOk(t: Text) {
    t == [] || (t[0] == 0x3a && 1 <= |t| - 1 <= 5 && AllDigits(t[1..]))
  }

  predicate DomainOk(t: Text) {
    exists k :: 0 <= k <= |t| && HostOk(t[..k]) && PortOk(t[k..])
  }

  predicate NonceOk(t: Text) {
    16 <= |t| <= 128 && forall i | 0 <= i < |t| :: IsAlnum(t[i]) || t[i] == 0x5f || t[i] == 0x2d
  }

  predicate ChainIdOk(t: Text) {
    1 <= |t| <= 64 && forall i | 0 <= i < |t| :: IsAlnum(t[i]) || t[i] == 0x2e || t[i] == 0x5f || t[i] == 0x2d
  }

  predicate UriOk(t: Text) {
    1 <= |t| <= 2048 && forall i | 0 <= i < |t| :: 0x21 <= t[i] <= 0x7e
  }

  predicate IsControl(c: CodeUnit) {
    c <= 0x1f || 0x7f <= c <= 0x9f || c == 0x2028 || c == 0x2029 || 0x202a <= c <= 0x202e || 0x2066 <= c <= 0x2069
  }

  predicate StatementOk(t: Text) {
    1 <= |t| <= 1024 && (forall i | 0 <= i < |t| :: !IsControl(t[i])) && !IsBlank(t[0]) && !IsBlank(t[|t| - 1])
  }

  predicate DigitsAt(t: Text, a: nat, b: nat) {
    a <= b <= |t| && forall i | a <= i < b :: IsDigit(t[i])
  }

  /** Z, or a signed hh:mm. */
  predicate ZoneOk(t: Text) {
    || t == [0x5a]
    || (|t| == 6 && (t[0] == 0x2b || t[0] == 0x2d) && DigitsAt(t, 1, 3) && t[3] == 0x3a && DigitsAt(t, 4, 6))
  }

  /** yyyy-mm-ddThh:mm:ss, a fraction of one to nine digits if any, and a zone. */
  predicate IsoOk(t: Text) {
    && |t| >= 20
    && DigitsAt(t, 0, 4) && t[4] == 0x2d && DigitsAt(t, 5, 7) && t[7] == 0x2d && DigitsAt(t, 8, 10) && t[10] == 0x54
    && DigitsAt(t, 11, 13) && t[13] == 0x3a && DigitsAt(t, 14, 16) && t[16] == 0x3a && DigitsAt(t, 17, 19)
    && (ZoneOk(t[19..]) || (t[19] == 0x2e && exists k ::
                            21 <= k <= 29 && k <= |t| && DigitsAt(t, 20, k) && ZoneOk(t[k..])))
  }

  /** The JavaScript host: whether `Date.parse` gives a time, and `toLowerCase`. */
  datatype Host = Host(hasTime: Text -> bool, lower: Lowering)

  predicate TimeOk(host: Host, t: Text) {
    IsoOk(t) && host.hasTime(t)
  }

  predicate ResourcesOk(rs: seq<Text>) {
    |rs| <= 32 && forall i | 0 <= i < |rs| :: UriOk(rs[i])
  }

  predicate PlainFieldsOk(host: Host, f: Fields) {
    && DomainOk(f.domain) && UriOk(f.uri) && (f.statement.Some? ==> StatementOk(f.statement.value))
    && NonceOk(f.nonce) && TimeOk(host, f.issuedAt) && (f.expirationTime.Some? ==> TimeOk(host, f.expirationTime.value))
    && ChainIdOk(f.chainId) && (f.resources.Some? ==> ResourcesOk(f.resources.value))
  }

  /** No `signInFieldError`. */
  ghost predicate Valid(host: Host, f: Fields) {
    PlainFieldsOk(host, f) && host.lower(f.address) == f.address && SdkAccepts(host.lower, f.address)
  }

  method FieldsAreValid(host: Host, f: Fields) returns (ok: bool)
    ensures ok <==> Valid(host, f)
  {
    hide SdkAccepts, PlainFieldsOk;
    if !PlainFieldsOk(host, f) || host.lower(f.address) != f.address { return false; }
    ok := IsRougeAddress(host.lower, f.address);
  }

  // ---------------------------------------------------------------- one line each

  predicate OneLine(t: Text) {
    NEWLINE !in t
  }

  lemma FieldsAreOneLine(host: Host, f: Fields)
    requires PlainFieldsOk(host, f)
    ensures OneLine(f.domain) && OneLine(f.uri) && OneLine(f.nonce) && OneLine(f.issuedAt) && OneLine(f.chainId)
    ensures f.statement.Some? ==> OneLine(f.statement.value) && f.statement.value != []
    ensures f.expirationTime.Some? ==> OneLine(f.expirationTime.value)
    ensures f.resources.Some? ==> forall i | 0 <= i < |f.resources.value| :: OneLine(f.resources.value[i])
  {
    hide DomainOk, IsoOk;
    DomainIsOneLine(f.domain);
    TimeIsOneLine(f.issuedAt);
    if f.expirationTime.Some? { TimeIsOneLine(f.expirationTime.value); }
  }

  lemma DomainIsOneLine(t: Text)
    requires DomainOk(t)
    ensures OneLine(t)
  {
    var k :| 0 <= k <= |t| && HostOk(t[..k]) && PortOk(t[k..]);
    forall i | 0 <= i < |t| ensures t[i] != NEWLINE {
      if i < k {
        assert t[..k][i] == t[i];
      } else {
        assert t[k..][i - k] == t[i];
        if i > k { assert t[k..][1..][i - k - 1] == t[i]; }
      }
    }
  }

  lemma ZoneIsOneLine(t: Text, k: nat)
    requires k <= |t| && ZoneOk(t[k..])
    ensures forall i | k <= i < |t| :: t[i] != NEWLINE
  {
    var z := t[k..];
    assert forall i | 0 <= i < |z| :: z[i] != NEWLINE;
    assert forall i | k <= i < |t| :: t[i] == z[i - k];
  }

  lemma TimeIsOneLine(t: Text)
    requires IsoOk(t)
    ensures OneLine(t)
  {
    hide ZoneOk;
    if ZoneOk(t[19..]) {
      ZoneIsOneLine(t, 19);
    } else {
      var k :| 21 <= k <= 29 && k <= |t| && DigitsAt(t, 20, k) && ZoneOk(t[k..]);
      ZoneIsOneLine(t, k);
    }
  }

  /** With the prefix part exactly `rouge`, the address is one line. */
  lemma RougeIsOneLine(lower: Lowering, a: Text)
    requires SdkAccepts(lower, a) && lower(a) == a && Separator(a) == 5
    ensures OneLine(a)
  {
    hide Fold, Charset, Expand, Indexes, Bvs;
    assert forall i | 0 <= i < 6 :: a[i] == (ROUGE + [ONE])[i];
    forall i | 6 <= i < |a| ensures a[i] != NEWLINE {
      assert a[6..][i - 6] == a[i];
      ClassUnit(a[i]);
    }
  }

  // ---------------------------------------------------------------- lines

  function Header(f: Fields): Text {
    f.domain + T(" wants you to sign in with your RougeChain account:")
  }

  function Labelled(tag: string, value: Text): Text {
    T(tag) + value
  }

  function Bullets(rs: seq<Text>): (r: seq<Text>)
    ensures |r| == |rs| && forall i | 0 <= i < |rs| :: r[i] == Labelled("- ", rs[i])
  {
    seq(|rs|, i requires 0 <= i < |rs| => Labelled("- ", rs[i]))
  }

  function Opening(f: Fields): seq<Text> {
    [Header(f), f.address, []] + (if f.statement.Some? then [f.statement.value] else []) + [[]]
  }

  function Middle(f: Fields): seq<Text> {
    [Labelled("URI: ", f.uri), T("Version: 1"), Labelled("Chain ID: ", f.chainId),
     Labelled("Nonce: ", f.nonce), Labelled("Issued At: ", f.issuedAt)]
  }

  function Closing(expirationTime: Option<Text>, resources: Option<seq<Text>>): seq<Text> {
    (if expirationTime.Some? then [Labelled("Expiration Time: ", expirationTime.value)] else [])
    + (if resources.Some? then [T("Resources:")] + Bullets(resources.value) else [])
  }

  function Lines(f: Fields): seq<Text> {
    Opening(f) + Middle(f) + Closing(f.expirationTime, f.resources)
  }

  function TextOf(f: Fields): Text {
    Join(NEWLINE, Lines(f))
  }

  /** `createSignInMessage`; `None` is the throw. */
  method CreateSignInMessage(host: Host, f: Fields) returns (r: Option<Text>)
    ensures r == if Valid(host, f) then Some(TextOf(f)) else None
  {
    hide Valid, T, Join;
    var ok := FieldsAreValid(host, f);
    if !ok { return None; }
    var lines := [Header(f), f.address, []];
    if f.statement.Some? { lines := lines + [f.statement.value]; }
    lines := lines + [[]];
    assert lines == Opening(f);
    lines := lines + [Labelled("URI: ", f.uri)];
    lines := lines + [T("Version: 1")];
    lines := lines + [Labelled("Chain ID: ", f.chainId)];
    lines := lines + [Labelled("Nonce: ", f.nonce)];
    lines := lines + [Labelled("Issued At: ", f.issuedAt)];
    assert lines == Opening(f) + Middle(f);
    var closing := ClosingLines(f);
    return Some(Join(NEWLINE, lines + closing));
  }

  /** The optional lines at the end. */
  method ClosingLines(f: Fields) returns (lines: seq<Text>)
    ensures lines == Closing(f.expirationTime, f.resources)
  {
    hide T;
    lines := [];
    if f.expirationTime.Some? { lines := lines + [Labelled("Expiration Time: ", f.expirationTime.value)]; }
    if f.resources.Some? {
      lines := lines + [T("Resources:")];
      ghost var top := lines;
      for k := 0 to |f.resources.value|
        invariant lines == top + Bullets(f.resources.value[..k])
      {
        lines := lines + [Labelled("- ", f.resources.value[k])];
      }
      assert f.resources.value[..|f.resources.value|] == f.resources.value;
    }
  }

  // ---------------------------------------------------------------- splitting

  /** `text.split("\\n")`. */
  function Split(t: Text): (r: seq<Text>)
    ensures r != [] && forall i | 0 <= i < |r| :: OneLine(r[i])
    decreases |t|
  {
    var k := IndexOf(t, NEWLINE);
    if k == -1 then [t]
    else
      FirstIsFree(t, NEWLINE);
      [t[..k]] + Split(t[k + 1..])
  }

  lemma {:induction false} FirstIsFree(t: Text, c: CodeUnit)
    ensures IndexOf(t, c) >= 0 ==> c !in t[..IndexOf(t, c)]
  {
    if t != [] && t[0] != c {
      FirstIsFree(t[1..], c);
      var k := IndexOf(t, c);
      if k >= 0 { assert t[..k] == [t[0]] + t[1..][..k - 1]; }
    }
  }

  lemma IndexInJoin(a: Text, rest: Text)
    requires OneLine(a)
    ensures IndexOf(a + ([NEWLINE] + rest), NEWLINE) == |a|
  {
    var t := a + ([NEWLINE] + rest);
    IndexOfIsLeast(t, NEWLINE, |a|);
  }

  lemma {:induction false} SplitInvertsJoin(lines: seq<Text>)
    requires lines != [] && forall i | 0 <= i < |lines| :: OneLine(lines[i])
    ensures Split(Join(NEWLINE, lines)) == lines
    decreases |lines|
  {
    hide IndexOf;
    if |lines| > 1 {
      var rest := Join(NEWLINE, lines[1..]);
      IndexInJoin(lines[0], rest);
      SplitInvertsJoin(lines[1..]);
      var t := lines[0] + ([NEWLINE] + rest);
      assert t[..|lines[0]|] == lines[0] && t[|lines[0]| + 1..] == rest;
      assert lines == [lines[0]] + lines[1..];
    } else {
      assert lines == [lines[0]];
    }
  }

  // ---------------------------------------------------------------- reading

  predicate StartsWith(t: Text, p: Text) {
    |p| <= |t| && t[..|p|] == p
  }

  predicate EndsWith(t: Text, p: Text) {
    |p| <= |t| && t[|t| - |p|..] == p
  }

  /** The closing lines: an expiration time and resources, or nothing. */
  function ReadResources(rest: seq<Text>): Option<Option<seq<Text>>> {
    if rest == [] then Some(None)
    else if rest[0] != T("Resources:") || !AllStartWith(rest[1..], T("- ")) then None
    else Some(Some(Unprefixed(rest[1..], T("- "))))
  }

  /** The lines without the prefix they all have. */
  function Unprefixed(ls: seq<Text>, p: Text): (r: seq<Text>)
    requires AllStartWith(ls, p)
    ensures |r| == |ls| && forall i | 0 <= i < |ls| :: r[i] == ls[i][|p|..]
  {
    seq(|ls|, i requires 0 <= i < |ls| => ls[i][|p|..])
  }

  predicate AllStartWith(ls: seq<Text>, p: Text) {
    forall i | 0 <= i < |ls| :: StartsWith(ls[i], p)
  }

  function ReadClosing(rest: seq<Text>): Option<(Option<Text>, Option<seq<Text>>)> {
    var tag := T("Expiration Time: ");
    var timed := rest != [] && StartsWith(rest[0], tag);
    var resources := ReadResources(if timed then rest[1..] else rest);
    if resources.None? then None
    else Some((if timed then Some(rest[0][|tag|..]) else None, resources.value))
  }

  /** The labelled line `i`. */
  function Take(ls: seq<Text>, i: nat, tag: string): Option<Text> {
    if i < |ls| && StartsWith(ls[i], T(tag)) then Some(ls[i][|T(tag)|..]) else None
  }

  function ReadLines(ls: seq<Text>): Option<Fields> {
    var suffix := T(" wants you to sign in with your RougeChain account:");
    if |ls| < 9 || !EndsWith(ls[0], suffix) || ls[2] != [] then None
    else
      var statement := if ls[3] != [] then Some(ls[3]) else None;
      var i := if ls[3] != [] then 4 else 3;
      if ls[i] != [] then None
      else
        var uri, version, chainId := Take(ls, i + 1, "URI: "), Take(ls, i + 2, "Version: "),
            Take(ls, i + 3, "Chain ID: ");
        var nonce, issuedAt := Take(ls, i + 4, "Nonce: "), Take(ls, i + 5, "Issued At: ");
        if uri.None? || version != Some(T("1")) || chainId.None? || nonce.None? || issuedAt.None? then None
        else
          var closing := ReadClosing(ls[i + 6..]);
          if closing.None? then None
          else Some(Fields(ls[0][..|ls[0]| - |suffix|], ls[1], uri.value, statement, nonce.value, issuedAt.value,
                           closing.value.0, chainId.value, closing.value.1))
  }

  lemma DropFront(a: Text, b: Text)
    ensures StartsWith(a + b, a) && (a + b)[|a|..] == b
  {
  }

  lemma DropBack(a: Text, b: Text)
    ensures EndsWith(a + b, b) && (a + b)[..|a + b| - |b|] == a
  {
  }

  lemma TakeReads(ls: seq<Text>, i: nat, tag: string, v: Text)
    requires i < |ls| && ls[i] == Labelled(tag, v)
    ensures Take(ls, i, tag) == Some(v)
  {
    hide T;
    DropFront(T(tag), v);
  }

  lemma VersionReads()
    ensures T("Version: 1") == Labelled("Version: ", T("1"))
  {
    var v := "Version: 1";
    assert |v| == 10 && v[..9] == "Version: " && v[9..] == "1";
  }

  lemma BulletsRead(rs: seq<Text>)
    ensures ReadResources([T("Resources:")] + Bullets(rs)) == Some(Some(rs))
  {
    hide T;
    var rest := [T("Resources:")] + Bullets(rs);
    assert rest[1..] == Bullets(rs);
    UnprefixBullets(Bullets(rs), T("- "), rs);
  }

  lemma UnprefixBullets(ls: seq<Text>, p: Text, rs: seq<Text>)
    requires |ls| == |rs| && forall i | 0 <= i < |rs| :: ls[i] == p + rs[i]
    ensures AllStartWith(ls, p) && Unprefixed(ls, p) == rs
  {
    forall i | 0 <= i < |rs| ensures StartsWith(ls[i], p) && ls[i][|p|..] == rs[i] { DropFront(p, rs[i]); }
  }

  lemma ResourcesIsNotATime()
    ensures !StartsWith(T("Resources:"), T("Expiration Time: "))
  {
    assert T("Resources:")[0] == 0x52 && T("Expiration Time: ")[0] == 0x45;
  }

  lemma ClosingReads(expirationTime: Option<Text>, resources: Option<seq<Text>>)
    ensures ReadClosing(Closing(expirationTime, resources)) == Some((expirationTime, resources))
  {
    hide T, ReadResources;
    var rest := if resources.Some? then [T("Resources:")] + Bullets(resources.value) else [];
    if resources.Some? { BulletsRead(resources.value); } else { NothingReads(); }
    ResourcesIsNotATime();
    if expirationTime.Some? {
      DropFront(T("Expiration Time: "), expirationTime.value);
      assert Closing(expirationTime, resources)[1..] == rest;
    } else {
      assert Closing(expirationTime, resources) == rest;
    }
  }

  lemma NothingReads()
    ensures ReadResources([]) == Some(None)
  {
  }

  lemma LinesAt(f: Fields)
    ensures var ls := Lines(f);
            var i := if f.statement.Some? then 4 else 3;
            |ls| >= i + 6 && ls[0] == Header(f) && ls[1] == f.address && ls[2] == [] && ls[i] == []
            && (f.statement.Some? ==> ls[3] == f.statement.value)
            && (forall k | 0 <= k < 5 :: ls[i + 1 + k] == Middle(f)[k])
            && ls[i + 6..] == Closing(f.expirationTime, f.resources)
  {
    hide Header, Middle, Closing;
    assert |Middle(f)| == 5 by { MiddleSize(f); }
  }

  lemma MiddleSize(f: Fields)
    ensures |Middle(f)| == 5
  {
  }

  /** Reading the lines of a field set gives it back, absent and empty resources told apart. */
  lemma LinesReadBack(f: Fields)
    requires f.statement.Some? ==> f.statement.value != []
    ensures ReadLines(Lines(f)) == Some(f)
  {
    hide T, Lines, Take, ReadClosing, Closing, EndsWith;
    var ls := Lines(f);
    var i := if f.statement.Some? then 4 else 3;
    LinesAt(f);
    DropBack(f.domain, T(" wants you to sign in with your RougeChain account:"));
    VersionReads();
    assert ls[i + 1] == Middle(f)[0] && ls[i + 2] == Middle(f)[1] && ls[i + 3] == Middle(f)[2];
    assert ls[i + 4] == Middle(f)[3] && ls[i + 5] == Middle(f)[4];
    TakeReads(ls, i + 1, "URI: ", f.uri);
    TakeReads(ls, i + 2, "Version: ", T("1"));
    TakeReads(ls, i + 3, "Chain ID: ", f.chainId);
    TakeReads(ls, i + 4, "Nonce: ", f.nonce);
    TakeReads(ls, i + 5, "Issued At: ", f.issuedAt);
    ClosingReads(f.expirationTime, f.resources);
  }

  // ---------------------------------------------------------------- the parser

  /** `parseSignInMessage`, as a function of the text. */
  ghost function Parse(host: Host, text: Text): Option<Fields> {
    var f := ReadLines(Split(text));
    if |text| <= MAX_TEXT && f.Some? && Valid(host, f.value) && TextOf(f.value) == text then f else None
  }

  /** The loop over the bulleted lines from `i` on. */
  method TakePrefixed(lines: seq<Text>, from: nat, p: Text) returns (found: seq<Text>, i: nat)
    requires from <= |lines|
    ensures from <= i <= |lines| && AllStartWith(lines[from..i], p) && found == Unprefixed(lines[from..i], p)
    ensures i == |lines| <==> AllStartWith(lines[from..], p)
  {
    i := from;
    found := [];
    while i < |lines| && StartsWith(lines[i], p)
      invariant from <= i <= |lines| && AllStartWith(lines[from..i], p) && found == Unprefixed(lines[from..i], p)
    {
      assert lines[from..i + 1] == lines[from..i] + [lines[i]];
      found := found + [lines[i][|p|..]];
      i := i + 1;
    }
    assert lines[from..|lines|] == lines[from..];
    if i < |lines| { assert lines[from..][i - from] == lines[i]; }
  }

  method ParseResources(lines: seq<Text>, from: nat) returns (r: Option<Option<seq<Text>>>)
    requires from <= |lines|
    ensures r == ReadResources(lines[from..])
  {
    hide T, AllStartWith, Unprefixed;
    if from == |lines| { return Some(None); }
    assert lines[from..][0] == lines[from] && lines[from..][1..] == lines[from + 1..];
    if lines[from] != T("Resources:") { return None; }
    var found, i := TakePrefixed(lines, from + 1, T("- "));
    if i != |lines| { return None; }
    assert lines[from + 1..i] == lines[from + 1..];
    return Some(Some(found));
  }

  /** The closing lines, with the line cursor. */
  method ParseClosing(lines: seq<Text>, from: nat) returns (r: Option<(Option<Text>, Option<seq<Text>>)>)
    requires from <= |lines|
    ensures r == ReadClosing(lines[from..])
  {
    hide T, ReadResources;
    var i := from;
    var expirationTime: Option<Text> := None;
    var tag := T("Expiration Time: ");
    assert from < |lines| ==> lines[from..][0] == lines[from] && lines[from..][1..] == lines[from + 1..];
    if i < |lines| && StartsWith(lines[i], tag) {
      expirationTime := Some(lines[i][|tag|..]);
      i := i + 1;
    }
    var resources := ParseResources(lines, i);
    r := if resources.None? then None else Some((expirationTime, resources.value));
  }

  /** The lines, with the line cursor and the fields filled one by one. */
  method ParseLines(lines: seq<Text>) returns (r: Option<Fields>)
    ensures r == ReadLines(lines)
  {
    hide T, ReadClosing, Take, EndsWith;
    var suffix := T(" wants you to sign in with your RougeChain account:");
    if |lines| < 9 { return None; }
    if !EndsWith(lines[0], suffix) { return None; }
    SuffixFits(lines[0], suffix);
    var domain, address := lines[0][..|lines[0]| - |suffix|], lines[1];
    if lines[2] != [] { return None; }
    var i := 3;
    var statement: Option<Text> := None;
    if lines[3] != [] {
      statement := Some(lines[3]);
      i := 4;
    }
    if lines[i] != [] { return None; }
    i := i + 1;
    var uri, version, chainId := Take(lines, i, "URI: "), Take(lines, i + 1, "Version: "),
        Take(lines, i + 2, "Chain ID: ");
    var nonce, issuedAt := Take(lines, i + 3, "Nonce: "), Take(lines, i + 4, "Issued At: ");
    if uri.None? || version != Some(T("1")) || chainId.None? || nonce.None? || issuedAt.None? { return None; }
    TakeIsInside(lines, i + 4, "Issued At: ");
    var closing := ParseClosing(lines, i + 5);
    if closing.None? { return None; }
    r := Some(Fields(domain, address, uri.value, statement, nonce.value, issuedAt.value, closing.value.0,
                     chainId.value, closing.value.1));
  }

  lemma SuffixFits(t: Text, p: Text)
    requires EndsWith(t, p)
    ensures |p| <= |t|
  {
  }

  lemma TakeIsInside(ls: seq<Text>, i: nat, tag: string)
    requires Take(ls, i, tag).Some?
    ensures i < |ls|
  {
  }

  method ParseSignInMessage(host: Host, text: Text) returns (r: Option<Fields>)
    ensures r == Parse(host, text)
  {
    hide T, ReadLines, Split, Valid, TextOf;
    if |text| > MAX_TEXT { return None; }
    var f := ParseLines(Split(text));
    if f.None? { return None; }
    var again := CreateSignInMessage(host, f.value);
    r := if again == Some(text) then f else None;
  }

  // ---------------------------------------------------------------- round trip

  lemma TagIsOneLine(tag: string, v: Text)
    requires OneLine(v) && forall i | 0 <= i < |tag| :: tag[i] != '\n'
    ensures OneLine(Labelled(tag, v))
  {
  }

  lemma MiddleIsOneLine(f: Fields)
    requires OneLine(f.uri) && OneLine(f.nonce) && OneLine(f.issuedAt) && OneLine(f.chainId)
    ensures forall i | 0 <= i < 5 :: OneLine(Middle(f)[i])
  {
    hide OneLine, T;
    TagIsOneLine("URI: ", f.uri);
    FixedLines();
    TagIsOneLine("Chain ID: ", f.chainId);
    TagIsOneLine("Nonce: ", f.nonce);
    TagIsOneLine("Issued At: ", f.issuedAt);
  }

  lemma FixedLines()
    ensures OneLine(T("Version: 1")) && OneLine(T("Resources:")) && OneLine([])
  {
  }

  lemma TextAppends(a: string, b: string)
    ensures T(a + b) == T(a) + T(b)
  {
  }

  lemma SuffixIsOneLine()
    ensures OneLine(T(" wants you to sign in with your RougeChain account:"))
  {
    hide T;
    TextAppends(" wants you to sign in", " with your RougeChain account:");
    assert " wants you to sign in with your RougeChain account:" == " wants you to sign in" +
           " with your RougeChain account:";
    TagIsOneLine(" wants you to sign in", []);
    TagIsOneLine(" with your RougeChain account:", []);
    assert T(" wants you to sign in") == T(" wants you to sign in") + [];
    assert T(" with your RougeChain account:") == T(" with your RougeChain account:") + [];
  }

  lemma HeaderIsOneLine(f: Fields)
    requires OneLine(f.domain)
    ensures OneLine(Header(f))
  {
    hide T;
    SuffixIsOneLine();
  }

  lemma ClosingIsOneLine(expirationTime: Option<Text>, resources: Option<seq<Text>>)
    requires expirationTime.Some? ==> OneLine(expirationTime.value)
    requires resources.Some? ==> forall i | 0 <= i < |resources.value| :: OneLine(resources.value[i])
    ensures forall i | 0 <= i < |Closing(expirationTime, resources)| :: OneLine(Closing(expirationTime, resources)[i])
  {
    hide OneLine, T, Labelled;
    FixedLines();
    if expirationTime.Some? { TagIsOneLine("Expiration Time: ", expirationTime.value); }
    if resources.Some? {
      forall i | 0 <= i < |resources.value| ensures OneLine(Bullets(resources.value)[i]) {
        TagIsOneLine("- ", resources.value[i]);
      }
    }
  }

  lemma LinesAreOneLine(host: Host, f: Fields)
    requires PlainFieldsOk(host, f) && OneLine(f.address)
    ensures Lines(f) != [] && forall i | 0 <= i < |Lines(f)| :: OneLine(Lines(f)[i])
  {
    hide OneLine, Middle, Closing, Header, PlainFieldsOk;
    FieldsAreOneLine(host, f);
    HeaderIsOneLine(f);
    MiddleIsOneLine(f);
    MiddleSize(f);
    ClosingIsOneLine(f.expirationTime, f.resources);
    FixedLines();
  }

  lemma StatementIsNotEmpty(host: Host, f: Fields)
    requires Valid(host, f)
    ensures PlainFieldsOk(host, f) && (f.statement.Some? ==> f.statement.value != [])
  {
  }

  lemma ReadAddress(t: Text)
    requires ReadLines(Split(t)).Some?
    ensures OneLine(ReadLines(Split(t)).value.address)
  {
    hide Split, T, Take, ReadClosing, EndsWith;
  }

  /** Reading a created text gives the fields back exactly when the text fits and the address is one line. */
  lemma ParseInvertsCreate(host: Host, f: Fields)
    requires Valid(host, f)
    ensures Parse(host, TextOf(f)) == Some(f) <==> |TextOf(f)| <= MAX_TEXT && OneLine(f.address)
  {
    hide Valid, PlainFieldsOk, Lines, ReadLines, Split, OneLine, Join;
    StatementIsNotEmpty(host, f);
    if OneLine(f.address) {
      LinesAreOneLine(host, f);
      SplitInvertsJoin(Lines(f));
      LinesReadBack(f);
    } else if ReadLines(Split(TextOf(f))).Some? {
      ReadAddress(TextOf(f));
    }
  }

  /** In particular for every address whose prefix part is exactly `rouge`. */
  lemma RougeSignInsReadBack(host: Host, f: Fields)
    requires Valid(host, f) && Separator(f.address) == 5 && |TextOf(f)| <= MAX_TEXT
    ensures Parse(host, TextOf(f)) == Some(f)
  {
    hide PlainFieldsOk, TextOf, Parse, SdkAccepts, OneLine, Separator;
    RougeIsOneLine(host.lower, f.address);
    ParseInvertsCreate(host, f);
  }

  /** No two field sets whose addresses are one line share a text, however long it is. */
  lemma TextsAreDistinct(host: Host, f: Fields, g: Fields)
    requires Valid(host, f) && Valid(host, g) && OneLine(f.address) && OneLine(g.address) && TextOf(f) == TextOf(g)
    ensures f == g
  {
    hide Valid, PlainFieldsOk, Lines, ReadLines, Split, OneLine, Join;
    StatementIsNotEmpty(host, f);
    StatementIsNotEmpty(host, g);
    LinesAreOneLine(host, f);
    LinesAreOneLine(host, g);
    SplitInvertsJoin(Lines(f));
    SplitInvertsJoin(Lines(g));
    LinesReadBack(f);
    LinesReadBack(g);
  }

  /** A field set whose address holds a line break, at any time `Date.parse` knows. */
  ghost function BrokenFields(t: Text): Fields {
    Fields([0x61], BrokenAddress(), [0x61], None, seq(16, _ => 0x61), t, None, [0x61], None)
  }

  /** It is valid, and its text is refused by the reader. */
  lemma BrokenFieldsAreNotReadBack(host: Host, t: Text)
    requires TimeOk(host, t)
    ensures Valid(host, BrokenFields(t)) && Parse(host, TextOf(BrokenFields(t))) != Some(BrokenFields(t))
  {
    hide TextOf, Parse, IsoOk, SdkAccepts, BrokenAddress, ReadOnlyAccepts, Lowers;
    var f := BrokenFields(t);
    RecognisersDisagree(host.lower);
    assert HostOk(f.domain[..1]) && PortOk(f.domain[1..]);
    ParseInvertsCreate(host, f);
  }
}
