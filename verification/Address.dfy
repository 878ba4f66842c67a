/** Bech32m address text: encoding (written twice in the repository), decoding and the two recognisers. */
module Address {
  import opened Common
  import opened Json
  import opened Words
  import opened Bech32m

  // ---------------------------------------------------------------- text

  predicate IsUpper(c: CodeUnit) { 0x41 <= c <= 0x5a }

  function LowerUnit(c: CodeUnit): CodeUnit {
    if IsUpper(c) then c + 0x20 else c
  }

  function AsciiLower(t: Text): (r: Text)
    ensures |r| == |t| && forall i | 0 <= i < |t| :: r[i] == LowerUnit(t[i])
  {
    seq(|t|, i requires 0 <= i < |t| => LowerUnit(t[i]))
  }

  predicate IsAscii(t: Text) {
    forall i | 0 <= i < |t| :: t[i] < 0x80
  }

  /**
   * What `toLowerCase` is relied on for. ASCII text changes letter by letter. Data characters after a `1` stay, and
   * what comes before the `1` changes as it would alone, whatever Unicode rules apply to it.
   */
  ghost predicate Lowers(f: Text -> Text) {
    && (forall t | IsAscii(t) :: f(t) == AsciiLower(t))
    && (forall a, b | AllInCharset(b) :: f(a + ([ONE] + b)) == f(a) + ([ONE] + b))
  }

  lemma AsciiLowers()
    ensures Lowers(AsciiLower)
  {
    hide Charset;
    forall a, b | AllInCharset(b) ensures AsciiLower(a + ([ONE] + b)) == AsciiLower(a) + ([ONE] + b) {
      forall i | 0 <= i < |b| ensures LowerUnit(b[i]) == b[i] { CharsetHasNoOne(b[i]); }
    }
  }

  type Lowering = f: Text -> Text | Lowers(f) ghost witness (AsciiLowers(); AsciiLower)

  function IndexOf(t: Text, c: CodeUnit): (i: int)
    ensures -1 <= i < |t| && (i >= 0 ==> t[i] == c) && (i == -1 <==> c !in t)
  {
    if t == [] then -1
    else if t[0] == c then 0
    else
      var i := IndexOf(t[1..], c);
      if i == -1 then -1 else i + 1
  }

  function LastIndexOf(t: Text, c: CodeUnit): (i: int)
    ensures -1 <= i < |t| && (i >= 0 ==> t[i] == c) && forall k | i < k < |t| :: t[k] != c
  {
    if t == [] then -1
    else if t[|t| - 1] == c then |t| - 1
    else LastIndexOf(t[..|t| - 1], c)
  }

  lemma {:induction false} IndexOfIsLeast(t: Text, c: CodeUnit, i: nat)
    requires i < |t| && t[i] == c && forall k | 0 <= k < i :: t[k] != c
    ensures IndexOf(t, c) == i
  {
    if i > 0 { IndexOfIsLeast(t[1..], c, i - 1); }
  }

  lemma LastIsUnique(t: Text, c: CodeUnit, i: nat)
    requires i < |t| && t[i] == c && forall k | i < k < |t| :: t[k] != c
    ensures LastIndexOf(t, c) == i
  {
  }

  // ---------------------------------------------------------------- words and characters

  lemma CharsetIsDistinct()
    ensures forall i, j | 0 <= i < j < 32 :: Charset()[i] != Charset()[j]
  {
  }

  lemma CharsetIsPlain(i: nat)
    requires i < 32
    ensures Charset()[i] != ONE && !IsUpper(Charset()[i])
  {
  }

  lemma CharReadsBack(d: nat)
    requires d < 32
    ensures IndexOf(Charset(), Charset()[d]) == d
  {
    hide Charset, IndexOf;
    CharsetIsDistinct();
    IndexOfIsLeast(Charset(), Charset()[d], d);
  }

  function AsBv(d: int): bv32
    requires 0 <= d < 0x10000
  {
    d as bv32
  }

  function AsInt(w: bv32): int {
    w as int
  }

  lemma BvReadsBack(d: int)
    requires 0 <= d < 32
    ensures AsBv(d) < 32 && AsInt(AsBv(d)) == d
  {
  }

  lemma IntReadsBack(w: bv32)
    requires w < 32
    ensures 0 <= AsInt(w) < 32 && AsBv(AsInt(w)) == w
  {
  }

  function Bvs(ds: seq<int>): (r: seq<bv32>)
    requires Digits(32, ds)
    ensures |r| == |ds| && forall i | 0 <= i < |ds| :: r[i] == AsBv(ds[i])
  {
    seq(|ds|, i requires 0 <= i < |ds| => AsBv(ds[i]))
  }

  function Ints(ws: seq<bv32>): (r: seq<int>)
    ensures |r| == |ws| && forall i | 0 <= i < |ws| :: r[i] == AsInt(ws[i])
  {
    seq(|ws|, i requires 0 <= i < |ws| => AsInt(ws[i]))
  }

  function Chars(ds: seq<int>): (t: Text)
    requires Digits(32, ds)
    ensures |t| == |ds| && forall i | 0 <= i < |ds| :: t[i] == Charset()[ds[i]]
  {
    seq(|ds|, i requires 0 <= i < |ds| => Charset()[ds[i]])
  }

  predicate AllInCharset(t: Text) {
    forall i | 0 <= i < |t| :: t[i] in Charset()
  }

  function Indexes(t: Text): (ds: seq<int>)
    requires AllInCharset(t)
    ensures |ds| == |t| && Digits(32, ds) && forall i | 0 <= i < |t| :: ds[i] == IndexOf(Charset(), t[i])
  {
    seq(|t|, i requires 0 <= i < |t| => IndexOf(Charset(), t[i]))
  }

  lemma CharsReadBack(ds: seq<int>)
    requires Digits(32, ds)
    ensures AllInCharset(Chars(ds)) && Indexes(Chars(ds)) == ds
  {
    hide Charset, IndexOf;
    forall i | 0 <= i < |ds| ensures Chars(ds)[i] in Charset() && IndexOf(Charset(), Chars(ds)[i]) == ds[i] {
      CharReadsBack(ds[i]);
    }
  }

  lemma BvsOfInts(ws: seq<bv32>)
    requires forall i | 0 <= i < |ws| :: ws[i] < 32
    ensures Digits(32, Ints(ws)) && Bvs(Ints(ws)) == ws
  {
    hide AsBv, AsInt;
    forall i | 0 <= i < |ws| ensures 0 <= AsInt(ws[i]) < 32 && AsBv(AsInt(ws[i])) == ws[i] {
      IntReadsBack(ws[i]);
    }
  }

  // ---------------------------------------------------------------- encoding

  function Highs(hrp: Text): (r: seq<bv32>)
    ensures |r| == |hrp| && forall i | 0 <= i < |hrp| :: r[i] == AsBv(hrp[i] / 32)
  {
    seq(|hrp|, i requires 0 <= i < |hrp| => AsBv(hrp[i] / 32))
  }

  function Lows(hrp: Text): (r: seq<bv32>)
    ensures |r| == |hrp| && forall i | 0 <= i < |hrp| :: r[i] == AsBv(hrp[i] % 32)
  {
    seq(|hrp|, i requires 0 <= i < |hrp| => AsBv(hrp[i] % 32))
  }

  function Expand(hrp: Text): seq<bv32> {
    Highs(hrp) + [0] + Lows(hrp)
  }

  /** `hrpExpand`. */
  method HrpExpand(hrp: Text) returns (r: seq<bv32>)
    ensures r == Expand(hrp)
  {
    hide AsBv, Highs, Lows;
    var highs: seq<bv32> := [];
    for i := 0 to |hrp|
      invariant highs == Highs(hrp[..i])
    {
      highs := highs + [AsBv(hrp[i] / 32)];
    }
    var lows: seq<bv32> := [];
    for i := 0 to |hrp|
      invariant lows == Lows(hrp[..i])
    {
      lows := lows + [AsBv(hrp[i] % 32)];
    }
    assert hrp[..|hrp|] == hrp;
    r := highs + [0] + lows;
  }

  /** The checksum words for a prefix and data words. */
  function Checksum(hrp: Text, words: seq<int>): (r: seq<int>)
    requires Digits(32, words)
    ensures |r| == 6
  {
    Ints(ChecksumOf(Expand(hrp) + Bvs(words)))
  }

  lemma ChecksumIsWords(hrp: Text, words: seq<int>)
    requires Digits(32, words)
    ensures Digits(32, Checksum(hrp, words)) && Bvs(Checksum(hrp, words)) == ChecksumOf(Expand(hrp) + Bvs(words))
  {
    hide Fold, Word, Expand;
    BvsOfInts(ChecksumOf(Expand(hrp) + Bvs(words)));
  }

  /** `createChecksum`. */
  method CreateChecksum(hrp: Text, data: seq<int>) returns (ret: seq<int>)
    requires Digits(32, data)
    ensures ret == Checksum(hrp, data)
  {
    hide Fold, Word, Expand, Xor;
    var expanded := HrpExpand(hrp);
    var values := expanded + Bvs(data) + SixZeros();
    var chk := Polymod(values);
    var pm := Xor(chk, BECH32M_CONST);
    ret := [];
    for i := 0 to 6
      invariant |ret| == i && forall k | 0 <= k < i :: ret[k] == AsInt(Word(pm, k))
    {
      ret := ret + [AsInt(Word(pm, i))];
    }
    assert ret == Ints(Six(pm));
  }

  /** `verifyChecksum`. */
  method VerifyChecksum(hrp: Text, data: seq<int>) returns (ok: bool)
    requires Digits(32, data)
    ensures ok <==> Fold(Expand(hrp) + Bvs(data), 1) == BECH32M_CONST
  {
    hide Fold, Expand;
    var expanded := HrpExpand(hrp);
    var chk := Polymod(expanded + Bvs(data));
    ok := chk == BECH32M_CONST;
  }

  lemma DataVerifies(hrp: Text, words: seq<int>)
    requires Digits(32, words)
    ensures Digits(32, words + Checksum(hrp, words))
    ensures Fold(Expand(hrp) + Bvs(words + Checksum(hrp, words)), 1) == BECH32M_CONST
  {
    hide Charset, Fold, Expand, Checksum, ChecksumOf, AsBv;
    var check := Checksum(hrp, words);
    ChecksumIsWords(hrp, words);
    var vs := Expand(hrp) + Bvs(words);
    ChecksumVerifies(vs);
    assert Bvs(words + check) == Bvs(words) + Bvs(check);
    assert Expand(hrp) + Bvs(words + check) == vs + ChecksumOf(vs);
  }

  /** The address text for a prefix and its data words. */
  ghost function Encoded(hrp: Text, words: seq<int>): Text
    requires Digits(32, words)
  {
    ChecksumIsWords(hrp, words);
    hrp + ([ONE] + Chars(words + Checksum(hrp, words)))
  }

  ghost predicate IsEncoding(hrp: Text, data: seq<int>, text: Text) {
    exists words :: Regroups(data, words) && Digits(32, words) && text == Encoded(hrp, words)
  }

  method Spell(hrp: Text, combined: seq<int>) returns (result: Text)
    requires Digits(32, combined)
    ensures result == hrp + ([ONE] + Chars(combined))
  {
    hide Charset;
    result := hrp + [ONE];
    for i := 0 to |combined|
      invariant result == hrp + ([ONE] + Chars(combined[..i]))
    {
      assert Chars(combined[..i + 1]) == Chars(combined[..i]) + [Charset()[combined[i]]];
      result := result + [Charset()[combined[i]]];
    }
    assert combined[..|combined|] == combined;
  }

  /** `bech32mEncode` of the SDK. */
  method Encode(hrp: Text, data: seq<int>) returns (text: Text)
    requires Digits(256, data)
    ensures IsEncoding(hrp, data, text)
  {
    hide Charset, Checksum, Regroups;
    var words := ConvertBits(data);
    assert Digits(32, words) by { WordsAreDigits(data, words); }
    var check := CreateChecksum(hrp, words);
    ChecksumIsWords(hrp, words);
    text := Spell(hrp, words + check);
  }

  /** `bech32mEncode` of the read-only package. */
  method EncodeReadOnly(hrp: Text, data: seq<int>) returns (text: Text)
    requires Digits(256, data)
    ensures IsEncoding(hrp, data, text)
  {
    hide Charset, Checksum, Regroups;
    var words := ToWords(data);
    assert Digits(32, words) by { WordsAreDigits(data, words); }
    var check := CreateChecksum(hrp, words);
    ChecksumIsWords(hrp, words);
    text := Spell(hrp, words + check);
  }

  lemma WordsAreDigits(data: seq<int>, words: seq<int>)
    requires Regroups(data, words)
    ensures Digits(32, words)
  {
  }

  /** Both implementations write the same text. */
  lemma EncodingIsUnique(hrp: Text, data: seq<int>, a: Text, b: Text)
    requires IsEncoding(hrp, data, a) && IsEncoding(hrp, data, b)
    ensures a == b
  {
    hide Encoded, Regroups;
    var v :| Regroups(data, v) && Digits(32, v) && a == Encoded(hrp, v);
    var w :| Regroups(data, w) && Digits(32, w) && b == Encoded(hrp, w);
    RegroupsIsUnique(data, v, w);
  }

  // ---------------------------------------------------------------- decoding

  /** Where the separator is. */
  function Separator(t: Text): int {
    LastIndexOf(t, ONE)
  }

  /** The lower-cased text splits, has only data characters, and its checksum verifies. */
  ghost predicate Checks(t: Text) {
    var pos := Separator(t);
    && 1 <= pos && pos + 7 <= |t|
    && AllInCharset(t[pos + 1..])
    && Fold(Expand(t[..pos]) + Bvs(Indexes(t[pos + 1..])), 1) == BECH32M_CONST
  }

  ghost function Payload(t: Text): seq<int>
    requires Checks(t)
  {
    var ds := Indexes(t[Separator(t) + 1..]);
    ds[..|ds| - 6]
  }

  type Decoding = Option<(Text, seq<int>)>

  ghost predicate Decodes(lower: Lowering, text: Text, r: Decoding) {
    var t := lower(text);
    if Checks(t) then r.Some? && r.value.0 == t[..Separator(t)] && Unpacks(Payload(t), r.value.1) else r.None?
  }

  /** The loop over the data characters; `None` at the first one outside the character set. */
  method ReadData(t: Text) returns (r: Option<seq<int>>)
    ensures r == if AllInCharset(t) then Some(Indexes(t)) else None
  {
    hide Charset, IndexOf;
    var data: seq<int> := [];
    for i := 0 to |t|
      invariant AllInCharset(t[..i]) && data == Indexes(t[..i])
    {
      var d := IndexOf(Charset(), t[i]);
      if d == -1 { return None; }
      data := data + [d];
    }
    assert t[..|t|] == t;
    return Some(data);
  }

  /** `bech32mDecode`. */
  method Decode(lower: Lowering, text: Text) returns (r: Decoding)
    ensures Decodes(lower, text, r)
  {
    hide Charset, Fold, Expand, Unpacks, Indexes, Bvs;
    var t := lower(text);
    var pos := LastIndexOf(t, ONE);
    if pos < 1 || pos + 7 > |t| { return None; }
    var hrp := t[..pos];
    var data := ReadData(t[pos + 1..]);
    if data.None? { return None; }
    var ok := VerifyChecksum(hrp, data.value);
    if !ok { return None; }
    var bytes := FromWords(data.value[..|data.value| - 6]);
    return Some((hrp, bytes));
  }

  lemma EncodedShape(hrp: Text, words: seq<int>)
    requires Digits(32, words)
    ensures var t := Encoded(hrp, words);
            Separator(t) == |hrp| && t[..|hrp|] == hrp && |t| >= |hrp| + 7
            && Digits(32, words + Checksum(hrp, words)) && t[|hrp| + 1..] == Chars(words + Checksum(hrp, words))
  {
    hide Charset, Checksum;
    ChecksumIsWords(hrp, words);
    var all := words + Checksum(hrp, words);
    var t := Encoded(hrp, words);
    forall k | |hrp| < k < |t| ensures t[k] != ONE {
      CharsetIsPlain(all[k - |hrp| - 1]);
    }
    LastIsUnique(t, ONE, |hrp|);
  }

  /** The separator is the `1` before the data part, which has none. */
  lemma SeparatorBeforeChars(head: Text, all: seq<int>)
    requires Digits(32, all)
    ensures Separator(head + ([ONE] + Chars(all))) == |head|
  {
    hide Charset, IsAscii, AllInCharset;
    var t := head + ([ONE] + Chars(all));
    forall k | |head| < k < |t| ensures t[k] != ONE {
      CharsetIsPlain(all[k - |head| - 1]);
    }
    LastIsUnique(t, ONE, |head|);
  }

  lemma LowerOfEncoded(lower: Lowering, hrp: Text, words: seq<int>)
    requires Digits(32, words)
    ensures var t := lower(Encoded(hrp, words));
            && Separator(t) == |lower(hrp)| && t[..|lower(hrp)|] == lower(hrp)
            && (lower(hrp) == hrp ==> t == Encoded(hrp, words))
  {
    hide Charset, Checksum, IsAscii, AllInCharset, Separator, Chars;
    ChecksumIsWords(hrp, words);
    var all := words + Checksum(hrp, words);
    CharsReadBack(all);
    assert lower(Encoded(hrp, words)) == lower(hrp) + ([ONE] + Chars(all));
    SeparatorBeforeChars(lower(hrp), all);
  }

  lemma EncodedChecks(hrp: Text, words: seq<int>)
    requires Digits(32, words) && hrp != []
    ensures Checks(Encoded(hrp, words)) && Payload(Encoded(hrp, words)) == words
  {
    hide Charset, Checksum, Fold, Expand, Encoded, Chars, Indexes, Bvs;
    EncodedShape(hrp, words);
    var all := words + Checksum(hrp, words);
    CharsReadBack(all);
    DataVerifies(hrp, words);
    assert all[..|all| - 6] == words;
  }

  /**
   * Decoding undoes encoding exactly for the non-empty prefixes that lower-casing leaves alone; an empty prefix is
   * rejected and a capital letter in it, of any script, is lost.
   */
  lemma DecodeInvertsEncode(lower: Lowering, hrp: Text, data: seq<int>, text: Text, r: Decoding)
    requires Digits(256, data) && IsEncoding(hrp, data, text) && Decodes(lower, text, r)
    ensures r == Some((hrp, data)) <==> hrp != [] && lower(hrp) == hrp
  {
    hide Charset, Encoded, Regroups, Unpacks, Checks, Payload, Lowers;
    var words :| Regroups(data, words) && Digits(32, words) && text == Encoded(hrp, words);
    LowerOfEncoded(lower, hrp, words);
    if hrp != [] && lower(hrp) == hrp {
      EncodedChecks(hrp, words);
      UnpackingInverts(data, words, r.value.1);
      EncodedShape(hrp, words);
    } else if hrp == [] {
      NothingStaysNothing(lower);
      NeedsAPrefix(lower(text));
    }
  }

  lemma NothingStaysNothing(lower: Lowering)
    ensures lower([]) == []
  {
    assert IsAscii([]);
  }

  lemma NeedsAPrefix(t: Text)
    requires Separator(t) < 1
    ensures !Checks(t)
  {
  }

  // ---------------------------------------------------------------- substitution

  lemma IndexesDiffer(t: Text, c: CodeUnit, p: nat)
    requires AllInCharset(t) && p < |t| && c in Charset() && c != t[p]
    ensures AllInCharset(t[p := c])
    ensures Indexes(t[p := c])[p] != Indexes(t)[p]
    ensures forall i | 0 <= i < |t| && i != p :: Indexes(t[p := c])[i] == Indexes(t)[i]
  {
    hide Charset, IndexOf;
  }

  lemma BvsDiffer(a: int, b: int)
    requires 0 <= a < 32 && 0 <= b < 32 && a != b
    ensures AsBv(a) != AsBv(b) && AsBv(a) < 32 && AsBv(b) < 32
  {
    hide AsBv, AsInt;
    BvReadsBack(a);
    BvReadsBack(b);
  }

  /** The checksum states of two data parts that differ in one place. */
  lemma StatesDiffer(hrp: Text, x: Text, y: Text, k: nat, c: CodeUnit)
    requires AllInCharset(x) && AllInCharset(y) && k < |x| && y == x[k := c] && c in Charset() && c != x[k]
    ensures Fold(Expand(hrp) + Bvs(Indexes(x)), 1) != Fold(Expand(hrp) + Bvs(Indexes(y)), 1)
  {
    hide Fold, Expand, IndexOf, AsBv, Charset, Indexes, Bvs;
    IndexesDiffer(x, c, k);
    BvsDiffer(Indexes(x)[k], Indexes(y)[k]);
    var h := Expand(hrp);
    var a, b := h + Bvs(Indexes(x)), h + Bvs(Indexes(y));
    BelowLimit(a[|h| + k], b[|h| + k]);
    OneSubstitutionShows(a, b, |h| + k);
  }

  /** Any one data or checksum character replaced by another: the checksum no longer verifies. */
  lemma OneSubstitutionIsNoticed(t: Text, p: nat, c: CodeUnit)
    requires Checks(t) && Separator(t) < p < |t| && c in Charset() && c != t[p]
    ensures !Checks(t[p := c])
  {
    hide Fold, Expand, IndexOf, AsBv, Charset, Indexes, Bvs;
    var u := t[p := c];
    var pos := Separator(t);
    var x, y := t[pos + 1..], u[pos + 1..];
    assert y == x[p - pos - 1 := c] && u[..pos] == t[..pos];
    CharsetHasNoOne(c);
    LastIsUnique(u, ONE, pos);
    IndexesDiffer(x, c, p - pos - 1);
    StatesDiffer(t[..pos], x, y, p - pos - 1, c);
  }

  /** The changed text differs from `t`, keeps it up to the separator and has data characters after it. */
  ghost predicate Altered(t: Text, u: Text) {
    var pos := Separator(t);
    |u| == |t| && u != t && 0 <= pos < |t| && u[..pos + 1] == t[..pos + 1] && AllInCharset(u[pos + 1..])
  }

  lemma DataDiffers(x: Text, y: Text, k: nat)
    requires AllInCharset(x) && AllInCharset(y) && |x| == |y| && k < |x|
    ensures x[k] == y[k] <==> Bvs(Indexes(x))[k] == Bvs(Indexes(y))[k]
    ensures Bvs(Indexes(x))[k] < 32 && Bvs(Indexes(y))[k] < 32
  {
    hide Charset, IndexOf, AsBv;
    var a, b := Indexes(x)[k], Indexes(y)[k];
    BvReadsBack(a);
    BvReadsBack(b);
    if a != b { BvsDiffer(a, b); }
  }

  /** Changes within six characters in a row, a swap of neighbours for one: the checksum no longer verifies. */
  lemma BurstIsNoticed(t: Text, u: Text, p: nat)
    requires Checks(t) && Altered(t, u)
    requires forall i | 0 <= i < |t| && !(p <= i < p + 6) :: u[i] == t[i]
    ensures !Checks(u)
  {
    hide Fold, Expand, IndexOf, AsBv, Charset, Indexes, Bvs, LastIndexOf;
    var pos := Separator(t);
    SameSeparator(t, u);
    var x, y := t[pos + 1..], u[pos + 1..];
    DataPartsDiffer(t, u, pos, p, x, y);
    DataStatesDiffer(t[..pos], x, y, p - pos - 1);
  }

  lemma SameSeparator(t: Text, u: Text)
    requires Altered(t, u)
    ensures Separator(u) == Separator(t) && u[..Separator(t)] == t[..Separator(t)]
  {
    hide Charset;
    var pos := Separator(t);
    assert u[..pos] == u[..pos + 1][..pos] && t[..pos] == t[..pos + 1][..pos] && u[pos] == u[..pos + 1][pos];
    forall i | pos < i < |u| ensures u[i] != ONE {
      assert u[pos + 1..][i - pos - 1] == u[i];
      CharsetHasNoOne(u[i]);
    }
    LastIsUnique(u, ONE, pos);
  }

  lemma DataPartsDiffer(t: Text, u: Text, pos: nat, p: nat, x: Text, y: Text)
    requires |u| == |t| && u != t && pos < |t| && u[..pos + 1] == t[..pos + 1]
    requires x == t[pos + 1..] && y == u[pos + 1..]
    requires forall i | 0 <= i < |t| && !(p <= i < p + 6) :: u[i] == t[i]
    ensures x != y
    ensures forall k | 0 <= k < |x| && !(p - pos - 1 <= k < p - pos + 5) :: x[k] == y[k]
  {
    assert t == t[..pos + 1] + x && u == u[..pos + 1] + y;
  }

  lemma DataStatesDiffer(hrp: Text, x: Text, y: Text, q: int)
    requires AllInCharset(x) && AllInCharset(y) && |x| == |y| && x != y
    requires forall k | 0 <= k < |x| && !(q <= k < q + 6) :: x[k] == y[k]
    ensures Fold(Expand(hrp) + Bvs(Indexes(x)), 1) != Fold(Expand(hrp) + Bvs(Indexes(y)), 1)
  {
    hide Fold, Expand, IndexOf, AsBv, Charset, Indexes, Bvs;
    var h := Expand(hrp);
    var a, b := h + Bvs(Indexes(x)), h + Bvs(Indexes(y));
    forall i | |h| <= i < |a| ensures a[i] < 32 && b[i] < 32 && (a[i] == b[i] <==> x[i - |h|] == y[i - |h|]) {
      DataDiffers(x, y, i - |h|);
    }
    var d :| 0 <= d < |x| && x[d] != y[d];
    assert a[|h| + d] != b[|h| + d];
    BurstInPlace(a, b, |h|, q + |h|);
  }

  /** The same, when all words from the `n`th on are short and the window may begin before them. */
  lemma BurstInPlace(a: seq<bv32>, b: seq<bv32>, n: nat, q: int)
    requires |a| == |b| && a != b && n <= |a|
    requires forall i | 0 <= i < n :: a[i] == b[i]
    requires forall i | n <= i < |a| :: a[i] < 32 && b[i] < 32
    requires forall i | n <= i < |a| && !(q <= i < q + 6) :: a[i] == b[i]
    ensures Fold(a, 1) != Fold(b, 1)
  {
    hide Fold;
    BurstOfSubstitutionsShows(a, b, if q < n then n else q);
  }

  lemma BelowLimit(a: bv32, b: bv32)
    requires a < 32 && b < 32
    ensures a < LIMIT && b < LIMIT
  {
  }

  lemma CharsetHasNoOne(c: CodeUnit)
    requires c in Charset()
    ensures c != ONE && LowerUnit(c) == c
  {
    hide Charset;
    var i :| 0 <= i < |Charset()| && Charset()[i] == c;
    CharsetIsPlain(i);
  }

  /** Hence the changed text is refused, for ASCII text in any letter case and for any text in lower case. */
  lemma SubstitutionIsRejected(lower: Lowering, text: Text, p: nat, c: CodeUnit, r: Decoding)
    requires Checks(lower(text)) && Separator(lower(text)) < p < |text| && (IsAscii(text) || lower(text) == text)
    requires p < |lower(text)| && c in Charset() && c != lower(text)[p] && Decodes(lower, text[p := c], r)
    ensures r.None?
  {
    hide Charset, Fold, Expand, Indexes, Bvs;
    CharsetHasNoOne(c);
    if IsAscii(text) {
      ClassUnit(c);
      assert IsAscii(text[p := c]);
      assert lower(text[p := c]) == AsciiLower(text)[p := c];
    } else {
      LowerWithOneChange(lower, text, p, c);
    }
    OneSubstitutionIsNoticed(lower(text), p, c);
  }

  lemma LowerWithOneChange(lower: Lowering, t: Text, p: nat, c: CodeUnit)
    requires lower(t) == t && Checks(t) && Separator(t) < p < |t| && c in Charset()
    ensures lower(t[p := c]) == t[p := c]
  {
    hide Charset, Fold, Expand, Indexes, Bvs, LastIndexOf, IsAscii, AllInCharset;
    var pos := Separator(t);
    var a, b, d := t[..pos], t[pos + 1..], t[pos + 1..][p - pos - 1 := c];
    assert t == a + ([ONE] + b) && t[p := c] == a + ([ONE] + d);
    ChangedIsInCharset(b, p - pos - 1, c);
    assert lower(a) + ([ONE] + b) == a + ([ONE] + b);
    SameEnds(lower(a), a, [ONE] + b);
  }

  lemma ChangedIsInCharset(t: Text, p: nat, c: CodeUnit)
    requires AllInCharset(t) && p < |t| && c in Charset()
    ensures AllInCharset(t[p := c])
  {
    hide Charset;
  }

  lemma SameEnds(a: Text, b: Text, c: Text)
    requires a + c == b + c
    ensures a == b
  {
    assert |a| == |b|;
    assert a == (a + c)[..|a|] && b == (b + c)[..|b|];
  }

  // ---------------------------------------------------------------- recognisers

  const ROUGE: Text := [0x72, 0x6f, 0x75, 0x67, 0x65]

  /** `isRougeAddress` of the SDK. */
  ghost predicate SdkAccepts(lower: Lowering, s: Text) {
    ROUGE + [ONE] <= lower(s) && |s| >= 10 && Checks(lower(s))
  }

  method IsRougeAddress(lower: Lowering, s: Text) returns (ok: bool)
    ensures ok <==> SdkAccepts(lower, s)
  {
    hide Charset, Checks;
    if !(ROUGE + [ONE] <= lower(s)) || |s| < 10 { return false; }
    var r := Decode(lower, s);
    return r.Some?;
  }

  /** The character class `[02-9ac-hj-np-z]`. */
  predicate InClass(c: CodeUnit) {
    c == 0x30 || 0x32 <= c <= 0x39 || c == 0x61 || 0x63 <= c <= 0x68 || 0x6a <= c <= 0x6e || 0x70 <= c <= 0x7a
  }

  /** `isRougeAddress` of the read-only package. */
  ghost predicate ReadOnlyAccepts(s: Text) {
    && ROUGE + [ONE] <= s && 6 <= |s| - 6 <= 90 && (forall i | 6 <= i < |s| :: InClass(s[i]))
    && AllInCharset(s[6..]) && Fold(Expand(ROUGE) + Bvs(Indexes(s[6..])), 1) == BECH32M_CONST
  }

  method IsRougeAddressReadOnly(s: Text) returns (ok: bool)
    ensures ok <==> ReadOnlyAccepts(s)
  {
    hide Charset, Fold, Expand, Indexes, Bvs;
    if !(ROUGE + [ONE] <= s) || !(6 <= |s| - 6 <= 90) || exists i :: 6 <= i < |s| && !InClass(s[i]) { return false; }
    ClassIsCharset(s[6..]);
    ok := VerifyChecksum(ROUGE, Indexes(s[6..]));
  }

  lemma ClassUnit(c: CodeUnit)
    ensures InClass(c) <==> c in Charset()
  {
  }

  lemma ClassIsCharset(t: Text)
    ensures (forall i | 0 <= i < |t| :: InClass(t[i])) <==> AllInCharset(t)
  {
    hide Charset, InClass;
    forall i | 0 <= i < |t| ensures InClass(t[i]) <==> t[i] in Charset() { ClassUnit(t[i]); }
  }

  /**
   * The strict recogniser is the SDK's, for text in lower case whose last `1` is the sixth character, up to 96 long.
   */
  lemma RecognisersAgree(lower: Lowering, s: Text)
    ensures ReadOnlyAccepts(s) <==> SdkAccepts(lower, s) && lower(s) == s && Separator(s) == 5 && 12 <= |s| <= 96
  {
    hide Charset, Fold, Expand, Indexes, Bvs, IndexOf;
    if |s| >= 6 {
      ClassIsCharset(s[6..]);
      assert forall i | 6 <= i < |s| :: s[i] == s[6..][i - 6];
    }
    if ROUGE + [ONE] <= s {
      assert s[..5] == ROUGE && s[5] == ONE;
      if AllInCharset(s[6..]) { LowerStaysPut(lower, s); }
    }
  }

  lemma LowerStaysPut(lower: Lowering, s: Text)
    requires ROUGE + [ONE] <= s && AllInCharset(s[6..])
    ensures lower(s) == s && Separator(s) == 5
  {
    hide Charset;
    assert IsAscii(ROUGE) && AsciiLower(ROUGE) == ROUGE;
    assert s == ROUGE + ([ONE] + s[6..]);
    forall i | 6 <= i < |s| ensures s[i] != ONE {
      assert s[6..][i - 6] == s[i];
      CharsetHasNoOne(s[i]);
    }
    LastIsUnique(s, ONE, 5);
  }

  const LINE_FEED: CodeUnit := 0x0a

  /** A text with the prefix part `rouge1`, a line break, and a checksum that verifies. */
  ghost function BrokenAddress(): Text {
    Encoded(ROUGE + [ONE, LINE_FEED], [])
  }

  /** The SDK takes it for an address, the read-only package does not; it is in lower case and holds a line break. */
  lemma RecognisersDisagree(lower: Lowering)
    ensures SdkAccepts(lower, BrokenAddress()) && !ReadOnlyAccepts(BrokenAddress())
    ensures lower(BrokenAddress()) == BrokenAddress() && LINE_FEED in BrokenAddress()
  {
    hide Charset, Fold, Expand, Indexes, Bvs, Encoded, Checks, Separator, Payload, ReadOnlyAccepts;
    var hrp := ROUGE + [ONE, LINE_FEED];
    assert IsAscii(hrp) && AsciiLower(hrp) == hrp;
    EncodedShape(hrp, []);
    LowerOfEncoded(lower, hrp, []);
    EncodedChecks(hrp, []);
    RecognisersAgree(lower, BrokenAddress());
    assert BrokenAddress()[..7] == hrp && BrokenAddress()[..7][6] == LINE_FEED;
    assert ROUGE + [ONE] <= hrp;
  }
}
