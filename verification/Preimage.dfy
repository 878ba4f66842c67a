/** The field tables of transactions, headers and certificates, and what their hash preimages determine. */
module Preimage {
  import opened Common
  import opened Json
  import opened Scanner
  import opened Encoding
  import opened UniqueReading
  import opened PayloadTable
  import Utf8

  function TxFields(): seq<Field> {
    [Field(T("version"), UintKind(U32_MAX), Required), Field(T("tx_type"), StrKind, Required),
     Field(T("from_pub_key"), StrKind, Required), Field(T("nonce"), UintKind(U64_MAX), Required),
     Field(T("payload"), StructKind(PayloadFields()), Required), Field(T("fee"), F64Kind, Required),
     Field(T("sig"), StrKind, Required), Field(T("signed_payload"), StrKind, Skipped)]
  }

  function VoteFields(): seq<Field> {
    [Field(T("vote_type"), StrKind, Required), Field(T("height"), UintKind(U64_MAX), Required),
     Field(T("round"), UintKind(U32_MAX), Required), Field(T("block_hash"), StrKind, Required),
     Field(T("voter_pub_key"), StrKind, Required), Field(T("signature"), StrKind, Required)]
  }

  function ProofFields(): seq<Field> {
    [Field(T("height"), UintKind(U64_MAX), Required), Field(T("block_hash"), StrKind, Required),
     Field(T("total_stake"), UintKind(U128_MAX), Required), Field(T("voting_stake"), UintKind(U128_MAX), Required),
     Field(T("quorum_threshold"), UintKind(U128_MAX), Required),
     Field(T("precommit_votes"), StructsKind(VoteFields()), Required),
     Field(T("created_at"), UintKind(U64_MAX), Required)]
  }

  function HeaderFields(): seq<Field> {
    [Field(T("version"), UintKind(U32_MAX), Required), Field(T("chain_id"), StrKind, Required),
     Field(T("height"), UintKind(U64_MAX), Required), Field(T("time"), UintKind(U64_MAX), Required),
     Field(T("prev_hash"), StrKind, Required), Field(T("tx_hash"), StrKind, Required),
     Field(T("proposer_pub_key"), StrKind, Required), Field(T("state_root"), StrKind, Skipped),
     Field(T("parent_commit"), StructKind(ProofFields()), Skipped)]
  }

  /** `encodeTxV1`. */
  function EncodeTx(number: Reading, tx: Value): (r: Option<Text>) {
    EncStruct(number, tx, TxFields())
  }

  /** `encodeFinalityProof`. */
  function EncodeProof(number: Reading, proof: Value): (r: Option<Text>) {
    EncStruct(number, proof, ProofFields())
  }

  /** `encodeHeaderV1`. */
  function EncodeHeader(number: Reading, header: Value): (r: Option<Text>) {
    EncStruct(number, header, HeaderFields())
  }

  // ---------------------------------------------------------------- preimages

  function Concat<X>(parts: seq<seq<X>>): seq<X> {
    if parts == [] then [] else parts[0] + Concat(parts[1..])
  }

  function EncodeAll(ts: seq<Text>): seq<Utf8.Bytes> {
    if ts == [] then [] else [Utf8.Encode(ts[0])] + EncodeAll(ts[1..])
  }

  /** The bytes hashed by `computeTxListHash`. */
  function TxListPreimage(number: Reading, txs: seq<Value>): (r: Option<Utf8.Bytes>) {
    var ts := EncStructs(number, txs, TxFields());
    if ts.None? then None else Some(Concat(EncodeAll(ts.value)))
  }

  /** The bytes hashed by `computeBlockHash`. */
  function BlockPreimage(number: Reading, header: Value, proposerSig: Text): (r: Option<Utf8.Bytes>) {
    var h := EncodeHeader(number, header);
    if h.None? then None else Some(Utf8.Encode(h.value) + Utf8.Encode(proposerSig))
  }

  lemma {:induction false} BytesOfConcat(ts: seq<Text>)
    requires AllWhole(ts)
    ensures Concat(EncodeAll(ts)) == Utf8.Encode(Concat(ts)) && Utf8.Paired(Concat(ts))
  {
    hide Solid, Utf8.Paired, Utf8.Encode;
    if ts == [] {
      Utf8.AsciiIsPaired([]);
      assert Utf8.Encode([]) == [] by { NoBytes(); }
    } else {
      BytesOfConcat(ts[1..]);
      Utf8.EncodeAppends(ts[0], Concat(ts[1..]));
      Utf8.PairedAppend(ts[0], Concat(ts[1..]));
      assert EncodeAll(ts)[1..] == EncodeAll(ts[1..]);
    }
  }

  lemma NoBytes()
    ensures Utf8.Encode([]) == []
  {
  }

  lemma StructIsNotEmpty(number: Reading, v: Value, fields: seq<Field>)
    requires EncStruct(number, v, fields).Some?
    ensures EncStruct(number, v, fields).value != []
  {
    hide EncFields;
  }

  /** Encoded structs over one table, written one after another, split in one way. */
  lemma {:induction false} ConcatSplits(number: Reading, vs: seq<Value>, ws: seq<Value>, fields: seq<Field>)
    requires EncStructs(number, vs, fields).Some? && EncStructs(number, ws, fields).Some?
    requires Concat(EncStructs(number, vs, fields).value) == Concat(EncStructs(number, ws, fields).value)
    ensures |vs| == |ws| && EncStructs(number, vs, fields) == EncStructs(number, ws, fields)
  {
    hide EncStruct;
    if vs != [] { StructIsNotEmpty(number, vs[0], fields); }
    if ws != [] { StructIsNotEmpty(number, ws[0], fields); }
    if vs != [] && ws != [] {
      var a, b := EncStructs(number, vs, fields).value, EncStructs(number, ws, fields).value;
      assert a[1..] == EncStructs(number, vs[1..], fields).value;
      assert b[1..] == EncStructs(number, ws[1..], fields).value;
      StructReadsOneWay(number, vs[0], ws[0], fields, fields, Concat(a[1..]), Concat(b[1..]));
      ConcatSplits(number, vs[1..], ws[1..], fields);
    }
  }

  /** Equal transaction list preimages: as many transactions, with the same encodings, in the same order. */
  lemma TxListIsDetermined(number: Reading, txs: seq<Value>, uxs: seq<Value>)
    requires TxListPreimage(number, txs).Some? && TxListPreimage(number, txs) == TxListPreimage(number, uxs)
    ensures |txs| == |uxs| && forall i | 0 <= i < |txs| :: EncodeTx(number, txs[i]) == EncodeTx(number, uxs[i])
  {
    hide EncStructs, EncStruct, TxFields, Utf8.Encode, Utf8.Paired, Solid, EncodeAll;
    var ts, us := EncStructs(number, txs, TxFields()).value, EncStructs(number, uxs, TxFields()).value;
    WholeStructs(number, txs, TxFields());
    WholeStructs(number, uxs, TxFields());
    BytesOfConcat(ts);
    BytesOfConcat(us);
    Utf8.EncodeIsInjective(Concat(ts), Concat(us));
    ConcatSplits(number, txs, uxs, TxFields());
    StructsAt(number, txs, TxFields());
    StructsAt(number, uxs, TxFields());
  }

  lemma {:induction false} StructsAt(number: Reading, vs: seq<Value>, fields: seq<Field>)
    requires EncStructs(number, vs, fields).Some?
    ensures |EncStructs(number, vs, fields).value| == |vs|
    ensures forall i | 0 <= i < |vs| ::
              EncStruct(number, vs[i], fields) == Some(EncStructs(number, vs, fields).value[i])
  {
    hide EncStruct;
    if vs != [] {
      StructsAt(number, vs[1..], fields);
    }
  }

  /** Equal block preimages: the same header encoding and the same signature bytes. */
  lemma BlockIsDetermined(number: Reading, h: Value, k: Value, x: Text, y: Text)
    requires BlockPreimage(number, h, x).Some? && BlockPreimage(number, h, x) == BlockPreimage(number, k, y)
    ensures EncodeHeader(number, h) == EncodeHeader(number, k) && Utf8.Encode(x) == Utf8.Encode(y)
    ensures Utf8.Paired(x) && Utf8.Paired(y) ==> x == y
  {
    hide EncStruct, HeaderFields, Utf8.Encode, Utf8.Paired, Utf8.Scrub, Solid;
    var a, b := EncodeHeader(number, h).value, EncodeHeader(number, k).value;
    WholeStruct(number, h, HeaderFields());
    WholeStruct(number, k, HeaderFields());
    var s, u := Utf8.Scrub(x), Utf8.Scrub(y);
    Utf8.ScrubKeepsBytes(x);
    Utf8.ScrubKeepsBytes(y);
    Utf8.EncodeAppends(a, s);
    Utf8.EncodeAppends(b, u);
    Utf8.PairedAppend(a, s);
    Utf8.PairedAppend(b, u);
    Utf8.EncodeIsInjective(a + s, b + u);
    StructReadsOneWay(number, h, k, HeaderFields(), HeaderFields(), s, u);
    if Utf8.Paired(x) && Utf8.Paired(y) {
      Utf8.EncodeIsInjective(x, y);
    }
  }

  // ---------------------------------------------------------------- what one encoding commits to

  lemma TextsDiffer(a: string, b: string, i: nat)
    requires |a| != |b| || (i < |a| && a[i] != b[i] && a[i] as int < 0x80 && b[i] as int < 0x80)
    ensures T(a) != T(b)
  {
    if |a| == |b| { assert T(a)[i] != T(b)[i]; }
  }

  lemma TxNamesDiffer()
    ensures DistinctNames(TxFields())
  {
    hide PayloadFields, T;
    TextsDiffer("version", "tx_type", 0);
    TextsDiffer("version", "payload", 0);
    TextsDiffer("tx_type", "payload", 0);
    TextsDiffer("fee", "sig", 0);
    TxNameSizes();
  }

  lemma TxNameSizes()
    ensures |T("version")| == 7 && |T("tx_type")| == 7 && |T("from_pub_key")| == 12 && |T("nonce")| == 5
    ensures |T("payload")| == 7 && |T("fee")| == 3 && |T("sig")| == 3 && |T("signed_payload")| == 14
  {
  }

  /** A transaction's text commits to its sender, nonce, type, version and signature, and to the text of the rest. */
  lemma TxCommits(number: Reading, t: Value, u: Value)
    requires EncodeTx(number, t).Some? && EncodeTx(number, t) == EncodeTx(number, u)
    ensures forall f | f in TxFields() :: EncField(number, t.members, f) == EncField(number, u.members, f)
    ensures forall f | f in TxFields() && IsScalar(f.kind) :: Given(t.members, f) == Given(u.members, f)
  {
    hide EncField, DistinctNames, T, TxFields, EncFields, IsScalar, Given;
    TxNamesDiffer();
    StructCommitsToScalars(number, t, u, TxFields());
  }

  /** Every part of a struct with distinct field names, and the value of every scalar part. */
  lemma StructCommitsToScalars(number: Reading, v: Value, w: Value, fields: seq<Field>)
    requires DistinctNames(fields)
    requires EncStruct(number, v, fields).Some? && EncStruct(number, v, fields) == EncStruct(number, w, fields)
    ensures forall f | f in fields :: EncField(number, v.members, f) == EncField(number, w.members, f)
    ensures forall f | f in fields && IsScalar(f.kind) :: Given(v.members, f) == Given(w.members, f)
  {
    hide EncField, DistinctNames, EncFields, IsScalar, Given;
    StructCommitsToFields(number, v, w, fields);
    FieldsAreRead(number, v.members, fields);
    forall f | f in fields && IsScalar(f.kind) ensures Given(v.members, f) == Given(w.members, f) {
      ScalarIsDetermined(number, v.members, w.members, f);
    }
  }

  lemma {:induction false} FieldsAreRead(number: Reading, ms: seq<Member>, fields: seq<Field>)
    requires EncFields(number, ms, fields).Some?
    ensures forall i | 0 <= i < |fields| :: EncField(number, ms, fields[i]).Ok?
  {
    hide EncField;
    if fields != [] {
      FieldsAreRead(number, ms, fields[1..]);
      assert forall i | 0 < i < |fields| :: fields[i] == fields[1..][i - 1];
    }
  }

  lemma PayloadIsAField(number: Reading, t: Value)
    requires EncodeTx(number, t).Some?
    ensures var f := Field(T("payload"), StructKind(PayloadFields()), Required);
            f in TxFields() && EncField(number, t.members, f).Ok?
  {
    hide T, PayloadFields, EncFields, EncField;
    assert TxFields()[4] == Field(T("payload"), StructKind(PayloadFields()), Required);
    FieldsAreRead(number, t.members, TxFields());
  }

  /** It commits to every payload field: the scalar ones by value, absent ones included. */
  lemma PayloadCommits(number: Reading, t: Value, u: Value)
    requires EncodeTx(number, t).Some? && EncodeTx(number, t) == EncodeTx(number, u)
    ensures var (p, q) := (Lookup(t.members, T("payload")), Lookup(u.members, T("payload")));
            && p.Some? && q.Some? && p.value.Obj? && q.value.Obj?
            && (forall f | f in PayloadFields() ::
                EncField(number, p.value.members, f) == EncField(number, q.value.members, f))
            && (forall f | f in PayloadFields() && IsScalar(f.kind) ::
                Given(p.value.members, f) == Given(q.value.members, f))
  {
    hide T, PayloadFields, EncFields, IsScalar, Given, TxFields, EncField, DistinctNames;
    TxCommits(number, t, u);
    PayloadIsAField(number, t);
    var f := Field(T("payload"), StructKind(PayloadFields()), Required);
    NestedStruct(number, t.members, u.members, f, PayloadFields());
    PayloadNamesDiffer();
    StructCommitsToScalars(number, Lookup(t.members, f.name).value, Lookup(u.members, f.name).value, PayloadFields());
  }

  lemma NestedStruct(number: Reading, ms: seq<Member>, ns: seq<Member>, f: Field, fields: seq<Field>)
    requires f.kind == StructKind(fields) && f.presence.Required?
    requires EncField(number, ms, f).Ok? && EncField(number, ms, f) == EncField(number, ns, f)
    ensures var (x, y) := (Lookup(ms, f.name), Lookup(ns, f.name));
            && x.Some? && y.Some? && x.value.Obj? && y.value.Obj?
            && EncStruct(number, x.value, fields).Some?
                && EncStruct(number, x.value, fields) == EncStruct(number, y.value, fields)
  {
    hide EncStruct;
    StructIsObject(number, Lookup(ms, f.name).value, fields);
    StructIsObject(number, Lookup(ns, f.name).value, fields);
  }

  lemma StructIsObject(number: Reading, v: Value, fields: seq<Field>)
    requires EncStruct(number, v, fields).Some?
    ensures v.Obj?
  {
  }

  lemma HeaderNamesDiffer()
    ensures DistinctNames(HeaderFields())
  {
    hide ProofFields, T;
    TextsDiffer("version", "tx_hash", 0);
    HeaderNameSizes();
  }

  lemma HeaderNameSizes()
    ensures |T("version")| == 7 && |T("chain_id")| == 8 && |T("height")| == 6 && |T("time")| == 4
            && |T("prev_hash")| == 9
    ensures |T("tx_hash")| == 7 && |T("proposer_pub_key")| == 16 && |T("state_root")| == 10
            && |T("parent_commit")| == 13
  {
  }

  /**
   * A header's text commits to every field: height, time, hashes and proposer themselves, the parent certificate as
   * text.
   */
  lemma HeaderCommits(number: Reading, h: Value, k: Value)
    requires EncodeHeader(number, h).Some? && EncodeHeader(number, h) == EncodeHeader(number, k)
    ensures forall f | f in HeaderFields() :: EncField(number, h.members, f) == EncField(number, k.members, f)
    ensures forall f | f in HeaderFields() && IsScalar(f.kind) :: Given(h.members, f) == Given(k.members, f)
  {
    hide EncField, DistinctNames, T, HeaderFields, EncFields, IsScalar, Given;
    HeaderNamesDiffer();
    StructCommitsToScalars(number, h, k, HeaderFields());
  }
}
