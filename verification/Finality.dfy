/**
 * Finality certificates: stake-weighted precommit votes over one block hash. Signature checking is
 * the parameter `signed`; the reading of float texts is the parameter `number`.
 */
module Finality {
  import opened Common
  import opened Json
  import opened Decimal
  import opened Encoding
  import opened Preimage
  import Utf8

  // ---------------------------------------------------------------- stake sets

  datatype Validator = Validator(publicKey: Text, stake: int)

  type Stakes = map<Text, nat>

  datatype StakeSet = StakeSet(stakes: Stakes, total: nat, quorum: nat, height: Option<nat>)

  function AddStake(stakes: Stakes, v: Validator): Stakes {
    if v.stake <= 0 then stakes
    else stakes[v.publicKey := (if v.publicKey in stakes then stakes[v.publicKey] else 0) + v.stake]
  }

  function StakeMap(vs: seq<Validator>): Stakes {
    if vs == [] then map[] else AddStake(StakeMap(vs[..|vs| - 1]), vs[|vs| - 1])
  }

  /** The stake of the keys in `ks`. */
  ghost function StakeOf(stakes: Stakes, ks: set<Text>): nat
    requires ks <= stakes.Keys
  {
    if ks == {} then 0 else
      var k :| k in ks;
      stakes[k] + StakeOf(stakes, ks - {k})
  }

  lemma {:induction false} StakeOfMinus(stakes: Stakes, ks: set<Text>, k: Text)
    requires ks <= stakes.Keys && k in ks
    ensures StakeOf(stakes, ks) == stakes[k] + StakeOf(stakes, ks - {k})
    decreases ks
  {
    var c :| c in ks && StakeOf(stakes, ks) == stakes[c] + StakeOf(stakes, ks - {c});
    if c != k {
      StakeOfMinus(stakes, ks - {c}, k);
      StakeOfMinus(stakes, ks - {k}, c);
      assert ks - {c} - {k} == ks - {k} - {c};
    }
  }

  lemma StakeOfPlus(stakes: Stakes, ks: set<Text>, k: Text)
    requires ks <= stakes.Keys && k in stakes && k !in ks
    ensures StakeOf(stakes, ks + {k}) == StakeOf(stakes, ks) + stakes[k]
  {
    StakeOfMinus(stakes, ks + {k}, k);
    assert ks + {k} - {k} == ks;
  }

  lemma {:induction false} StakeOfSame(stakes: Stakes, more: Stakes, ks: set<Text>)
    requires ks <= stakes.Keys && ks <= more.Keys && forall k | k in ks :: stakes[k] == more[k]
    ensures StakeOf(stakes, ks) == StakeOf(more, ks)
    decreases ks
  {
    if ks != {} {
      var k :| k in ks;
      StakeOfMinus(stakes, ks, k);
      StakeOfMinus(more, ks, k);
      StakeOfSame(stakes, more, ks - {k});
    }
  }

  /** Inclusion and exclusion. */
  lemma {:induction false} StakeOfUnion(stakes: Stakes, a: set<Text>, b: set<Text>)
    requires a <= stakes.Keys && b <= stakes.Keys
    ensures StakeOf(stakes, a) + StakeOf(stakes, b) == StakeOf(stakes, a + b) + StakeOf(stakes, a * b)
    decreases b
  {
    if b == {} {
      assert a + b == a && a * b == {};
    } else {
      var k :| k in b;
      var c := b - {k};
      StakeOfUnion(stakes, a, c);
      StakeOfMinus(stakes, b, k);
      if k in a {
        assert a + c == a + b && a * b == a * c + {k};
        StakeOfPlus(stakes, a * c, k);
      } else {
        assert a + b == a + c + {k} && a * b == a * c;
        StakeOfPlus(stakes, a + c, k);
      }
    }
  }

  lemma StakeOfSubset(stakes: Stakes, a: set<Text>)
    requires a <= stakes.Keys
    ensures StakeOf(stakes, a) <= StakeOf(stakes, stakes.Keys)
  {
    var rest := stakes.Keys - a;
    StakeOfUnion(stakes, a, rest);
    assert a + rest == stakes.Keys && a * rest == {};
  }

  function PositiveStakes(vs: seq<Validator>): nat {
    if vs == [] then 0
    else PositiveStakes(vs[..|vs| - 1]) + (if vs[|vs| - 1].stake > 0 then vs[|vs| - 1].stake else 0)
  }

  lemma AddStakeAdds(stakes: Stakes, v: Validator)
    ensures var more := AddStake(stakes, v);
            StakeOf(more, more.Keys) == StakeOf(stakes, stakes.Keys) + (if v.stake > 0 then v.stake else 0)
  {
    if v.stake > 0 {
      var k, more := v.publicKey, AddStake(stakes, v);
      assert more.Keys == stakes.Keys + {k};
      var rest := stakes.Keys - {k};
      StakeOfMinus(more, more.Keys, k);
      assert more.Keys - {k} == rest;
      StakeOfSame(stakes, more, rest);
      if k in stakes {
        StakeOfMinus(stakes, stakes.Keys, k);
      } else {
        assert rest == stakes.Keys;
      }
    }
  }

  /** No stake is lost or counted twice, repeated keys included. */
  lemma {:induction false} TotalIsConserved(vs: seq<Validator>)
    ensures StakeOf(StakeMap(vs), StakeMap(vs).Keys) == PositiveStakes(vs)
    ensures forall k :: k in StakeMap(vs) <==> exists i :: 0 <= i < |vs| && vs[i].publicKey == k && vs[i].stake > 0
  {
    if vs != [] {
      var front, last := vs[..|vs| - 1], vs[|vs| - 1];
      TotalIsConserved(front);
      AddStakeAdds(StakeMap(front), last);
      forall k ensures k in StakeMap(vs) <==> exists i :: 0 <= i < |vs| && vs[i].publicKey == k && vs[i].stake > 0 {
        if k in StakeMap(front) {
          var i :| 0 <= i < |front| && front[i].publicKey == k && front[i].stake > 0;
          assert vs[i].publicKey == k;
        }
        if i :| 0 <= i < |vs| && vs[i].publicKey == k && vs[i].stake > 0 {
          assert i < |front| ==> front[i].publicKey == k;
        }
      }
    }
  }

  /** The least stake that is more than two thirds of the total. */
  function FinalityQuorum(total: nat): (q: nat)
    ensures 3 * q > 2 * total && 3 * (q - 1) <= 2 * total
  {
    total * 2 / 3 + 1
  }

  method ToStakeSet(entries: seq<Validator>, height: Option<nat>) returns (s: StakeSet)
    ensures s.stakes == StakeMap(entries) && s.height == height
    ensures s.total == StakeOf(s.stakes, s.stakes.Keys) && s.quorum == FinalityQuorum(s.total)
  {
    var stakes: Stakes := map[];
    for i := 0 to |entries|
      invariant stakes == StakeMap(entries[..i])
    {
      var e := entries[i];
      assert entries[..i + 1][..i] == entries[..i];
      if e.stake > 0 {
        stakes := stakes[e.publicKey := (if e.publicKey in stakes then stakes[e.publicKey] else 0) + e.stake];
      }
    }
    assert entries[..|entries|] == entries;
    var total, left := 0, stakes.Keys;
    while left != {}
      invariant left <= stakes.Keys && total + StakeOf(stakes, left) == StakeOf(stakes, stakes.Keys)
      decreases left
    {
      var k :| k in left;
      StakeOfMinus(stakes, left, k);
      total := total + stakes[k];
      left := left - {k};
    }
    s := StakeSet(stakes, total, total * 2 / 3 + 1, height);
  }

  // ---------------------------------------------------------------- vote messages

  const DOMAIN := "ROUGECHAIN_FINALITY_VOTE_V2"
  const MAX_PROOF_VOTES: nat := 1024

  /** The text a validator signs for a precommit in round 0. */
  function VoteMessage(chainId: Text, height: nat, blockHash: Text): Text {
    T(DOMAIN + "|chain=") +
        (chainId + (T("|type=precommit|height=") + (DecimalText(height) + (T("|round=0|block=") + blockHash))))
  }

  predicate IsHash(h: Text) {
    |h| == 64 && forall i | 0 <= i < 64 :: IsDigit(h[i]) || 0x61 <= h[i] <= 0x66
  }

  lemma SplitEnds(a: Text, b: Text, x: Text, y: Text)
    requires a + x == b + y && |x| == |y|
    ensures a == b && x == y
  {
    assert |a| == |b|;
    assert a == (a + x)[..|a|] && b == (b + y)[..|b|];
    assert x == (a + x)[|a|..] && y == (b + y)[|b|..];
  }

  lemma SplitStarts(a: Text, b: Text, x: Text, y: Text)
    requires a + x == b + y && |a| == |b|
    ensures a == b && x == y
  {
    assert a == (a + x)[..|a|] && b == (b + y)[..|b|];
    assert x == (a + x)[|a|..] && y == (b + y)[|b|..];
  }

  /** Digits at the end of a text that stand right after a non-digit are determined by the text. */
  lemma TrailingDigits(a: Text, b: Text, x: Text, y: Text)
    requires a != [] && b != [] && !IsDigit(a[|a| - 1]) && !IsDigit(b[|b| - 1]) && AllDigits(x) && AllDigits(y)
    requires a + x == b + y
    ensures a == b && x == y
  {
    var t := a + x;
    assert t[|a| - 1] == a[|a| - 1] && t[|b| - 1] == b[|b| - 1];
    assert forall i | |a| <= i < |t| :: t[i] == x[i - |a|];
    assert forall i | |b| <= i < |t| :: t[i] == y[i - |b|];
    if |a| == |b| {
      SplitStarts(a, b, x, y);
    }
  }

  lemma Regroup(p: Text, c: Text, m: Text, h: Text, r: Text, k: Text)
    ensures p + (c + (m + (h + (r + k)))) == (((p + (c + m)) + h) + r) + k
  {
  }

  /** Equal messages name the same chain, height and block. */
  lemma VoteMessageIsInjective(c: Text, d: Text, m: nat, n: nat, h: Text, k: Text)
    requires IsHash(h) && IsHash(k) && VoteMessage(c, m, h) == VoteMessage(d, n, k)
    ensures c == d && m == n && h == k
  {
    hide IsHash, DecimalText, T;
    var p, q, r := T(DOMAIN + "|chain="), T("|type=precommit|height="), T("|round=0|block=");
    HashSize(h);
    HashSize(k);
    Regroup(p, c, q, DecimalText(m), r, h);
    Regroup(p, d, q, DecimalText(n), r, k);
    SplitEnds(((p + (c + q)) + DecimalText(m)) + r, ((p + (d + q)) + DecimalText(n)) + r, h, k);
    SplitEnds((p + (c + q)) + DecimalText(m), (p + (d + q)) + DecimalText(n), r, r);
    HeightMarker();
    TextIsCanonical(m);
    TextIsCanonical(n);
    TrailingDigits(p + (c + q), p + (d + q), DecimalText(m), DecimalText(n));
    TextIsInjective(m, n);
    SplitStarts(p, p, c + q, d + q);
    SplitEnds(c, d, q, q);
  }

  /** The bytes signed for two blocks of one chain and height differ, whatever text the chain id is. */
  lemma VoteBytesDiffer(c: Text, n: nat, h: Text, k: Text)
    requires IsHash(h) && IsHash(k) && h != k
    ensures Utf8.Encode(VoteMessage(c, n, h)) != Utf8.Encode(VoteMessage(c, n, k))
  {
    hide DecimalText, T, Utf8.Encode, Utf8.Paired;
    var p, q, r := T(DOMAIN + "|chain="), T("|type=precommit|height="), T("|round=0|block=");
    var front := ((p + (c + q)) + DecimalText(n)) + r;
    Regroup(p, c, q, DecimalText(n), r, h);
    Regroup(p, c, q, DecimalText(n), r, k);
    Utf8.EncodeAppendsAny(front, h);
    Utf8.EncodeAppendsAny(front, k);
    Utf8.AsciiIsPaired(h);
    Utf8.AsciiIsPaired(k);
    if Utf8.Encode(h) == Utf8.Encode(k) { Utf8.EncodeIsInjective(h, k); }
    SameStarts(Utf8.Encode(front), Utf8.Encode(h), Utf8.Encode(k));
  }

  lemma SameStarts(a: Utf8.Bytes, x: Utf8.Bytes, y: Utf8.Bytes)
    requires x != y
    ensures a + x != a + y
  {
    assert x == (a + x)[|a|..] && y == (a + y)[|a|..];
  }

  lemma HashSize(h: Text)
    requires IsHash(h)
    ensures |h| == 64
  {
  }

  lemma HeightMarker()
    ensures var q := T("|type=precommit|height="); q != [] && !IsDigit(q[|q| - 1])
  {
    var s := "|type=precommit|height=";
    assert |T(s)| == |s| == 23 && T(s)[22] == 0x3d;
  }

  // ---------------------------------------------------------------- certificates

  datatype Context = Context(chainId: Text, height: nat, blockHash: Text, validators: seq<Validator>,
                             setHeight: Option<nat>)

  /** What a validator signs for the block: the bytes of the message. */
  function VoteBytes(ctx: Context): Utf8.Bytes {
    Utf8.Encode(VoteMessage(ctx.chainId, ctx.height, ctx.blockHash))
  }

  /** Public key, message bytes, signature. */
  type Signed = (Text, Utf8.Bytes, Text) -> bool

  function Get(v: Value, name: string): Option<Value> {
    if v.Obj? then Lookup(v.members, T(name)) else None
  }

  function Votes(cert: Value): seq<Value> {
    var votes := Get(cert, "precommit_votes");
    if votes.Some? && votes.value.Arr? then votes.value.items else []
  }

  function Voter(vote: Value): Text {
    var k := Get(vote, "voter_pub_key");
    if k.Some? && k.value.Str? then k.value.s else []
  }

  function SignatureOf(vote: Value): Text {
    var k := Get(vote, "signature");
    if k.Some? && k.value.Str? then k.value.s else []
  }

  /** A precommit by a validator for this very block, with a signature that verifies. */
  predicate GoodVote(signed: Signed, ctx: Context, stakes: Stakes, vote: Value) {
    && Get(vote, "vote_type") == Some(Str(T("precommit")))
    && Get(vote, "round") == Some(Num(DecimalText(0)))
    && Get(vote, "height") == Some(Num(DecimalText(ctx.height)))
    && IsHash(ctx.blockHash) && Get(vote, "block_hash") == Some(Str(ctx.blockHash))
    && Voter(vote) in stakes
    && signed(Voter(vote), VoteBytes(ctx), SignatureOf(vote))
  }

  ghost function Voters(votes: seq<Value>): set<Text> {
    set i | 0 <= i < |votes| :: Voter(votes[i])
  }

  ghost predicate DistinctVoters(votes: seq<Value>) {
    forall i, j | 0 <= i < j < |votes| :: Voter(votes[i]) != Voter(votes[j])
  }

  ghost predicate AllGood(signed: Signed, ctx: Context, stakes: Stakes, votes: seq<Value>) {
    forall i | 0 <= i < |votes| :: GoodVote(signed, ctx, stakes, votes[i])
  }

  /** What a verified certificate is, without saying how it is checked. */
  ghost predicate CertificateValid(number: Reading, signed: Signed, cert: Value, ctx: Context) {
    var stakes := StakeMap(ctx.validators);
    var votes := Votes(cert);
    var total := StakeOf(stakes, stakes.Keys);
    && EncodeProof(number, cert).Some?
    && Get(cert, "height") == Some(Num(DecimalText(ctx.height)))
    && Get(cert, "block_hash") == Some(Str(ctx.blockHash))
    && |votes| <= MAX_PROOF_VOTES && |votes| <= |stakes|
    && AllGood(signed, ctx, stakes, votes) && DistinctVoters(votes)
    && Voters(votes) <= stakes.Keys
    && StakeOf(stakes, Voters(votes)) >= FinalityQuorum(total)
    && (ctx.setHeight == Some(ctx.height) ==> ClaimsMatch(cert, StakeOf(stakes, Voters(votes)), total))
  }

  predicate ClaimsMatch(cert: Value, voting: nat, total: nat) {
    && Get(cert, "voting_stake") == Some(Num(DecimalText(voting)))
    && Get(cert, "total_stake") == Some(Num(DecimalText(total)))
    && Get(cert, "quorum_threshold") == Some(Num(DecimalText(FinalityQuorum(total))))
  }

  // ---------------------------------------------------------------- shape

  lemma ReadField(number: Reading, v: Value, fields: seq<Field>, i: nat)
    requires EncStruct(number, v, fields).Some? && i < |fields| && fields[i].presence.Required?
    ensures v.Obj? && Lookup(v.members, fields[i].name).Some?
    ensures EncKind(number, fields[i].kind, Lookup(v.members, fields[i].name).value).Some?
  {
    hide EncKind;
    FieldsAreRead(number, v.members, fields);
    assert EncField(number, v.members, fields[i]).Ok?;
  }

  ghost predicate IsNum(v: Option<Value>) { v.Some? && v.value.Num? }
  ghost predicate IsStr(v: Option<Value>) { v.Some? && v.value.Str? }

  ghost predicate VoteIsShaped(vote: Value) {
    && IsNum(Get(vote, "round")) && IsNum(Get(vote, "height"))
    && IsStr(Get(vote, "voter_pub_key")) && IsStr(Get(vote, "signature"))
  }

  lemma ShapedVote(number: Reading, vote: Value)
    requires EncStruct(number, vote, VoteFields()).Some?
    ensures VoteIsShaped(vote)
  {
    hide T, EncFields, EncStruct;
    ReadField(number, vote, VoteFields(), 1);
    ReadField(number, vote, VoteFields(), 2);
    ReadField(number, vote, VoteFields(), 4);
    ReadField(number, vote, VoteFields(), 5);
  }

  /** Once the shape check passed, every field that is read has the type it is read at. */
  lemma ShapedCertificate(number: Reading, cert: Value)
    requires EncodeProof(number, cert).Some?
    ensures IsNum(Get(cert, "height")) && Get(cert, "precommit_votes") == Some(Arr(Votes(cert)))
    ensures IsNum(Get(cert, "voting_stake")) && IsNum(Get(cert, "total_stake")) && IsNum(Get(cert, "quorum_threshold"))
    ensures forall i | 0 <= i < |Votes(cert)| :: VoteIsShaped(Votes(cert)[i])
  {
    hide T, EncFields, EncStruct, EncStructs, VoteFields, VoteIsShaped;
    var fields := ProofFields();
    ReadField(number, cert, fields, 0);
    ReadField(number, cert, fields, 2);
    ReadField(number, cert, fields, 3);
    ReadField(number, cert, fields, 4);
    ReadField(number, cert, fields, 5);
    StructsAt(number, Votes(cert), VoteFields());
    forall i | 0 <= i < |Votes(cert)| ensures VoteIsShaped(Votes(cert)[i]) {
      ShapedVote(number, Votes(cert)[i]);
    }
  }

  // ---------------------------------------------------------------- the checker

  datatype CheckName =
    | Shape | CertHeight | BlockHash | NonEmptySet | VoteCount | Vote(index: nat) | Quorum
    | ClaimVoting | ClaimTotal | ClaimQuorum
  datatype Check = Check(name: CheckName, ok: bool, critical: bool)

  datatype Verified = Verified(height: nat, blockHash: Text, voting: nat, total: nat, quorum: nat, voters: set<Text>)
  datatype Verdict = Verdict(ok: bool, checks: seq<Check>, verified: Option<Verified>)

  /** Every critical check passed. */
  predicate Passed(checks: seq<Check>) {
    forall i | 0 <= i < |checks| :: checks[i].ok || !checks[i].critical
  }

  /** The loop over the votes. */
  method CountVotes(signed: Signed, ctx: Context, stakes: Stakes, votes: seq<Value>, before: seq<Check>)
    returns (allVotesOk: bool, voters: set<Text>, voting: nat, checks: seq<Check>)
    requires Passed(before)
    ensures allVotesOk <==> AllGood(signed, ctx, stakes, votes) && DistinctVoters(votes)
    ensures allVotesOk ==> voters == Voters(votes) && voters <= stakes.Keys && voting == StakeOf(stakes, voters)
    ensures allVotesOk ==> Passed(checks)
    ensures |checks| == |before| + |votes| && before <= checks
    ensures forall k | 0 <= k < |votes| :: checks[|before| + k].name == Vote(k)
  {
    hide GoodVote, Voter;
    voters, voting, allVotesOk, checks := {}, 0, true, before;
    for k := 0 to |votes|
      invariant allVotesOk <==> AllGood(signed, ctx, stakes, votes[..k]) && DistinctVoters(votes[..k])
      invariant allVotesOk ==>
                  voters == Voters(votes[..k]) && voters <= stakes.Keys && voting == StakeOf(stakes, voters)
      invariant allVotesOk ==> Passed(checks)
      invariant |checks| == |before| + k && before <= checks
      invariant forall j | 0 <= j < k :: checks[|before| + j].name == Vote(j)
    {
      var v := votes[k];
      assert votes[..k + 1] == votes[..k] + [v];
      var pk := Voter(v);
      OneMoreVoter(votes[..k], v);
      var fine := GoodVote(signed, ctx, stakes, v);
      if fine { GoodVoterIsKnown(signed, ctx, stakes, v); }
      var counted := fine && pk !in voters;
      checks := checks + [Check(Vote(k), counted, true)];
      if counted {
        if allVotesOk { StakeOfPlus(stakes, voters, pk); }
        voters := voters + {pk};
        voting := voting + stakes[pk];
      } else {
        allVotesOk := false;
      }
    }
    assert votes[..|votes|] == votes;
  }

  lemma GoodVoterIsKnown(signed: Signed, ctx: Context, stakes: Stakes, vote: Value)
    requires GoodVote(signed, ctx, stakes, vote)
    ensures Voter(vote) in stakes
  {
  }

  lemma OneMoreVoter(votes: seq<Value>, v: Value)
    ensures Voters(votes + [v]) == Voters(votes) + {Voter(v)}
    ensures DistinctVoters(votes + [v]) <==> DistinctVoters(votes) && Voter(v) !in Voters(votes)
  {
    hide Voter;
    var more := votes + [v];
    assert forall i | 0 <= i < |votes| :: more[i] == votes[i];
    forall x ensures x in Voters(more) <==> x in Voters(votes) + {Voter(v)} {
      if x in Voters(votes) {
        var i :| 0 <= i < |votes| && Voter(votes[i]) == x;
        assert Voter(more[i]) == x;
      }
      assert Voter(more[|votes|]) == Voter(v);
    }
    if DistinctVoters(more) {
      forall i | 0 <= i < |votes| ensures Voter(votes[i]) != Voter(v) {
        assert Voter(more[i]) != Voter(more[|votes|]);
      }
    }
  }

  /** `verifyFinalityCertificate`: accepts exactly the valid certificates. */
  method VerifyCertificate(number: Reading, signed: Signed, cert: Value, ctx: Context) returns (r: Verdict)
    ensures r.ok <==> CertificateValid(number, signed, cert, ctx)
    ensures r.verified.Some? <==> r.ok
    ensures r.ok ==> && r.verified.value.voters == Voters(Votes(cert))
                     && r.verified.value.total == PositiveStakes(ctx.validators)
                     && r.verified.value.height == ctx.height && r.verified.value.blockHash == ctx.blockHash
                     && 3 * r.verified.value.voting > 2 * r.verified.value.total
  {
    hide EncodeProof, StakeMap, AllGood, DistinctVoters, Voters, Get, Votes, T, DecimalText, PositiveStakes;
    var stakeSet := ToStakeSet(ctx.validators, ctx.setHeight);
    TotalIsConserved(ctx.validators);
    var shaped := EncodeProof(number, cert).Some?;
    if !shaped { return Verdict(false, [Check(Shape, false, true)], None); }
    var checks := [Check(Shape, true, true),
                   Check(CertHeight, Get(cert, "height") == Some(Num(DecimalText(ctx.height))), true)];
    if !checks[1].ok { return Verdict(false, checks, None); }
    checks := checks + [Check(BlockHash, Get(cert, "block_hash") == Some(Str(ctx.blockHash)), true)];
    if !checks[2].ok { return Verdict(false, checks, None); }
    var votes := Votes(cert);
    checks := checks + [Check(NonEmptySet, |stakeSet.stakes| > 0 && stakeSet.total > 0, true)];
    if !checks[3].ok {
      EmptySetHasNoQuorum(stakeSet.stakes, Voters(votes));
      return Verdict(false, checks, None);
    }
    checks := checks + [Check(VoteCount, |votes| <= MAX_PROOF_VOTES && |votes| <= |stakeSet.stakes|, true)];
    if !checks[4].ok { return Verdict(false, checks, None); }
    var ok, voters, voting, more := CountVotes(signed, ctx, stakeSet.stakes, votes, checks);
    if !ok { return Verdict(false, more, None); }
    checks := more + [Check(Quorum, voting >= stakeSet.quorum, true)];
    if voting < stakeSet.quorum { return Verdict(false, checks, None); }
    var forHeight := ctx.setHeight == Some(ctx.height);
    var claims := Claims(cert, voting, stakeSet.total, forHeight);
    checks := checks + claims;
    var critOk := Passed(checks);
    ClaimsDecide(more + [Check(Quorum, true, true)], claims);
    r := Verdict(critOk, checks, if critOk then
                 Some(Verified(ctx.height, ctx.blockHash, voting, stakeSet.total, stakeSet.quorum, voters)) else None);
  }

  function Claims(cert: Value, voting: nat, total: nat, forHeight: bool): (cs: seq<Check>)
    ensures Passed(cs) <==> (forHeight ==> ClaimsMatch(cert, voting, total))
  {
    var a := Check(ClaimVoting, Get(cert, "voting_stake") == Some(Num(DecimalText(voting))), forHeight);
    var b := Check(ClaimTotal, Get(cert, "total_stake") == Some(Num(DecimalText(total))), forHeight);
    var c := Check(ClaimQuorum, Get(cert, "quorum_threshold") == Some(Num(DecimalText(FinalityQuorum(total)))),
                   forHeight);
    var cs := [a, b, c];
    assert cs[0] == a && cs[1] == b && cs[2] == c;
    cs
  }

  lemma ClaimsDecide(before: seq<Check>, claims: seq<Check>)
    requires Passed(before)
    ensures Passed(before + claims) <==> Passed(claims)
  {
    if Passed(before + claims) {
      forall i | 0 <= i < |claims| ensures claims[i].ok || !claims[i].critical {
        assert (before + claims)[|before| + i] == claims[i];
      }
    }
  }

  lemma EmptySetHasNoQuorum(stakes: Stakes, ks: set<Text>)
    requires |stakes| == 0 || StakeOf(stakes, stakes.Keys) == 0
    ensures ks <= stakes.Keys ==> StakeOf(stakes, ks) < FinalityQuorum(StakeOf(stakes, stakes.Keys))
  {
    if ks <= stakes.Keys { StakeOfSubset(stakes, ks); }
    if |stakes| == 0 { assert stakes.Keys == {}; }
  }

  // ---------------------------------------------------------------- accountable finality

  /** Two quorums share more than a third of the stake. */
  lemma QuorumsIntersect(stakes: Stakes, a: set<Text>, b: set<Text>)
    requires a <= stakes.Keys && b <= stakes.Keys
    requires StakeOf(stakes, a) >= FinalityQuorum(StakeOf(stakes, stakes.Keys))
    requires StakeOf(stakes, b) >= FinalityQuorum(StakeOf(stakes, stakes.Keys))
    ensures 3 * StakeOf(stakes, a * b) > StakeOf(stakes, stakes.Keys)
  {
    StakeOfUnion(stakes, a, b);
    StakeOfSubset(stakes, a + b);
  }

  /** The key put its signature under the vote for this block. */
  ghost predicate SignedFor(signed: Signed, key: Text, ctx: Context) {
    exists sig :: signed(key, VoteBytes(ctx), sig)
  }

  lemma VotersSigned(number: Reading, signed: Signed, cert: Value, ctx: Context)
    requires CertificateValid(number, signed, cert, ctx)
    ensures forall k | k in Voters(Votes(cert)) :: SignedFor(signed, k, ctx)
  {
    hide EncodeProof, StakeMap, VoteMessage, VoteBytes, Get;
    forall k | k in Voters(Votes(cert)) ensures SignedFor(signed, k, ctx) {
      var i :| 0 <= i < |Votes(cert)| && Voter(Votes(cert)[i]) == k;
      assert GoodVote(signed, ctx, StakeMap(ctx.validators), Votes(cert)[i]);
    }
  }

  lemma ValidHashIsHash(number: Reading, signed: Signed, cert: Value, ctx: Context)
    requires CertificateValid(number, signed, cert, ctx)
    ensures IsHash(ctx.blockHash) && Voters(Votes(cert)) != {}
  {
    hide EncodeProof, StakeMap, Get, IsHash;
    assert Voters([]) == {};
    assert Votes(cert) != [];
    assert GoodVote(signed, ctx, StakeMap(ctx.validators), Votes(cert)[0]);
    assert Voter(Votes(cert)[0]) in Voters(Votes(cert));
  }

  /**
   * Two valid certificates for one chain, height and validator set that name different blocks expose
   * validators with more than a third of the stake, each of which signed two different byte strings.
   */
  lemma AccountableFinality(number: Reading, signed: Signed, c1: Value, c2: Value, x1: Context, x2: Context)
    requires CertificateValid(number, signed, c1, x1) && CertificateValid(number, signed, c2, x2)
    requires x1.chainId == x2.chainId && x1.height == x2.height && x1.validators == x2.validators
    requires x1.blockHash != x2.blockHash
    ensures var stakes := StakeMap(x1.validators);
            var both := Voters(Votes(c1)) * Voters(Votes(c2));
            && both <= stakes.Keys && 3 * StakeOf(stakes, both) > PositiveStakes(x1.validators)
            && (forall k | k in both :: SignedFor(signed, k, x1) && SignedFor(signed, k, x2))
            && VoteBytes(x1) != VoteBytes(x2)
  {
    hide EncodeProof, StakeMap, VoteMessage, Utf8.Encode, Get, AllGood, SignedFor, IsHash, Votes, Voters,
         PositiveStakes;
    VotersSigned(number, signed, c1, x1);
    VotersSigned(number, signed, c2, x2);
    ValidHashIsHash(number, signed, c1, x1);
    ValidHashIsHash(number, signed, c2, x2);
    QuorumsIntersect(StakeMap(x1.validators), Voters(Votes(c1)), Voters(Votes(c2)));
    TotalIsConserved(x1.validators);
    VoteBytesDiffer(x1.chainId, x1.height, x1.blockHash, x2.blockHash);
  }
}
