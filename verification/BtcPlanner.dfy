/**
 * The qBTC payout planner (which coins to spend, what to pay, what to return) and the recogniser
 * that decides whether a transaction found on chain settles a withdrawal.
 *
 * Amounts are satoshis; fee rates are sat/vB, any number.
 */
module BtcPlanner {
  import opened Common

  datatype Utxo = Utxo(txid: string, vout: nat, value: nat)

  datatype Plan =
    | Planned(inputs: seq<Utxo>, pay: int, change: int, fee: int, vsize: nat)
    | FeeTooHigh(fee: int, maxFee: int)
    | BelowMinimumAfterFee(fee: int, pay: int)
    | Insufficient(have: int, need: int)
    | Threw

  datatype Params = Params(utxos: seq<Utxo>, sats: int, feeRate: real, destScriptLen: nat, maxFee: int, dust: nat)

  const P2WPKH_SCRIPT_LEN: nat := 22

  // ---------------------------------------------------------------- size and fee

  function VarIntLen(n: nat): nat {
    if n < 0xfd then 1 else if n <= 0xffff then 3 else if n <= 0xffffffff then 5 else 9
  }

  function OutputBytes(lens: seq<nat>): nat {
    if lens == [] then 0 else 8 + VarIntLen(lens[0]) + lens[0] + OutputBytes(lens[1..])
  }

  /** Bytes outside the witness, and bytes in it. */
  function BaseBytes(inputs: nat, lens: seq<nat>): nat {
    4 + 4 + VarIntLen(inputs) + VarIntLen(|lens|) + 41 * inputs + OutputBytes(lens)
  }

  function WitnessBytes(inputs: nat): nat {
    2 + 108 * inputs
  }

  /** Virtual size: the least whole number of vbytes covering a quarter of the weight. */
  function P2wpkhVsize(inputs: nat, lens: seq<nat>): (v: nat)
    requires inputs >= 1
    ensures 4 * (v - 1) < 4 * BaseBytes(inputs, lens) + WitnessBytes(inputs) <= 4 * v
  {
    (BaseBytes(inputs, lens) * 4 + WitnessBytes(inputs) + 3) / 4
  }

  /** The fee, rounded up, after the product is rounded to the nearest billionth. */
  function FeeFor(vsize: nat, feeRate: real): int {
    Ceil((vsize as real * feeRate * 1000000000.0 + 0.5).Floor as real / 1000000000.0)
  }

  function Ceil(x: real): (n: int)
    ensures n as real - 1.0 < x <= n as real
  {
    -(-x).Floor
  }

  /** The rounding costs less than a billionth: the fee is the rate times the size, rounded up, to within that. */
  lemma FeeIsClose(vsize: nat, feeRate: real)
    requires feeRate > 0.0
    ensures var due := vsize as real * feeRate;
            due - 0.000000001 < FeeFor(vsize, feeRate) as real < due + 1.000000001
    ensures FeeFor(vsize, feeRate) >= 0
  {
    var scaled := vsize as real * feeRate * 1000000000.0;
    var billionths := (scaled + 0.5).Floor as real;
    assert scaled - 0.5 < billionths <= scaled + 0.5;
    assert scaled >= 0.0;
  }

  lemma {:induction false} ProductOfWholes(v: nat, n: int)
    ensures v as real * n as real == (v * n) as real
    decreases v
  {
    if v > 0 {
      ProductOfWholes(v - 1, n);
      assert v as real * n as real == (v - 1) as real * n as real + n as real;
    }
  }

  lemma Regroup(x: real, y: real, z: real)
    ensures x * y * z == x * (y * z)
  {
  }

  lemma FloorPastAHalf(y: real, n: int)
    requires y == n as real
    ensures (y + 0.5).Floor == n
  {
  }

  /** No phantom satoshi: for a rate of at most nine decimals the fee is exactly the product, rounded up. */
  lemma FeeIsTheCeiling(vsize: nat, feeRate: real, billionths: int)
    requires feeRate * 1000000000.0 == billionths as real
    ensures FeeFor(vsize, feeRate) == Ceil(vsize as real * feeRate)
  {
    var due := vsize as real * feeRate;
    Regroup(vsize as real, feeRate, 1000000000.0);
    ProductOfWholes(vsize, billionths);
    assert due * 1000000000.0 == (vsize * billionths) as real;
    FloorPastAHalf(due * 1000000000.0, vsize * billionths);
  }

  // ---------------------------------------------------------------- sums and largest-first order

  function Sum(us: seq<Utxo>): (s: nat) {
    if us == [] then 0 else us[0].value + Sum(us[1..])
  }

  lemma SumAppend(a: seq<Utxo>, b: seq<Utxo>)
    ensures Sum(a + b) == Sum(a) + Sum(b)
  {
    if a == [] {
      assert a + b == b;
    } else {
      assert (a + b)[1..] == a[1..] + b;
      SumAppend(a[1..], b);
    }
  }

  predicate LargestFirst(us: seq<Utxo>) {
    forall i, j | 0 <= i < j < |us| :: us[i].value >= us[j].value
  }

  /** The stable sort by falling value that `Array.prototype.sort` performs. */
  function SortLargestFirst(us: seq<Utxo>): (sorted: seq<Utxo>) {
    if us == [] then [] else Insert(us[0], SortLargestFirst(us[1..]))
  }

  function Insert(u: Utxo, us: seq<Utxo>): (r: seq<Utxo>) {
    if us == [] || u.value >= us[0].value then [u] + us else [us[0]] + Insert(u, us[1..])
  }

  lemma {:induction false} InsertKeepsOrder(u: Utxo, us: seq<Utxo>)
    requires LargestFirst(us)
    ensures LargestFirst(Insert(u, us)) && |Insert(u, us)| == |us| + 1
    ensures Insert(u, us)[0].value == if us == [] || u.value >= us[0].value then u.value else us[0].value
  {
    if us != [] && u.value < us[0].value {
      InsertKeepsOrder(u, us[1..]);
      assert Insert(u, us[1..])[0].value <= us[0].value;
    }
  }

  lemma {:induction false} InsertKeepsAll(u: Utxo, us: seq<Utxo>)
    ensures multiset(Insert(u, us)) == multiset(us) + multiset{u}
  {
    if us != [] && u.value < us[0].value {
      InsertKeepsAll(u, us[1..]);
      assert us == [us[0]] + us[1..];
    }
  }

  lemma {:induction false} SortIsAPermutation(us: seq<Utxo>)
    ensures multiset(SortLargestFirst(us)) == multiset(us)
    ensures LargestFirst(SortLargestFirst(us)) && |SortLargestFirst(us)| == |us|
  {
    if us != [] {
      var rest := SortLargestFirst(us[1..]);
      SortIsAPermutation(us[1..]);
      InsertKeepsOrder(us[0], rest);
      InsertKeepsAll(us[0], rest);
      assert us == [us[0]] + us[1..];
    }
  }

  function Without(us: seq<Utxo>, i: nat): seq<Utxo>
    requires i < |us|
  {
    us[..i] + us[i + 1..]
  }

  lemma WithoutOne(us: seq<Utxo>, i: nat)
    requires i < |us|
    ensures multiset(us) == multiset(Without(us, i)) + multiset{us[i]}
  {
    assert us == us[..i] + [us[i]] + us[i + 1..];
  }

  lemma SumWithoutOne(us: seq<Utxo>, i: nat)
    requires i < |us|
    ensures Sum(us) == Sum(Without(us, i)) + us[i].value
  {
    assert us == us[..i] + ([us[i]] + us[i + 1..]);
    SumAppend(us[..i], us[i + 1..]);
    SumAppend(us[..i], [us[i]] + us[i + 1..]);
    assert ([us[i]] + us[i + 1..])[1..] == us[i + 1..];
  }

  lemma {:induction false} SumIsOrderFree(a: seq<Utxo>, b: seq<Utxo>)
    requires multiset(a) == multiset(b)
    ensures Sum(a) == Sum(b)
    decreases |a|
  {
    if a == [] {
      assert |multiset(b)| == 0;
    } else {
      assert a[0] in multiset(b);
      var i :| 0 <= i < |b| && b[i] == a[0];
      WithoutOne(a, 0);
      WithoutOne(b, i);
      SumWithoutOne(a, 0);
      SumWithoutOne(b, i);
      assert multiset(Without(a, 0)) == multiset(a) - multiset{a[0]};
      SumIsOrderFree(Without(a, 0), Without(b, i));
    }
  }

  /** Among coins sorted largest first, no k of them are worth more than the first k. */
  lemma {:induction false} FirstAreLargest(sorted: seq<Utxo>, chosen: seq<Utxo>)
    requires LargestFirst(sorted) && multiset(chosen) <= multiset(sorted)
    ensures |chosen| <= |sorted| && Sum(chosen) <= Sum(sorted[..|chosen|])
    decreases |chosen|
  {
    if chosen != [] {
      assert chosen[0] in multiset(sorted);
      var i: nat := 0;
      if sorted[0] in chosen { i :| 0 <= i < |chosen| && chosen[i] == sorted[0]; }
      RemoveLargest(sorted, chosen, i);
      FirstAreLargest(sorted[1..], Without(chosen, i));
      SumWithoutOne(chosen, i);
      assert sorted[..|chosen|][1..] == sorted[1..][..|chosen| - 1];
    }
  }

  lemma RemoveLargest(sorted: seq<Utxo>, chosen: seq<Utxo>, i: nat)
    requires sorted != [] && LargestFirst(sorted) && multiset(chosen) <= multiset(sorted) && i < |chosen|
    requires sorted[0] in chosen ==> chosen[i] == sorted[0]
    ensures multiset(Without(chosen, i)) <= multiset(sorted[1..])
    ensures chosen[i].value <= sorted[0].value
  {
    WithoutOne(chosen, i);
    assert sorted == [sorted[0]] + sorted[1..];
    var left, right := multiset(Without(chosen, i)), multiset(sorted[1..]);
    assert multiset(sorted) == multiset{sorted[0]} + right;
    assert sorted[0] in multiset(chosen) <==> sorted[0] in chosen;
    forall x ensures left[x] <= right[x] {
      assert multiset(chosen)[x] <= multiset(sorted)[x];
    }
    assert chosen[i] in multiset(chosen) && chosen[i] in multiset(sorted);
  }

  // ---------------------------------------------------------------- the planner

  /** The coins so far pay exactly, or leave a change output worth creating. */
  predicate Enough(p: Params, inSats: int) {
    inSats == p.sats || inSats > p.sats + p.dust
  }

  /** `chosen` is the shortest run of largest coins that is enough, or every coin when none is. */
  ghost predicate Selected(p: Params, chosen: seq<Utxo>) {
    var sorted := SortLargestFirst(p.utxos);
    && chosen <= sorted
    && (|chosen| == |sorted| || (chosen != [] && Enough(p, Sum(chosen))))
    && (forall k | 0 < k < |chosen| :: !Enough(p, Sum(sorted[..k])))
  }

  /** A remainder too small for a change output. */
  ghost function SubDust(p: Params, chosen: seq<Utxo>): int {
    var over := Sum(chosen) - p.sats;
    if 0 < over <= p.dust then over else 0
  }

  ghost function ChangeOf(p: Params, chosen: seq<Utxo>): int {
    Sum(chosen) - p.sats - SubDust(p, chosen)
  }

  ghost function FeeOf(p: Params, chosen: seq<Utxo>): int
    requires chosen != []
  {
    var outs := if ChangeOf(p, chosen) > 0 then [p.destScriptLen, P2WPKH_SCRIPT_LEN] else [p.destScriptLen];
    FeeFor(P2wpkhVsize(|chosen|, outs), p.feeRate)
  }

  /** What a plan made from a selection promises, and when no plan can be made. */
  ghost predicate Honest(p: Params, chosen: seq<Utxo>, r: Plan)
  {
    && r.Planned? && r.inputs == chosen && chosen != []
    && r.fee == FeeOf(p, chosen) <= p.maxFee
    && r.pay == p.sats + SubDust(p, chosen) - r.fee > p.dust
    && r.change == ChangeOf(p, chosen)
  }

  /** Take coins largest first until they are enough. */
  method SelectInputs(p: Params) returns (selected: seq<Utxo>, inSats: int)
    ensures Selected(p, selected) && inSats == Sum(selected)
  {
    var sorted := SortLargestFirst(p.utxos);
    selected := [];
    inSats := 0;
    var i := 0;
    while i < |sorted|
      invariant 0 <= i <= |sorted| && selected == sorted[..i] && inSats == Sum(selected)
      invariant forall k | 0 < k <= i :: !Enough(p, Sum(sorted[..k]))
    {
      SumAppend(selected, [sorted[i]]);
      assert sorted[..i + 1] == selected + [sorted[i]];
      selected := selected + [sorted[i]];
      inSats := inSats + sorted[i].value;
      if inSats == p.sats || inSats > p.sats + p.dust { break; }
      i := i + 1;
    }
  }

  /** The verdict the policy gives on a selection. */
  ghost predicate Explains(p: Params, chosen: seq<Utxo>, r: Plan) {
    && Selected(p, chosen)
    && (r.Insufficient? <==> Sum(chosen) < p.sats)
    && (r.Insufficient? ==> r.have == Sum(chosen) && r.need == p.sats)
    && (r.Threw? <==> Sum(chosen) >= p.sats && (chosen == [] || p.feeRate <= 0.0))
    && (!r.Insufficient? && !r.Threw? ==>
          var fee := FeeOf(p, chosen);
          var pay := p.sats + SubDust(p, chosen) - fee;
          && (r.FeeTooHigh? <==> fee > p.maxFee) && (r.FeeTooHigh? ==> r == FeeTooHigh(fee, p.maxFee))
          && (r.BelowMinimumAfterFee? <==> fee <= p.maxFee && pay <= p.dust)
          && (r.BelowMinimumAfterFee? ==> r == BelowMinimumAfterFee(fee, pay))
          && (r.Planned? ==> Honest(p, chosen, r) && FeeFor(r.vsize, p.feeRate) == fee))
  }

  method PlanPayout(p: Params) returns (r: Plan)
    ensures exists chosen :: Explains(p, chosen, r)
    ensures r.Insufficient? <==> Sum(p.utxos) < p.sats
    ensures r.Planned? ==> Conserves(p, r)
  {
    var selected, inSats := SelectInputs(p);
    hide Selected;
    r := Decide(p, selected, inSats);
    InsufficientIffPoor(p, selected);
    if r.Planned? { PlanConserves(p, selected, r); }
  }

  method Decide(p: Params, selected: seq<Utxo>, inSats: int) returns (r: Plan)
    requires Selected(p, selected) && inSats == Sum(selected)
    ensures Explains(p, selected, r)
  {
    hide Selected;
    if inSats < p.sats { return Insufficient(inSats, p.sats); }

    var change := inSats - p.sats;
    var extraToDest := 0;
    if change > 0 && change <= p.dust {
      extraToDest := change;
      change := 0;
    }
    var outs := if change > 0 then [p.destScriptLen, P2WPKH_SCRIPT_LEN] else [p.destScriptLen];
    if |selected| < 1 || p.feeRate <= 0.0 { return Threw; }
    var vsize := P2wpkhVsize(|selected|, outs);
    var fee := FeeFor(vsize, p.feeRate);
    if fee > p.maxFee { return FeeTooHigh(fee, p.maxFee); }
    var pay := p.sats + extraToDest - fee;
    if pay <= p.dust { return BelowMinimumAfterFee(fee, pay); }
    return Planned(selected, pay, change, fee, vsize);
  }

  /** `insufficient` exactly when all the coins together are too few. */
  lemma InsufficientIffPoor(p: Params, chosen: seq<Utxo>)
    requires Selected(p, chosen)
    ensures Sum(chosen) < p.sats <==> Sum(p.utxos) < p.sats
    ensures Sum(chosen) < p.sats ==> multiset(chosen) == multiset(p.utxos)
  {
    var sorted := SortLargestFirst(p.utxos);
    SortIsAPermutation(p.utxos);
    SumIsOrderFree(sorted, p.utxos);
    assert sorted == chosen + sorted[|chosen|..];
    SumAppend(chosen, sorted[|chosen|..]);
    assert |chosen| == |sorted| ==> chosen == sorted;
  }

  /**
   * Conservation: nothing is lost between inputs and outputs, both outputs are above dust, and custody
   * falls by exactly what was burned, except for a sub-dust remainder that needs every coin to occur.
   */
  ghost predicate Conserves(p: Params, r: Plan)
    requires r.Planned?
  {
    && Sum(r.inputs) == r.pay + r.change + r.fee
    && r.pay > p.dust && (r.change == 0 || r.change > p.dust) && r.fee <= p.maxFee
    && multiset(r.inputs) <= multiset(p.utxos)
    && p.sats <= Sum(r.inputs) - r.change <= p.sats + p.dust
    && (Sum(r.inputs) - r.change != p.sats ==> r.change == 0 && multiset(r.inputs) == multiset(p.utxos))
  }

  lemma PlanConserves(p: Params, chosen: seq<Utxo>, r: Plan)
    requires Selected(p, chosen) && Honest(p, chosen, r) && Sum(chosen) >= p.sats
    ensures Conserves(p, r)
  {
    var sorted := SortLargestFirst(p.utxos);
    SortIsAPermutation(p.utxos);
    assert sorted == chosen + sorted[|chosen|..];
    assert |chosen| == |sorted| ==> chosen == sorted;
  }

  /** Extremal: with change, no fewer coins could have paid `sats` and left a change output above dust. */
  lemma NoFewerCoinsSuffice(p: Params, chosen: seq<Utxo>, others: seq<Utxo>)
    requires Selected(p, chosen) && p.sats + p.dust >= 0
    requires multiset(others) <= multiset(p.utxos) && |others| < |chosen|
    ensures Sum(others) <= p.sats + p.dust
  {
    var sorted := SortLargestFirst(p.utxos);
    SortIsAPermutation(p.utxos);
    FirstAreLargest(sorted, others);
    if others != [] {
      assert !Enough(p, Sum(sorted[..|others|]));
    }
  }

  // ---------------------------------------------------------------- the recogniser

  datatype TxIn = TxIn(address: Option<string>, value: Option<nat>)
  datatype TxOut = TxOut(address: Option<string>, value: nat)
  datatype Tx = Tx(txid: string, fee: Option<int>, vin: seq<TxIn>, vout: seq<TxOut>)

  ghost function OutSum(vout: seq<TxOut>): nat {
    if vout == [] then 0 else OutSum(vout[..|vout| - 1]) + vout[|vout| - 1].value
  }

  /** The value of every spent output, when all of them are known. */
  ghost function InSum(vin: seq<TxIn>): nat
    requires forall i | 0 <= i < |vin| :: vin[i].value.Some?
  {
    if vin == [] then 0 else InSum(vin[..|vin| - 1]) + vin[|vin| - 1].value.value
  }

  ghost function PaidTo(vout: seq<TxOut>, dest: string): nat {
    if vout == [] then 0
    else PaidTo(vout[..|vout| - 1], dest) + if vout[|vout| - 1].address == Some(dest) then vout[|vout| - 1].value else 0
  }

  /** The network fee is known only from known inputs that cover the outputs and agree with a stated fee. */
  ghost predicate FeeIs(tx: Tx, fee: int) {
    && tx.vin != [] && (forall i | 0 <= i < |tx.vin| :: tx.vin[i].value.Some?)
    && fee >= 0 && InSum(tx.vin) == OutSum(tx.vout) + fee
    && (tx.fee.Some? ==> tx.fee.value == fee)
  }

  method EsploraTxFee(tx: Tx) returns (fee: Option<int>)
    ensures fee.Some? ==> FeeIs(tx, fee.value)
    ensures fee.None? ==> forall f :: !FeeIs(tx, f)
  {
    if |tx.vin| == 0 { return None; }
    var tin := 0;
    for i := 0 to |tx.vin|
      invariant forall k | 0 <= k < i :: tx.vin[k].value.Some?
      invariant tin == InSum(tx.vin[..i])
    {
      if tx.vin[i].value.None? { return None; }
      assert tx.vin[..i + 1][..i] == tx.vin[..i];
      tin := tin + tx.vin[i].value.value;
    }
    var tout := 0;
    for i := 0 to |tx.vout|
      invariant tout == OutSum(tx.vout[..i])
    {
      assert tx.vout[..i + 1][..i] == tx.vout[..i];
      tout := tout + tx.vout[i].value;
    }
    assert tx.vin[..|tx.vin|] == tx.vin && tx.vout[..|tx.vout|] == tx.vout;
    if tin < tout { return None; }
    var computed := tin - tout;
    if tx.fee.Some? && tx.fee.value != computed { return None; }
    return Some(computed);
  }

  /**
   * A custody payout that settles `sats` owed to `dest`: it spends custody, pays the destination, and
   * pays in full or pays all but its own bounded fee.
   */
  ghost predicate Settles(tx: Tx, custody: string, dest: string, sats: int, maxFee: int) {
    && (exists i :: 0 <= i < |tx.vin| && tx.vin[i].address == Some(custody))
    && PaidTo(tx.vout, dest) > 0
    && (PaidTo(tx.vout, dest) >= sats || exists fee ::
        FeeIs(tx, fee) && fee <= maxFee && PaidTo(tx.vout, dest) + fee >= sats)
  }

  method PayoutSettles(tx: Tx, custody: string, dest: string, sats: int, maxFee: int) returns (ok: bool)
    ensures ok <==> Settles(tx, custody, dest, sats, maxFee)
  {
    var spends := false;
    for i := 0 to |tx.vin|
      invariant spends <==> exists k :: 0 <= k < i && tx.vin[k].address == Some(custody)
    {
      if tx.vin[i].address == Some(custody) { spends := true; }
    }
    if !spends { return false; }
    var paid := 0;
    for i := 0 to |tx.vout|
      invariant paid == PaidTo(tx.vout[..i], dest)
    {
      assert tx.vout[..i + 1][..i] == tx.vout[..i];
      if tx.vout[i].address == Some(dest) { paid := paid + tx.vout[i].value; }
    }
    assert tx.vout[..|tx.vout|] == tx.vout;
    if paid <= 0 { return false; }
    if paid >= sats { return true; }
    var fee := EsploraTxFee(tx);
    if fee.None? || fee.value > maxFee { return false; }
    return paid + fee.value >= sats;
  }

  /** The transaction `buildPayout` signs for a plan, as an explorer reports it. */
  function TxOf(r: Plan, txid: string, fee: Option<int>, custody: string, dest: string): Tx
    requires r.Planned? && r.pay >= 0 && r.change >= 0
  {
    Tx(txid, fee,
       seq(|r.inputs|, i requires 0 <= i < |r.inputs| => TxIn(Some(custody), Some(r.inputs[i].value))),
       [TxOut(Some(dest), r.pay)] + if r.change > 0 then [TxOut(Some(custody), r.change)] else [])
  }

  lemma AddOutput(vout: seq<TxOut>, o: TxOut, dest: string)
    ensures OutSum(vout + [o]) == OutSum(vout) + o.value
    ensures PaidTo(vout + [o], dest) == PaidTo(vout, dest) + if o.address == Some(dest) then o.value else 0
  {
    assert (vout + [o])[..|vout|] == vout;
  }

  lemma {:induction false} InSumOfCoins(vin: seq<TxIn>, us: seq<Utxo>)
    requires |vin| == |us| && forall i | 0 <= i < |vin| :: vin[i].value == Some(us[i].value)
    ensures InSum(vin) == Sum(us)
  {
    if us != [] {
      var n := |us| - 1;
      InSumOfCoins(vin[..n], us[..n]);
      SumAppend(us[..n], [us[n]]);
      assert us == us[..n] + [us[n]];
    }
  }

  lemma TxOfAddsUp(r: Plan, txid: string, fee: Option<int>, custody: string, dest: string)
    requires r.Planned? && r.inputs != [] && r.pay >= 0 && r.change >= 0 && r.fee >= 0
    requires Sum(r.inputs) == r.pay + r.change + r.fee && (fee.None? || fee.value == r.fee)
    ensures var tx := TxOf(r, txid, fee, custody, dest);
            FeeIs(tx, r.fee) && PaidTo(tx.vout, dest) >= r.pay && tx.vin[0].address == Some(custody)
  {
    var tx := TxOf(r, txid, fee, custody, dest);
    InSumOfCoins(tx.vin, r.inputs);
    AddOutput([], TxOut(Some(dest), r.pay), dest);
    AddOutput([TxOut(Some(dest), r.pay)], TxOut(Some(custody), if r.change > 0 then r.change else 0), dest);
    assert [] + [TxOut(Some(dest), r.pay)] == [TxOut(Some(dest), r.pay)];
  }

  lemma FeeIsNotNegative(p: Params, chosen: seq<Utxo>)
    requires chosen != [] && p.feeRate > 0.0
    ensures FeeOf(p, chosen) >= 0
  {
    var outs := if ChangeOf(p, chosen) > 0 then [p.destScriptLen, P2WPKH_SCRIPT_LEN] else [p.destScriptLen];
    FeeIsClose(P2wpkhVsize(|chosen|, outs), p.feeRate);
  }

  /** Planner and recogniser agree: every planned transaction settles its own withdrawal under the same cap. */
  lemma PlannedPayoutSettles(p: Params, chosen: seq<Utxo>, r: Plan, txid: string, fee: Option<int>, custody: string,
                             dest: string)
    requires Selected(p, chosen) && Honest(p, chosen, r) && Sum(chosen) >= p.sats && p.feeRate > 0.0
    requires fee.None? || fee.value == r.fee
    ensures r.change >= 0 && Settles(TxOf(r, txid, fee, custody, dest), custody, dest, p.sats, p.maxFee)
  {
    PlanConserves(p, chosen, r);
    FeeIsNotNegative(p, chosen);
    hide Selected;
    TxOfAddsUp(r, txid, fee, custody, dest);
  }
}
