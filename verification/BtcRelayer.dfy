/**
 * The qBTC payout relayer: one call of `processBtcWithdrawal` over memory, the state file and the
 * Bitcoin network, with a crash possible before every effect.
 *
 * The environment is a record of answer streams indexed by a clock, so a statement that holds for
 * every `Env` holds for every interleaving. An answer that breaks the environment's contract (an
 * "accepted" for bytes the network does not have, a build that spends a reserved coin, ...) is
 * replaced by the corresponding failed read; everything else is left to the adversary.
 */
module BtcRelayer {
  import opened Common

  /** A signed payout, saved before it is broadcast. */
  datatype Payout = Payout(txid: string, rawHex: string, inputs: seq<string>)

  datatype Review =
    | RecordChanged
    | LegacyBroadcastLost
    | BelowMinimumAfterFee
    | WrongTxid(returned: string)
    | InputsSpent

  datatype Entry = Entry(
    dest: string,
    sats: int,
    attempts: nat,
    btcTxid: Option<string>,
    planned: Option<Payout>,
    needsReview: Option<Review>,
    broadcasting: bool)

  type State = map<string, Entry>

  /** `amount` is `None` when the daemon's number is not an integer. */
  datatype Withdrawal = Withdrawal(txId: string, dest: string, amount: Option<int>)

  datatype Config = Config(
    live: bool, minConfirmations: nat, maxSats: int, maxRetries: nat, dust: int, validDest: string -> bool)

  datatype BroadcastResult =
    | Accepted(txid: string)
    | Rejected(inputsSpent: bool)
    | Unknown

  datatype BuildResult = Built(payout: Payout) | FeeTooHigh | BelowMinimum | BuildThrew

  datatype Scan = Found(txid: string) | NothingFound | ScanThrew

  datatype Outcome =
    | SkippedInvalid | SkippedCap | NeedsReview | ReadFailed | AwaitingConfirmations | Fulfilled
    | FulfillRefused | Adopted | HealthBlocked | GaveUp | WouldPay | BuildFailed | Broadcast
    | BroadcastUnknown | BroadcastRejected | FeeTooHighNow | BelowMinimumNow
    | FulfillThrew
    | Halted

  /** The environment's answers at each clock tick, and the two facts fixed by Bitcoin itself. */
  datatype Env = Env(
    txidOf: string -> string,
    inputsOf: string -> set<string>,
    healthy: nat -> bool,
    confirmations: nat -> Option<nat>,
    known: nat -> Option<bool>,
    history: nat -> Scan,
    build: nat -> BuildResult,
    broadcast: nat -> BroadcastResult,
    fulfill: nat -> Option<bool>,
    arrives: nat -> set<string>,
    halts: nat -> bool)

  /**
   * `onNet`: every transaction the network has. `inFlight`: sent by the relayer, not (yet)
   * definitely rejected, so it may still appear.
   */
  datatype Network = Network(onNet: set<string>, inFlight: set<string>)

  /** The relayer sent nothing but `t`. */
  ghost predicate OnlySent(before: Network, after: Network, t: string) {
    after.inFlight <= before.inFlight + {t}
  }

  /** What a custody transaction was signed for. */
  datatype Order = Order(id: string, dest: string, sats: int)

  datatype Fulfilment = Fulfilment(id: string, txid: string, confirmations: nat)

  /** Memory, the state file, the network, the custody key's signatures, the daemon calls, the clock. */
  datatype World = World(
    state: State,
    disk: State,
    net: Network,
    signed: map<string, Order>,
    fulfilments: seq<Fulfilment>,
    tick: nat)

  // ---------------------------------------------------------------- attribution

  /** The one transaction an entry stands for, if any. */
  function Attributed(e: Entry): Option<string> {
    if e.btcTxid.Some? then e.btcTxid
    else if e.planned.Some? then Some(e.planned.value.txid)
    else None
  }

  predicate Names(e: Entry, t: string) {
    e.btcTxid == Some(t) || (e.planned.Some? && e.planned.value.txid == t)
  }

  predicate Holds(e: Entry, coin: string) {
    e.planned.Some? && coin in e.planned.value.inputs
  }

  ghost predicate AllNames(known: set<string>, state: State) {
    forall t :: t in known <==> exists id :: id in state && Names(state[id], t)
  }

  ghost predicate AllReserved(coins: set<string>, state: State, except: string) {
    forall c :: c in coins <==> exists id :: id in state && id != except && Holds(state[id], c)
  }

  /** Every txid the relayer already attributes to some withdrawal. */
  method KnownPayoutTxids(state: State) returns (s: set<string>)
    ensures AllNames(s, state)
  {
    s := {};
    var todo := state.Keys;
    while todo != {}
      invariant todo <= state.Keys
      invariant forall t :: t in s <==> exists id :: id in state && id !in todo && Names(state[id], t)
      decreases todo
    {
      var id :| id in todo;
      if state[id].btcTxid.Some? { s := s + {state[id].btcTxid.value}; }
      if state[id].planned.Some? { s := s + {state[id].planned.value.txid}; }
      todo := todo - {id};
    }
  }

  /** Inputs held by signed-but-unsettled payouts of the other withdrawals. */
  method ReservedInputs(state: State, except: string) returns (s: set<string>)
    ensures AllReserved(s, state, except)
  {
    s := {};
    var todo := state.Keys;
    while todo != {}
      invariant todo <= state.Keys
      invariant forall c :: c in s <==> exists id :: id in state && id !in todo && id != except && Holds(state[id], c)
      decreases todo
    {
      var id :| id in todo;
      if id != except && state[id].planned.Some? {
        s := s + set i | i in state[id].planned.value.inputs;
      }
      todo := todo - {id};
    }
  }

  // ---------------------------------------------------------------- safety

  function CoinsOf(p: Payout): set<string> {
    set i | i in p.inputs
  }

  ghost predicate EntryOk(env: Env, id: string, e: Entry, net: Network, signed: map<string, Order>) {
    && (e.planned.Some? ==>
          var p := e.planned.value;
          && e.btcTxid.None?
          && p.txid == env.txidOf(p.rawHex)
          && p.inputs != [] && CoinsOf(p) == env.inputsOf(p.txid)
          && p.txid in signed && signed[p.txid] == Order(id, e.dest, e.sats))
    && (e.btcTxid.Some? ==> e.btcTxid.value in net.onNet)
  }

  /** The state file holds `t` as the plan or payout of the very withdrawal it was signed for. */
  ghost predicate Accounted(disk: State, signed: map<string, Order>, t: string)
    requires t in signed
  {
    var o := signed[t];
    && o.id in disk
    && Attributed(disk[o.id]) == Some(t)
    && disk[o.id].dest == o.dest && disk[o.id].sats == o.sats
  }

  /** The safety invariant. It speaks of the state file, never of memory: it must survive a crash. */
  ghost predicate Safe(env: Env, disk: State, net: Network, signed: map<string, Order>) {
    && (forall id | id in disk :: EntryOk(env, id, disk[id], net, signed))
    && (forall a, b | a in disk && b in disk && a != b && Attributed(disk[a]).Some? ::
          Attributed(disk[a]) != Attributed(disk[b]))
    && (forall a, b, c | a in disk && b in disk && a != b && Holds(disk[a], c) :: !Holds(disk[b], c))
    && net.inFlight <= signed.Keys
    && (forall t | t in signed && (t in net.onNet || t in net.inFlight) :: Accounted(disk, signed, t))
  }

  /** Every daemon fulfilment named the recorded payout of that withdrawal. */
  ghost predicate FulfilmentsOk(disk: State, log: seq<Fulfilment>) {
    forall k | 0 <= k < |log| :: log[k].id in disk && disk[log[k].id].btcTxid == Some(log[k].txid)
  }

  /** An entry only moves forwards: frozen under review, its payout never replaced, attempts bounded. */
  ghost predicate EntryEvolves(before: Option<Entry>, after: Entry, maxRetries: nat) {
    match before
    case None => after.attempts <= 1 && after.attempts <= maxRetries
    case Some(e) =>
      && after.dest == e.dest && after.sats == e.sats
      && (e.needsReview.Some? ==> after.(needsReview := e.needsReview) == e)
      && (e.btcTxid.Some? ==> after.btcTxid == e.btcTxid)
      && e.attempts <= after.attempts <= e.attempts + 1
      && (after.attempts > e.attempts ==> after.attempts <= maxRetries && e.needsReview.None? && Attributed(e).None?)
  }

  /** What one call may do to the state file: nothing, or replace its own entry by a later one. */
  ghost predicate Evolves(before: State, after: State, id: string, maxRetries: nat) {
    || after == before
    || (&& id in after && after == before[id := after[id]]
        && EntryEvolves(if id in before then Some(before[id]) else None, after[id], maxRetries))
  }

  /** What each verdict says about the state file before and after the call. */
  ghost predicate Reported(o: Outcome, before: State, after: State, id: string) {
    match o
    case Halted => true
    case NeedsReview => id in after && after[id].needsReview.Some?
    case BelowMinimumNow => after == before || (id in after && after[id].needsReview == Some(BelowMinimumAfterFee))
    case Adopted => id in after && after[id].btcTxid.Some? && after[id].planned.None? && (id in before ==>
        Attributed(before[id]).None?)
    case Broadcast => id in after && after[id].btcTxid.Some? && after[id].planned.None?
                      && (id in before && before[id].planned.Some? ==>
                          after[id].btcTxid == Some(before[id].planned.value.txid))
    case BroadcastUnknown => id in after && after[id].planned.Some? && after[id].needsReview.None?
                             && (id in before && before[id].planned.Some? ==> after == before)
    case BroadcastRejected => id in after && Attributed(after[id]).None? && after[id].needsReview.None?
    case _ => after == before
  }

  // ---------------------------------------------------------------- the five writes to the state file

  lemma ReviewKeepsSafe(env: Env, disk: State, net: Network, signed: map<string, Order>, id: string, e: Entry,
                        why: Review)
    requires Safe(env, disk, net, signed)
    requires if id in disk then e == disk[id] else Attributed(e).None?
    ensures Safe(env, disk[id := e.(needsReview := Some(why))], net, signed)
  {
    var after := disk[id := e.(needsReview := Some(why))];
    forall k | k in after ensures EntryOk(env, k, after[k], net, signed) {
      if k in disk { assert EntryOk(env, k, disk[k], net, signed); }
    }
    forall t | t in signed && (t in net.onNet || t in net.inFlight) ensures Accounted(after, signed, t) {
      assert Accounted(disk, signed, t);
    }
  }

  /** A payout built from coins nobody holds and nothing has spent is a transaction nobody has seen. */
  lemma FreshCoinsMakeAFreshTxid(env: Env, disk: State, net: Network, signed: map<string, Order>, id: string, p: Payout)
    requires Safe(env, disk, net, signed) && (id in disk ==> Attributed(disk[id]).None?)
    requires p.inputs != [] && CoinsOf(p) == env.inputsOf(p.txid)
    requires forall k, c | k in disk && k != id && Holds(disk[k], c) :: c !in p.inputs
    requires forall t | t in net.onNet :: CoinsOf(p) !! env.inputsOf(t)
    ensures p.txid !in net.onNet && p.txid !in net.inFlight
    ensures forall k | k in disk :: Attributed(disk[k]) != Some(p.txid)
  {
    var coin := p.inputs[0];
    assert coin in CoinsOf(p);
    forall k | k in disk && k != id ensures Attributed(disk[k]) != Some(p.txid) {
      assert EntryOk(env, k, disk[k], net, signed);
      assert !Holds(disk[k], coin);
      assert disk[k].planned.Some? ==> (coin in CoinsOf(disk[k].planned.value) <==> Holds(disk[k], coin));
    }
    assert forall t | t in net.inFlight :: t in signed && Accounted(disk, signed, t);
  }

  /** Signing a payout for a withdrawal that has none, out of coins nobody else holds. */
  lemma PlanKeepsSafe(env: Env, disk: State, net: Network, signed: map<string, Order>, id: string, e: Entry, p: Payout)
    requires Safe(env, disk, net, signed)
    requires Attributed(e).None? && (id in disk ==>
                                     Attributed(disk[id]).None? && disk[id].dest == e.dest && disk[id].sats == e.sats)
    requires p.txid == env.txidOf(p.rawHex) && p.inputs != [] && CoinsOf(p) == env.inputsOf(p.txid)
    requires forall k, c | k in disk && k != id && Holds(disk[k], c) :: c !in p.inputs
    requires forall t | t in net.onNet :: CoinsOf(p) !! env.inputsOf(t)
    ensures var signed' := signed[p.txid := Order(id, e.dest, e.sats)];
            && Safe(env, disk, net, signed')
            && Safe(env, disk[id := e.(planned := Some(p), attempts := e.attempts + 1)], net, signed')
  {
    FreshCoinsMakeAFreshTxid(env, disk, net, signed, id, p);
    var signed' := signed[p.txid := Order(id, e.dest, e.sats)];
    var after := disk[id := e.(planned := Some(p), attempts := e.attempts + 1)];
    forall k | k in disk ensures EntryOk(env, k, disk[k], net, signed') {
      assert EntryOk(env, k, disk[k], net, signed);
    }
    forall t | t in signed' && (t in net.onNet || t in net.inFlight)
      ensures Accounted(disk, signed', t) && Accounted(after, signed', t)
    {
      assert Accounted(disk, signed, t);
    }
    forall a, b, c | a in after && b in after && a != b && Holds(after[a], c) ensures !Holds(after[b], c) {
      assert a != id ==> Holds(disk[a], c);
    }
  }

  /** The network has the saved plan: the plan becomes the payout. */
  lemma SettleKeepsSafe(env: Env, disk: State, net: Network, signed: map<string, Order>, id: string)
    requires Safe(env, disk, net, signed)
    requires id in disk && disk[id].planned.Some? && disk[id].planned.value.txid in net.onNet
    ensures Safe(env, disk[id := disk[id].(btcTxid := Some(disk[id].planned.value.txid), planned := None)], net, signed)
  {
    var e := disk[id].(btcTxid := Some(disk[id].planned.value.txid), planned := None);
    var after := disk[id := e];
    assert EntryOk(env, id, disk[id], net, signed);
    assert Attributed(e) == Attributed(disk[id]);
    forall k | k in after ensures EntryOk(env, k, after[k], net, signed) {
      assert EntryOk(env, k, disk[k], net, signed);
    }
    forall t | t in signed && (t in net.onNet || t in net.inFlight) ensures Accounted(after, signed, t) {
      assert Accounted(disk, signed, t);
    }
    forall a, b, c | a in after && b in after && a != b && Holds(after[a], c) ensures !Holds(after[b], c) {
      assert Holds(disk[a], c);
    }
  }

  /** The saved plan was definitely rejected and is not on its way: it may be dropped. */
  lemma DropKeepsSafe(env: Env, disk: State, net: Network, signed: map<string, Order>, id: string)
    requires Safe(env, disk, net, signed)
    requires id in disk && disk[id].planned.Some?
    requires disk[id].planned.value.txid !in net.onNet && disk[id].planned.value.txid !in net.inFlight
    ensures Safe(env, disk[id := disk[id].(planned := None)], net, signed)
  {
    var after := disk[id := disk[id].(planned := None)];
    assert EntryOk(env, id, disk[id], net, signed);
    forall k | k in after ensures EntryOk(env, k, after[k], net, signed) {
      assert EntryOk(env, k, disk[k], net, signed);
    }
    forall t | t in signed && (t in net.onNet || t in net.inFlight) ensures Accounted(after, signed, t) {
      assert Accounted(disk, signed, t);
    }
    forall a, b, c | a in after && b in after && a != b && Holds(after[a], c) ensures !Holds(after[b], c) {
      assert Holds(disk[a], c);
    }
  }

  /** Adopting a transaction nobody in the file names. */
  lemma AdoptKeepsSafe(env: Env, disk: State, net: Network, signed: map<string, Order>, id: string, e: Entry, t: string)
    requires Safe(env, disk, net, signed)
    requires Attributed(e).None? && (id in disk ==> Attributed(disk[id]).None?)
    requires t in net.onNet && forall k | k in disk :: !Names(disk[k], t)
    ensures Safe(env, disk[id := e.(btcTxid := Some(t))], net, signed)
  {
    var after := disk[id := e.(btcTxid := Some(t))];
    assert t !in signed by {
      if t in signed { assert Accounted(disk, signed, t); assert Names(disk[signed[t].id], t); }
    }
    forall k | k in disk ensures Attributed(disk[k]) != Some(t) { assert !Names(disk[k], t); }
    forall k | k in after ensures EntryOk(env, k, after[k], net, signed) {
      if k != id { assert EntryOk(env, k, disk[k], net, signed); }
    }
    forall u | u in signed && (u in net.onNet || u in net.inFlight) ensures Accounted(after, signed, u) {
      assert Accounted(disk, signed, u);
    }
    forall a, b, c | a in after && b in after && a != b && Holds(after[a], c) ensures !Holds(after[b], c) {
      assert Holds(disk[a], c);
    }
  }

  ghost predicate Valid(env: Env, w: World) {
    Safe(env, w.disk, w.net, w.signed) && FulfilmentsOk(w.disk, w.fulfilments)
  }

  // ---------------------------------------------------------------- environment

  /** One clock tick: transactions may arrive. A transaction signed but never sent cannot. */
  function Tick(env: Env, w: World): (w': World)
    ensures w' == w.(tick := w.tick + 1, net := w.net.(onNet := w'.net.onNet))
    ensures w.net.onNet <= w'.net.onNet
    ensures Valid(env, w) ==> Valid(env, w')
    ensures Safe(env, w.state, w.net, w.signed) ==> Safe(env, w'.state, w'.net, w'.signed)
  {
    var arrived := set t | t in env.arrives(w.tick) && (t in w.net.inFlight || t !in w.signed);
    w.(tick := w.tick + 1, net := w.net.(onNet := w.net.onNet + arrived))
  }

  /** Write-to-temp and rename: a kill leaves the old file or the new one. */
  function Save(env: Env, w: World): (r: (World, bool))
    requires Valid(env, w) && Safe(env, w.state, w.net, w.signed) && FulfilmentsOk(w.state, w.fulfilments)
    ensures Valid(env, r.0) && r.0.tick == w.tick + 1 && r.1 == !env.halts(w.tick)
    ensures r.0 == w.(tick := w.tick + 1, net := w.net.(onNet := r.0.net.onNet), disk := if r.1 then w.state
                      else w.disk)
    ensures w.net.onNet <= r.0.net.onNet
  {
    var alive := !env.halts(w.tick);
    (Tick(env, if alive then w.(disk := w.state) else w), alive)
  }

  /** `true` is believed only when the network has it. */
  function TxKnown(env: Env, w: World, txid: string): (known: Option<bool>)
    ensures known == Some(true) ==> txid in w.net.onNet
  {
    var answer := env.known(w.tick);
    if answer == Some(true) && txid !in w.net.onNet then None else answer
  }

  function FindExistingPayout(env: Env, w: World, known: set<string>): (found: Scan)
    ensures found.Found? ==> found.txid in w.net.onNet && found.txid !in known
  {
    var answer := env.history(w.tick);
    if answer.Found? && (answer.txid !in w.net.onNet || answer.txid in known) then ScanThrew else answer
  }

  /** A new payout spends coins that nothing on the network spends and nobody has reserved. */
  predicate Spendable(env: Env, net: Network, p: Payout, exclude: set<string>) {
    && p.txid == env.txidOf(p.rawHex)
    && p.inputs != [] && CoinsOf(p) == env.inputsOf(p.txid)
    && CoinsOf(p) !! exclude
    && (forall t | t in net.onNet :: CoinsOf(p) !! env.inputsOf(t))
  }

  function Build(env: Env, w: World, exclude: set<string>): (r: BuildResult)
    ensures r.Built? ==> Spendable(env, w.net, r.payout, exclude)
  {
    var answer := env.build(w.tick);
    if answer.Built? && !Spendable(env, w.net, answer.payout, exclude) then BuildThrew else answer
  }

  /** The bytes leave the machine. */
  function Post(env: Env, w: World, t: string): (w': World)
    requires Valid(env, w) && t in w.signed && Accounted(w.disk, w.signed, t)
    ensures Valid(env, w') && w' == w.(net := w.net.(inFlight := w.net.inFlight + {t}))
  {
    w.(net := w.net.(inFlight := w.net.inFlight + {t}))
  }

  /**
   * The answer to a broadcast. "Accepted" with the bytes' own txid means the network has them; a
   * rejection that does not blame spent inputs means it has not, and will not unless they are sent
   * again.
   */
  function Answer(env: Env, w: World, t: string): (r: (World, BroadcastResult))
    requires Valid(env, w) && t in w.net.inFlight
    ensures Valid(env, r.0) && r.0 == w.(net := r.0.net) && w.net.onNet <= r.0.net.onNet
    ensures r.1 == Accepted(t) ==> t in r.0.net.onNet
    ensures r.1 == Rejected(false) ==> t !in r.0.net.onNet && t !in r.0.net.inFlight
  {
    match env.broadcast(w.tick)
    case Accepted(x) => (if x == t then w.(net := w.net.(onNet := w.net.onNet + {t})) else w, Accepted(x))
    case Rejected(false) =>
      if t in w.net.onNet then (w, Unknown) else (w.(net := w.net.(inFlight := w.net.inFlight - {t})), Rejected(false))
    case other => (w, other)
  }

  /** What every section below leaves behind, whether or not the process died in it. */
  ghost predicate Settled(env: Env, before: World, after: World, o: Outcome, id: string, maxRetries: nat) {
    && Valid(env, after)
    && (o != Halted ==> after.state == after.disk)
    && Evolves(before.disk, after.disk, id, maxRetries)
    && Reported(o, before.disk, after.disk, id)
    && before.net.onNet <= after.net.onNet
  }

  lemma IdleSettles(env: Env, before: World, after: World, o: Outcome, id: string, maxRetries: nat)
    requires Valid(env, after) && after.disk == before.disk && before.net.onNet <= after.net.onNet
    requires o == Halted || (after.state == after.disk
                             && o !in {NeedsReview, Adopted, Broadcast, BroadcastUnknown, BroadcastRejected})
    ensures Settled(env, before, after, o, id, maxRetries)
  {
  }

  /** Clock ticks before a section do not matter. */
  lemma SettledSince(env: Env, before: World, mid: World, after: World, o: Outcome, id: string, maxRetries: nat)
    requires Settled(env, mid, after, o, id, maxRetries)
    requires mid.disk == before.disk && before.net.onNet <= mid.net.onNet
    ensures Settled(env, before, after, o, id, maxRetries)
  {
  }

  /** The answers the network can truthfully give about `t`. */
  ghost predicate Believable(r: BroadcastResult, t: string, net: Network) {
    && (r == Accepted(t) ==> t in net.onNet)
    && (r == Rejected(false) ==> t !in net.onNet && t !in net.inFlight)
  }

  /** Settling keeps the plan on every answer but two: the network has it, or definitely refused it. */
  ghost function Verdict(e: Entry, r: BroadcastResult): (Outcome, Entry)
    requires e.planned.Some?
  {
    var t := e.planned.value.txid;
    if r == Accepted(t) then (Broadcast, e.(btcTxid := Some(t), planned := None))
    else if r == Rejected(false) then (BroadcastRejected, e.(planned := None))
    else if r == Unknown then (BroadcastUnknown, e)
    else (NeedsReview, e.(needsReview := Some(if r.Accepted? then WrongTxid(r.txid) else InputsSpent)))
  }

  lemma SettlementKeepsSafe(env: Env, w: World, id: string, r: BroadcastResult)
    requires Valid(env, w) && id in w.disk && w.disk[id].planned.Some? && w.disk[id].needsReview.None?
    requires Believable(r, w.disk[id].planned.value.txid, w.net)
    ensures var after := w.disk[id := Verdict(w.disk[id], r).1];
            Safe(env, after, w.net, w.signed) && FulfilmentsOk(after, w.fulfilments)
  {
    var e := w.disk[id];
    assert EntryOk(env, id, e, w.net, w.signed);
    if r == Accepted(e.planned.value.txid) {
      SettleKeepsSafe(env, w.disk, w.net, w.signed, id);
    } else if r == Rejected(false) {
      DropKeepsSafe(env, w.disk, w.net, w.signed, id);
    } else if r == Unknown {
      assert w.disk[id := e] == w.disk;
    } else {
      ReviewKeepsSafe(env, w.disk, w.net, w.signed, id, e, Verdict(e, r).1.needsReview.value);
    }
  }

  lemma SignedPlanSafe(env: Env, w: World, id: string, entry: Entry, built: Payout, exclude: set<string>)
    requires Valid(env, w) && Attributed(entry).None?
    requires if id in w.disk then w.disk[id] == entry else entry.attempts == 0
    requires Spendable(env, w.net, built, exclude)
    requires AllReserved(exclude, w.disk, id)
    ensures var signed := w.signed[built.txid := Order(id, entry.dest, entry.sats)];
            var after := w.disk[id := entry.(planned := Some(built), attempts := entry.attempts + 1)];
            && Safe(env, w.disk, w.net, signed)
            && Safe(env, after, w.net, signed) && FulfilmentsOk(after, w.fulfilments)
  {
    forall k, c | k in w.disk && k != id && Holds(w.disk[k], c) ensures c !in built.inputs {
      assert c in exclude;
      assert c in CoinsOf(built) <==> c in built.inputs;
    }
    PlanKeepsSafe(env, w.disk, w.net, w.signed, id, entry, built);
  }

  lemma VerdictMovesForward(before: State, id: string, r: BroadcastResult, maxRetries: nat)
    requires id in before && before[id].planned.Some? && before[id].btcTxid.None? && before[id].needsReview.None?
    ensures var after := before[id := Verdict(before[id], r).1];
            Evolves(before, after, id, maxRetries) && Reported(Verdict(before[id], r).0, before, after, id)
  {
    assert before[id := before[id]] == before;
  }

  /** The entry a fresh signature is saved in. */
  ghost function PlanOf(entry: Entry, built: Payout): Entry {
    entry.(planned := Some(built), attempts := entry.attempts + 1)
  }

  lemma KilledAfterSigning(env: Env, before: World, after: World, id: string, entry: Entry, built: Payout,
                           maxRetries: nat)
    requires entry.needsReview.None? && Attributed(entry).None? && entry.attempts < maxRetries
    requires if id in before.disk then before.disk[id] == entry else entry.attempts == 0
    requires Valid(env, after) && before.net.onNet <= after.net.onNet
    requires after.disk == before.disk || after.disk == before.disk[id := PlanOf(entry, built)]
    ensures Settled(env, before, after, Halted, id, maxRetries)
  {
  }

  lemma FirstVerdictSettles(env: Env, before: World, after: World, id: string, entry: Entry, built: Payout,
                            r: BroadcastResult, maxRetries: nat)
    requires entry.needsReview.None? && Attributed(entry).None? && entry.attempts < maxRetries
    requires if id in before.disk then before.disk[id] == entry else entry.attempts == 0
    requires Valid(env, after) && before.net.onNet <= after.net.onNet
    requires after.state == after.disk ==
             before.disk[id := PlanOf(entry, built)][id := Verdict(PlanOf(entry, built), r).1]
    ensures Settled(env, before, after, Verdict(PlanOf(entry, built), r).0, id, maxRetries)
    ensures r == Accepted(built.txid) ==>
              after.disk == before.disk[id := entry.(btcTxid := Some(built.txid), attempts := entry.attempts + 1)]
  {
  }

  ghost predicate NewlySigned(before: map<string, Order>, after: map<string, Order>, t: string, o: Order) {
    after == before[t := o]
  }

  class Relayer {
    const env: Env
    var world: World

    constructor (env: Env, world: World)
      ensures this.env == env && this.world == world
    {
      this.env := env;
      this.world := world;
    }

    /** Let the clock tick; false when the process is killed. */
    method Advance() returns (alive: bool)
      modifies this
      ensures world == Tick(env, old(world)) && alive == !env.halts(old(world).tick)
    {
      alive := !env.halts(world.tick);
      world := Tick(env, world);
    }

    /** `deps.save()` after storing `entry` under `id`. */
    method Store(id: string, entry: Entry) returns (alive: bool)
      requires Valid(env, world) && world.state == world.disk
      requires Safe(env, world.disk[id := entry], world.net, world.signed)
      requires FulfilmentsOk(world.disk[id := entry], world.fulfilments)
      modifies this
      ensures Valid(env, world) && alive == !env.halts(old(world).tick)
      ensures world == old(world).(tick := old(world).tick + 1, net := world.net, state := old(world).disk[id := entry],
                                   disk := if alive then old(world).disk[id := entry] else old(world).disk)
      ensures world.net.inFlight == old(world).net.inFlight && old(world).net.onNet <= world.net.onNet
    {
      world := world.(state := world.state[id := entry]);
      var r := Save(env, world);
      world, alive := r.0, r.1;
    }

    // -------------------------------------------------------------- one withdrawal

    /** Section 1: the network has the payout; wait for depth, then ask the daemon. */
    method AwaitAndFulfill(id: string, cfg: Config) returns (o: Outcome)
      requires Valid(env, world) && world.state == world.disk
      requires id in world.disk && world.disk[id].needsReview.None? && world.disk[id].btcTxid.Some?
      modifies this
      ensures Settled(env, old(world), world, o, id, cfg.maxRetries)
      ensures world == old(world).(tick := world.tick, net := old(world).net.(onNet := world.net.onNet),
                                   fulfilments := world.fulfilments)
      ensures !env.halts(old(world).tick) ==>
                match env.confirmations(old(world).tick)
                case None => o == ReadFailed && world.fulfilments == old(world).fulfilments
                case Some(c) =>
                  if c < cfg.minConfirmations
                  then o == AwaitingConfirmations && world.fulfilments == old(world).fulfilments
                  else
                    && o in {Fulfilled, FulfillRefused, FulfillThrew, Halted}
                    && world.fulfilments == old(world).fulfilments + [Fulfilment(id, world.disk[id].btcTxid.value, c)]
      ensures env.halts(old(world).tick) ==> o == Halted && world.fulfilments == old(world).fulfilments
    {
      var txid := world.state[id].btcTxid.value;
      var confs := env.confirmations(world.tick);
      var alive := Advance();
      if !alive { return Halted; }
      if confs.None? { return ReadFailed; }
      if confs.value < cfg.minConfirmations { return AwaitingConfirmations; }
      var answer := env.fulfill(world.tick);
      world := world.(fulfilments := world.fulfilments + [Fulfilment(id, txid, confs.value)]);
      alive := Advance();
      if !alive { return Halted; }
      match answer
      case None => return FulfillThrew;
      case Some(accepted) => return if accepted then Fulfilled else FulfillRefused;
    }

    /** `settleBroadcast`: what the answer to a broadcast does to the saved plan. */
    method SettleBroadcast(id: string, r: BroadcastResult) returns (o: Outcome)
      requires Valid(env, world) && world.state == world.disk
      requires id in world.disk && world.disk[id].planned.Some? && world.disk[id].needsReview.None?
      requires Believable(r, world.disk[id].planned.value.txid, world.net)
      modifies this
      ensures Valid(env, world) && (o == Halted <==> env.halts(old(world).tick))
      ensures world == old(world).(tick := world.tick, net := old(world).net.(onNet := world.net.onNet),
                                   state := world.state, disk := world.disk)
      ensures old(world).net.onNet <= world.net.onNet
      ensures o == Halted ==> world.disk == old(world).disk
      ensures o != Halted ==>
                && o == Verdict(old(world).disk[id], r).0
                && world.state == world.disk == old(world).disk[id := Verdict(old(world).disk[id], r).1]
    {
      var entry := world.state[id];
      SettlementKeepsSafe(env, world, id, r);
      match r {
        case Accepted(x) =>
          if x != entry.planned.value.txid {
            o, entry := NeedsReview, entry.(needsReview := Some(WrongTxid(x)));
          } else {
            o, entry := Broadcast, entry.(btcTxid := Some(entry.planned.value.txid), planned := None);
          }
        case Unknown =>
          o := BroadcastUnknown;
        case Rejected(spent) =>
          if spent {
            o, entry := NeedsReview, entry.(needsReview := Some(InputsSpent));
          } else {
            o, entry := BroadcastRejected, entry.(planned := None);
          }
      }
      hide Safe;
      var alive := Store(id, entry);
      if !alive { o := Halted; }
    }

    /** The saved bytes leave, and an answer comes back. */
    method Transmit(id: string) returns (r: BroadcastResult)
      requires Valid(env, world) && world.state == world.disk && id in world.disk && world.disk[id].planned.Some?
      modifies this
      ensures Valid(env, world) && world == old(world).(net := world.net) && old(world).net.onNet <= world.net.onNet
      ensures Believable(r, world.disk[id].planned.value.txid, world.net)
              && world.disk[id].planned.value.txid in world.signed
      ensures OnlySent(old(world).net, world.net, world.disk[id].planned.value.txid)
      ensures env.broadcast(world.tick) == Accepted(world.disk[id].planned.value.txid) ==>
                r == env.broadcast(world.tick)
    {
      var planned := world.state[id].planned.value;
      assert EntryOk(env, id, world.disk[id], world.net, world.signed);
      assert Accounted(world.disk, world.signed, planned.txid);
      hide Safe;
      world := Post(env, world, env.txidOf(planned.rawHex));
      var answer := Answer(env, world, planned.txid);
      world := answer.0;
      r := answer.1;
    }

    /** Send the saved bytes and settle the answer. The process may die before or after they leave. */
    method SendPlanned(id: string) returns (o: Outcome, ghost r: BroadcastResult)
      requires Valid(env, world) && world.state == world.disk
      requires id in world.disk && world.disk[id].needsReview.None? && world.disk[id].planned.Some?
      modifies this
      ensures Valid(env, world) && (o != Halted ==> world.state == world.disk)
      ensures world == old(world).(tick := world.tick, net := world.net, state := world.state, disk := world.disk)
      ensures old(world).net.onNet <= world.net.onNet
      ensures OnlySent(old(world).net, world.net, old(world).disk[id].planned.value.txid)
      ensures o in {Broadcast, NeedsReview, BroadcastUnknown, BroadcastRejected, Halted}
      ensures o == Halted ==> world.disk == old(world).disk
      ensures o != Halted ==>
                world.disk == old(world).disk[id := Verdict(old(world).disk[id], r).1]
                    && o == Verdict(old(world).disk[id], r).0
      ensures var from := old(world).tick;
              && !env.halts(from) && !env.halts(from + 1) && !env.halts(from + 2)
              && env.broadcast(from + 1) == Accepted(old(world).disk[id].planned.value.txid)
              ==> o == Broadcast && r == env.broadcast(from + 1)
    {
      hide Safe, Accounted;
      r := Unknown;
      var alive := Advance();
      if !alive { return Halted, r; }
      var answer := Transmit(id);
      r := answer;
      alive := Advance();
      if !alive { return Halted, r; }
      o := SettleBroadcast(id, answer);
    }

    /** Section 2: a signed payout of unknown fate; only ever send the same bytes again. */
    method Resend(id: string, cfg: Config) returns (o: Outcome)
      requires Valid(env, world) && world.state == world.disk
      requires id in world.disk && world.disk[id].needsReview.None? && world.disk[id].planned.Some?
      modifies this
      ensures Settled(env, old(world), world, o, id, cfg.maxRetries)
      ensures world == old(world).(tick := world.tick, net := world.net, state := world.state, disk := world.disk)
      ensures !cfg.live ==> world.net.inFlight == old(world).net.inFlight
      ensures OnlySent(old(world).net, world.net, old(world).disk[id].planned.value.txid)
      ensures o in {ReadFailed, Broadcast, WouldPay, NeedsReview, BroadcastUnknown, BroadcastRejected, Halted}
    {
      var entry := world.state[id];
      assert EntryOk(env, id, entry, world.net, world.signed);
      hide Safe;
      var known := TxKnown(env, world, entry.planned.value.txid);
      var alive := Advance();
      if !alive {
        o := Halted;
      } else if known.None? {
        o := ReadFailed;
      } else if known.value {
        SettlementKeepsSafe(env, world, id, Accepted(entry.planned.value.txid));
        alive := Store(id, entry.(btcTxid := Some(entry.planned.value.txid), planned := None));
        o := if alive then Broadcast else Halted;
      } else if !cfg.live {
        o := WouldPay;
      } else {
        ghost var r;
        o, r := SendPlanned(id);
        VerdictMovesForward(old(world).disk, id, r, cfg.maxRetries);
      }
    }

    /** Record an on-chain transaction nobody else claims as this withdrawal's payout. */
    method Adopt(id: string, entry: Entry, t: string, known: set<string>, cfg: Config) returns (o: Outcome)
      requires Valid(env, world) && world.state == world.disk
      requires entry.needsReview.None? && Attributed(entry).None?
               && entry.attempts <= 1 + (if id in world.disk then world.disk[id].attempts else 0)
      requires id in world.disk ==> world.disk[id] == entry.(broadcasting := world.disk[id].broadcasting)
      requires id !in world.disk ==> entry.attempts == 0
      requires AllNames(known, world.disk)
      requires t in world.net.onNet && t !in known
      modifies this
      ensures Settled(env, old(world), world, o, id, cfg.maxRetries) && o in {Adopted, Halted}
      ensures world == old(world).(tick := world.tick, net := old(world).net.(onNet := world.net.onNet),
                                   state := world.state, disk := world.disk)
      ensures o == Adopted ==> world.disk == old(world).disk[id := entry.(btcTxid := Some(t))]
    {
      AdoptKeepsSafe(env, world.disk, world.net, world.signed, id, entry, t);
      hide Safe;
      var alive := Store(id, entry.(btcTxid := Some(t)));
      o := if alive then Adopted else Halted;
    }

    /** Stop a withdrawal for an operator. */
    method Flag(id: string, entry: Entry, why: Review) returns (alive: bool)
      requires Valid(env, world) && world.state == world.disk
      requires if id in world.disk then world.disk[id] == entry else Attributed(entry).None? && entry.attempts == 0
      modifies this
      ensures Valid(env, world) && alive == !env.halts(old(world).tick)
      ensures world.disk == if alive then old(world).disk[id := entry.(needsReview := Some(why))] else old(world).disk
      ensures alive ==> world.state == world.disk
      ensures world == old(world).(tick := world.tick, net := old(world).net.(onNet := world.net.onNet),
                                   state := world.state, disk := world.disk)
      ensures old(world).net.onNet <= world.net.onNet
    {
      ReviewKeepsSafe(env, world.disk, world.net, world.signed, id, entry, why);
      hide Safe;
      alive := Store(id, entry.(needsReview := Some(why)));
    }

    /** Section 3: the old relayer died mid-broadcast; adopt what is on chain or stop for review. */
    method RecoverLegacy(id: string, cfg: Config) returns (o: Outcome)
      requires Valid(env, world) && world.state == world.disk
      requires id in world.disk && world.disk[id].needsReview.None? && Attributed(world.disk[id]).None?
               && world.disk[id].broadcasting
      modifies this
      ensures Settled(env, old(world), world, o, id, cfg.maxRetries) && o in {ReadFailed, Adopted, NeedsReview, Halted}
      ensures world == old(world).(tick := world.tick, net := old(world).net.(onNet := world.net.onNet),
                                   state := world.state, disk := world.disk)
    {
      hide Safe;
      var known := KnownPayoutTxids(world.state);
      var found := FindExistingPayout(env, world, known);
      var alive := Advance();
      if !alive {
        o := Halted;
      } else if found.ScanThrew? {
        o := ReadFailed;
      } else if found.Found? {
        o := Adopt(id, world.state[id].(broadcasting := false), found.txid, known, cfg);
      } else {
        alive := Flag(id, world.state[id], LegacyBroadcastLost);
        o := if alive then NeedsReview else Halted;
      }
    }

    /** The signature, and when live the plan on disk before anything is sent. */
    method SignAndSave(id: string, entry: Entry, built: Payout, exclude: set<string>, live: bool) returns (alive: bool)
      requires Valid(env, world) && world.state == world.disk && entry.needsReview.None? && Attributed(entry).None?
      requires if id in world.disk then world.disk[id] == entry else entry.attempts == 0
      requires Spendable(env, world.net, built, exclude) && AllReserved(exclude, world.disk, id)
      modifies this
      ensures Valid(env, world)
      ensures world == old(world).(tick := world.tick, net := world.net, state := world.state, disk := world.disk,
                                   signed := old(world).signed[built.txid := Order(id, entry.dest, entry.sats)])
      ensures !live ==> world == old(world).(signed := world.signed)
      ensures live ==>
                && alive == !env.halts(old(world).tick) && world.tick == old(world).tick + 1
                && old(world).net.onNet <= world.net.onNet && (alive ==> world.state == world.disk)
                && world.disk == if alive then old(world).disk[id := PlanOf(entry, built)] else old(world).disk
    {
      SignedPlanSafe(env, world, id, entry, built, exclude);
      hide Safe, FulfilmentsOk, Spendable, AllReserved;
      world := world.(signed := world.signed[built.txid := Order(id, entry.dest, entry.sats)]);
      alive := true;
      if live {
        alive := Store(id, entry.(planned := Some(built), attempts := entry.attempts + 1));
      }
    }

    /** Sign, save, and only then send. */
    method SignAndSend(id: string, entry: Entry, built: Payout, exclude: set<string>, cfg: Config) returns (o: Outcome)
      requires Valid(env, world) && world.state == world.disk && entry.needsReview.None? && Attributed(entry).None?
      requires if id in world.disk then world.disk[id] == entry else entry.attempts == 0
      requires Spendable(env, world.net, built, exclude)
      requires AllReserved(exclude, world.disk, id)
      requires entry.attempts < cfg.maxRetries
      modifies this
      ensures Settled(env, old(world), world, o, id, cfg.maxRetries)
      ensures world == old(world).(tick := world.tick, net := world.net, state := world.state, disk := world.disk,
                                   signed := old(world).signed[built.txid := Order(id, entry.dest, entry.sats)])
      ensures o in {WouldPay, NeedsReview, Broadcast, BroadcastUnknown, BroadcastRejected, Halted}
      ensures !cfg.live ==> o == WouldPay && world.net == old(world).net && world.disk == old(world).disk
      ensures var from := old(world).tick;
              && cfg.live && !env.halts(from) && !env.halts(from + 1) && !env.halts(from + 2) && !env.halts(from + 3)
              && env.broadcast(from + 2) == Accepted(built.txid)
              ==> && o == Broadcast
                  && world.disk == old(world).disk[id := entry.(btcTxid := Some(built.txid),
                      attempts := entry.attempts + 1)]
    {
      hide Safe, Verdict, FulfilmentsOk, Spendable, Settled, Reported, Evolves, AllReserved, OnlySent, Accounted;
      ghost var before := world;
      var alive := SignAndSave(id, entry, built, exclude, cfg.live);
      if !cfg.live {
        IdleSettles(env, before, world, WouldPay, id, cfg.maxRetries);
        o := WouldPay;
      } else if !alive {
        KilledAfterSigning(env, before, world, id, entry, built, cfg.maxRetries);
        o := Halted;
      } else {
        ghost var r;
        o, r := SendPlanned(id);
        if o == Halted {
          KilledAfterSigning(env, before, world, id, entry, built, cfg.maxRetries);
        } else {
          FirstVerdictSettles(env, before, world, id, entry, built, r, cfg.maxRetries);
        }
      }
    }

    /** Section 4: a new payout. Health gate, adopt scan, build, save, and only then broadcast. */
    method PayNew(id: string, entry: Entry, cfg: Config) returns (o: Outcome)
      requires Valid(env, world) && world.state == world.disk
      requires entry.needsReview.None? && Attributed(entry).None? && !entry.broadcasting
      requires if id in world.disk then world.disk[id] == entry else entry.attempts == 0
      modifies this
      ensures Settled(env, old(world), world, o, id, cfg.maxRetries) && world.fulfilments == old(world).fulfilments
      ensures o in {HealthBlocked, ReadFailed, Adopted, GaveUp, BuildFailed, FeeTooHighNow, BelowMinimumNow, WouldPay,
                    NeedsReview, Broadcast, BroadcastUnknown, BroadcastRejected, Halted}
      ensures !cfg.live ==>
                world.net.inFlight == old(world).net.inFlight && o !in {Broadcast, BroadcastUnknown, BroadcastRejected}
      // Nothing is signed past an unhealthy daemon, an unread or matching history, or the retry limit.
      ensures var from := old(world).tick;
              world.signed != old(world).signed ==>
                && env.healthy(from) && env.history(from + 1) == NothingFound && entry.attempts < cfg.maxRetries
                && env.build(from + 3).Built?
                && world.signed == old(world).signed[env.build(from + 3).payout.txid := Order(id, entry.dest,
                    entry.sats)]
      // A cooperative environment gets the withdrawal paid.
      ensures var from := old(world).tick;
              && cfg.live && entry.attempts < cfg.maxRetries && o !in {BuildFailed, Halted}
              && env.healthy(from) && env.history(from + 1) == NothingFound
              && env.build(from + 3).Built? && env.broadcast(from + 5) == Accepted(env.build(from + 3).payout.txid)
              && !env.halts(from + 3) && !env.halts(from + 4) && !env.halts(from + 5) && !env.halts(from + 6)
              ==> && o == Broadcast
                  && world.disk == old(world).disk[id := entry.(btcTxid := Some(env.build(from + 3).payout.txid),
                      attempts := entry.attempts + 1)]
    {
      hide Valid, Settled, AllNames, AllReserved, Spendable;
      ghost var before := world;
      var healthy := env.healthy(world.tick);
      var alive := Advance();
      if !alive || !healthy {
        o := if alive then HealthBlocked else Halted;
        IdleSettles(env, before, world, o, id, cfg.maxRetries);
      } else {
        var known := KnownPayoutTxids(world.state);
        var existing := FindExistingPayout(env, world, known);
        alive := Advance();
        if !alive || existing.ScanThrew? {
          o := if alive then ReadFailed else Halted;
          IdleSettles(env, before, world, o, id, cfg.maxRetries);
        } else if existing.Found? {
          ghost var mid := world;
          o := Adopt(id, entry, existing.txid, known, cfg);
          SettledSince(env, before, mid, world, o, id, cfg.maxRetries);
        } else if entry.attempts >= cfg.maxRetries {
          o := GaveUp;
          IdleSettles(env, before, world, o, id, cfg.maxRetries);
        } else {
          o := BuildAndPay(id, entry, before, cfg);
        }
      }
    }

    /** The second half of section 4, once the history is known to hold no payout. */
    method BuildAndPay(id: string, entry: Entry, ghost before: World, cfg: Config) returns (o: Outcome)
      requires Valid(env, world) && world.state == world.disk == before.disk && before.net.onNet <= world.net.onNet
      requires entry.needsReview.None? && Attributed(entry).None? && entry.attempts < cfg.maxRetries
      requires if id in world.disk then world.disk[id] == entry else entry.attempts == 0
      modifies this
      ensures Settled(env, before, world, o, id, cfg.maxRetries) && world.fulfilments == old(world).fulfilments
      ensures o in {BuildFailed, FeeTooHighNow, BelowMinimumNow, WouldPay, NeedsReview, Broadcast, BroadcastUnknown,
                    BroadcastRejected, Halted}
      ensures !cfg.live ==>
                world.net.inFlight == old(world).net.inFlight && o !in {Broadcast, BroadcastUnknown, BroadcastRejected}
      ensures var answer := env.build(old(world).tick + 1);
              world.signed != old(world).signed ==>
                answer.Built? && world.signed ==
                    old(world).signed[answer.payout.txid := Order(id, entry.dest, entry.sats)]
      ensures var from := old(world).tick;
              && cfg.live && o !in {BuildFailed, Halted}
              && env.build(from + 1).Built? && env.broadcast(from + 3) == Accepted(env.build(from + 1).payout.txid)
              && !env.halts(from + 1) && !env.halts(from + 2) && !env.halts(from + 3) && !env.halts(from + 4)
              ==> && o == Broadcast
                  && world.disk == old(world).disk[id := entry.(btcTxid := Some(env.build(from + 1).payout.txid),
                      attempts := entry.attempts + 1)]
    {
      hide Valid, Settled, AllNames, AllReserved, Spendable;
      var exclude := ReservedInputs(world.state, id);
      var alive := Advance();
      var res := Build(env, world, exclude);
      if !alive || res.BuildThrew? || res.FeeTooHigh? || (res.BelowMinimum? && !cfg.live) {
        o := if !alive then Halted else if res.BuildThrew? then BuildFailed else if res.FeeTooHigh? then FeeTooHighNow
            else BelowMinimumNow;
        IdleSettles(env, before, world, o, id, cfg.maxRetries);
      } else if res.BelowMinimum? {
        o := FlagBelowMinimum(id, entry, before, cfg);
      } else {
        ghost var mid := world;
        o := SignAndSend(id, entry, res.payout, exclude, cfg);
        SettledSince(env, before, mid, world, o, id, cfg.maxRetries);
      }
    }

    method FlagBelowMinimum(id: string, entry: Entry, ghost before: World, cfg: Config) returns (o: Outcome)
      requires Valid(env, world) && world.state == world.disk == before.disk && before.net.onNet <= world.net.onNet
      requires entry.needsReview.None? && Attributed(entry).None?
      requires if id in world.disk then world.disk[id] == entry else entry.attempts == 0
      modifies this
      ensures Settled(env, before, world, o, id, cfg.maxRetries) && o in {BelowMinimumNow, Halted}
      ensures world == old(world).(tick := world.tick, net := old(world).net.(onNet := world.net.onNet),
                                   state := world.state, disk := world.disk)
      ensures o == BelowMinimumNow ==>
                world.disk == old(world).disk[id := entry.(needsReview := Some(BelowMinimumAfterFee))]
    {
      hide Safe, FulfilmentsOk;
      var alive := Flag(id, entry, BelowMinimumAfterFee);
      o := if alive then BelowMinimumNow else Halted;
    }

    /** Decide and act on one pending qBTC withdrawal. */
    method ProcessBtcWithdrawal(w: Withdrawal, cfg: Config) returns (o: Outcome)
      requires Valid(env, world) && world.state == world.disk
      modifies this
      ensures Settled(env, old(world), world, o, w.txId, cfg.maxRetries)
      ensures o == SkippedInvalid <==> w.amount.None? || w.amount.value <= cfg.dust || !cfg.validDest(w.dest)
      ensures o == SkippedCap <==> o != SkippedInvalid && 0 < cfg.maxSats < w.amount.value
      ensures o in {SkippedInvalid, SkippedCap} ==> world == old(world)
      ensures !cfg.live ==> world.net.inFlight == old(world).net.inFlight
      // A record the daemon changed, or one under review, is never paid.
      ensures o !in {SkippedInvalid, SkippedCap} && w.txId in old(world).disk
              && (old(world).disk[w.txId].needsReview.Some? || old(world).disk[w.txId].dest != w.dest
                  || old(world).disk[w.txId].sats != w.amount.value)
              ==> o in {NeedsReview, Halted} && world.signed == old(world).signed
                  && world.fulfilments == old(world).fulfilments
      // Only a withdrawal with neither payout nor plan gets a new signature, and it is for exactly that withdrawal.
      ensures world.signed != old(world).signed ==>
                && o !in {SkippedInvalid, SkippedCap}
                && (w.txId in old(world).disk ==> Attributed(old(world).disk[w.txId]).None?)
                && exists t :: NewlySigned(old(world).signed, world.signed, t, Order(w.txId, w.dest, w.amount.value))
      // The daemon is only ever told about the recorded payout, deep enough.
      ensures world.fulfilments != old(world).fulfilments ==>
                && |world.fulfilments| == |old(world).fulfilments| + 1
                    && world.fulfilments[..|old(world).fulfilments|] == old(world).fulfilments
                && var f := world.fulfilments[|old(world).fulfilments|];
                   && f.id == w.txId && f.id in old(world).disk && old(world).disk[f.id].btcTxid == Some(f.txid)
                   && f.confirmations >= cfg.minConfirmations
      ensures o == Fulfilled ==> world.fulfilments != old(world).fulfilments
    {
      if w.amount.None? || w.amount.value <= cfg.dust || !cfg.validDest(w.dest) { return SkippedInvalid; }
      var sats := w.amount.value;
      if cfg.maxSats > 0 && sats > cfg.maxSats { return SkippedCap; }
      var id := w.txId;
      if id in world.state && (world.state[id].dest != w.dest || world.state[id].sats != sats) {
        var alive := Flag(id, world.state[id], RecordChanged);
        return if alive then NeedsReview else Halted;
      }
      var entry := if id in world.state then world.state[id] else Entry(w.dest, sats, 0, None, None, None, false);
      if entry.needsReview.Some? { return NeedsReview; }
      hide Safe, FulfilmentsOk;
      if entry.btcTxid.Some? {
        o := AwaitAndFulfill(id, cfg);
      } else if entry.planned.Some? {
        o := Resend(id, cfg);
      } else if entry.broadcasting {
        o := RecoverLegacy(id, cfg);
      } else {
        var from := world.tick;
        o := PayNew(id, entry, cfg);
        assert world.signed != old(world).signed ==>
            NewlySigned(old(world).signed, world.signed, env.build(from + 3).payout.txid,
                        Order(id, entry.dest, entry.sats));
      }
    }

    /** A restarted process knows only the state file. */
    method Restart()
      requires Valid(env, world)
      modifies this
      ensures world == old(world).(state := old(world).disk) && Valid(env, world)
    {
      world := world.(state := world.disk);
    }

    /** Any schedule of withdrawals, each call under any configuration, each kill followed by a restart. */
    method Run(calls: seq<(Withdrawal, Config)>)
      requires Valid(env, world) && world.state == world.disk
      modifies this
      ensures Valid(env, world) && world.state == world.disk
      ensures forall t, u | && t in world.signed && u in world.signed && world.signed[t].id == world.signed[u].id
                            && t in world.net.onNet + world.net.inFlight
                                && u in world.net.onNet + world.net.inFlight :: t == u
      ensures old(world).net.onNet <= world.net.onNet
      ensures forall id | id in old(world).disk ::
                id in world.disk && (old(world).disk[id].btcTxid.Some? ==>
                                     world.disk[id].btcTxid == old(world).disk[id].btcTxid)
    {
      hide Safe, FulfilmentsOk, Reported;
      for k := 0 to |calls|
        invariant Valid(env, world) && world.state == world.disk
        invariant old(world).net.onNet <= world.net.onNet
        invariant forall id | id in old(world).disk ::
                    id in world.disk && (old(world).disk[id].btcTxid.Some? ==>
                                         world.disk[id].btcTxid == old(world).disk[id].btcTxid)
      {
        var o := ProcessBtcWithdrawal(calls[k].0, calls[k].1);
        if o == Halted { Restart(); }
      }
      forall t, u | && t in world.signed && u in world.signed && world.signed[t].id == world.signed[u].id
                    && t in world.net.onNet + world.net.inFlight && u in world.net.onNet + world.net.inFlight
        ensures t == u
      {
        AtMostOnePayout(env, world, t, u);
      }
    }
  }

  // ---------------------------------------------------------------- what safety means

  /**
   * At most one payout: two custody transactions signed for the same withdrawal are never both on
   * the network (or on their way), whatever crashed in between.
   */
  lemma AtMostOnePayout(env: Env, w: World, t: string, u: string)
    requires Valid(env, w)
    requires t in w.signed && u in w.signed && w.signed[t].id == w.signed[u].id
    requires t in w.net.onNet + w.net.inFlight && u in w.net.onNet + w.net.inFlight
    ensures t == u
  {
    assert Accounted(w.disk, w.signed, t) && Accounted(w.disk, w.signed, u);
  }

  /** Every custody transaction on the network is the plan or payout of exactly one withdrawal: its own. */
  lemma EveryPayoutIsAccounted(env: Env, w: World, t: string)
    requires Valid(env, w) && t in w.signed && t in w.net.onNet
    ensures w.signed[t].id in w.disk && w.disk[w.signed[t].id].dest == w.signed[t].dest
            && w.disk[w.signed[t].id].sats == w.signed[t].sats
    ensures forall id | id in w.disk :: Attributed(w.disk[id]) == Some(t) <==> id == w.signed[t].id
  {
    assert Accounted(w.disk, w.signed, t);
  }

  /** No transaction is shared: neither as plan nor as payout, nor between the two. */
  lemma NoSharedTxid(env: Env, w: World, a: string, b: string, t: string)
    requires Valid(env, w) && a in w.disk && b in w.disk && Names(w.disk[a], t) && Names(w.disk[b], t)
    ensures a == b
  {
    assert EntryOk(env, a, w.disk[a], w.net, w.signed) && EntryOk(env, b, w.disk[b], w.net, w.signed);
    assert Attributed(w.disk[a]) == Some(t) && Attributed(w.disk[b]) == Some(t);
  }

  /** Unsettled plans never compete for a coin. */
  lemma PlansAreDisjoint(env: Env, w: World, a: string, b: string)
    requires Valid(env, w) && a in w.disk && b in w.disk && a != b
    requires w.disk[a].planned.Some? && w.disk[b].planned.Some?
    ensures CoinsOf(w.disk[a].planned.value) !! CoinsOf(w.disk[b].planned.value)
  {
    forall c | c in CoinsOf(w.disk[a].planned.value) ensures c !in CoinsOf(w.disk[b].planned.value) {
      assert Holds(w.disk[a], c);
      assert !Holds(w.disk[b], c);
    }
  }

  /** A relayer that starts with an empty state file and no signatures starts safe. */
  lemma FreshStartIsSafe(env: Env, onNet: set<string>)
    ensures Valid(env, World(map[], map[], Network(onNet, {}), map[], [], 0))
  {
  }
}
