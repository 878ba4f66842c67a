/**
 * The escrow NFT marketplace as a state machine over its listing table, its token index and what the
 * host holds for it, and what every run guarantees a seller. A failed call changes nothing.
 */
module Marketplace {
  import opened Common

  type Bytes = seq<int>

  datatype Nft = Nft(col: Bytes, tokenId: nat)
  datatype Listing = Listing(price: nat, nft: Nft, seller: Bytes)
  datatype Payment = Payment(to: Bytes, amount: nat)

  /** `funds` is the contract's own balance and `payouts` every transfer it made. */
  datatype World = World(next: nat, listings: map<nat, Listing>, index: map<Nft, nat>,
                         owners: map<Nft, Bytes>, funds: int, payouts: seq<Payment>)

  /** The contract's address, and the rouge1 address of a public key. */
  datatype Config = Config(self: Bytes, addressOf: Bytes -> Option<Bytes>)

  const MAX_COL: nat := 256
  const I64_MAX: nat := 0x7fff_ffff_ffff_ffff
  const TWO64: int := 0x1_0000_0000_0000_0000

  /** Calls, with what the host answers in them, and transfers by owners outside the contract. */
  datatype Action =
    | List(caller: Bytes, nft: Nft, price: nat, collectionExists: bool)
    | Buy(caller: Bytes, id: nat, xrge: bool, amount: nat, bps: int, recipient: Option<Bytes>, paysOut: bool)
    | Cancel(caller: Bytes, id: nat)
    | Move(nft: Nft, to: Bytes)

  predicate IsOwner(cfg: Config, owner: Bytes, caller: Bytes) {
    owner == caller || cfg.addressOf(caller) == Some(owner)
  }

  predicate Holds(cfg: Config, w: World, nft: Nft) {
    nft in w.owners && w.owners[nft] == cfg.self
  }

  predicate IsCurrent(w: World, id: nat) {
    id in w.listings && w.listings[id].nft in w.index && w.index[w.listings[id].nft] == id
  }

  /** floor(price * bps / 10000), kept in 64 bits. */
  function Royalty(price: nat, bps: nat): nat {
    Parts(price * bps)
  }

  function Parts(x: nat): nat {
    x / 10000 % TWO64
  }

  function Pay(to: Bytes, amount: nat): seq<Payment> {
    if amount > 0 then [Payment(to, amount)] else []
  }

  function Total(ps: seq<Payment>): nat {
    if ps == [] then 0 else Total(ps[..|ps| - 1]) + ps[|ps| - 1].amount
  }

  /** What the contract pays to itself, under any name: the host takes it and gives it back. */
  function PaidBack(cfg: Config, ps: seq<Payment>): nat {
    if ps == [] then 0
    else
      var last := ps[|ps| - 1];
      PaidBack(cfg, ps[..|ps| - 1]) + if IsOwner(cfg, cfg.self, last.to) then last.amount else 0
  }

  function Delete(w: World, id: nat): World
    requires id in w.listings
  {
    w.(listings := w.listings - {id}, index := if IsCurrent(w, id) then w.index - {w.listings[id].nft} else w.index)
  }

  predicate ListSucceeds(cfg: Config, w: World, a: Action)
    requires a.List?
  {
    && a.caller != [] && a.nft.col != [] && |a.nft.col| <= MAX_COL
    && 0 < a.price <= I64_MAX && a.nft.tokenId <= I64_MAX && a.collectionExists
    && a.nft in w.owners && w.owners[a.nft] != [] && IsOwner(cfg, w.owners[a.nft], a.caller)
  }

  /**
   * The price can be split: were the royalty above the price, the rest would wrap to a negative transfer, which the
   * host refuses.
   */
  predicate Splits(price: nat, bps: int, recipient: Option<Bytes>) {
    0 <= bps && Royalty(price, bps) <= price && (Royalty(price, bps) > 0 ==> recipient.Some?)
  }

  predicate BuySucceeds(cfg: Config, w: World, a: Action)
    requires a.Buy?
  {
    && a.caller != [] && IsCurrent(w, a.id) && a.xrge && a.amount == w.listings[a.id].price
    && Holds(cfg, w, w.listings[a.id].nft) && Splits(w.listings[a.id].price, a.bps, a.recipient) && a.paysOut
  }

  function Receipts(l: Listing, a: Action): seq<Payment>
    requires a.Buy? && Splits(l.price, a.bps, a.recipient)
  {
    var royalty := Royalty(l.price, a.bps);
    (if royalty > 0 then Pay(a.recipient.value, royalty) else []) + Pay(l.seller, l.price - royalty)
  }

  /** At up to 10000 basis points nothing is cut off: the royalty is the floor, and no more than the price. */
  lemma RoyaltyIsAPart(price: nat, bps: nat)
    requires bps <= 10000 && price < TWO64
    ensures Royalty(price, bps) <= price
            && Royalty(price, bps) * 10000 <= price * bps < (Royalty(price, bps) + 1) * 10000
  {
    hide Parts;
    var x := price * bps;
    assert x <= price * 10000 by { Scales(price, bps, 10000); }
    FloorIsAPart(x, price);
  }

  lemma Scales(a: nat, b: nat, c: nat)
    requires b <= c
    ensures a * b <= a * c
  {
  }

  lemma FloorIsAPart(x: nat, price: nat)
    requires x <= price * 10000 && price < TWO64
    ensures Parts(x) <= price && Parts(x) * 10000 <= x < (Parts(x) + 1) * 10000
  {
  }

  function Step(cfg: Config, w: World, a: Action): World {
    match a
    case List(caller, nft, price, _) =>
      if !ListSucceeds(cfg, w, a) then w
      else w.(next := w.next + 1, listings := w.listings[w.next := Listing(price, nft, caller)],
              index := w.index[nft := w.next])
    case Buy(caller, id, _, amount, _, _, _) =>
      if !BuySucceeds(cfg, w, a) then w
      else
        var l := w.listings[id];
        var receipts := Receipts(l, a);
        Delete(w, id).(owners := w.owners[l.nft := caller], payouts := w.payouts + receipts,
                       funds := w.funds + amount - Total(receipts) + PaidBack(cfg, receipts))
    case Cancel(caller, id) =>
      if caller == [] || id !in w.listings || w.listings[id].seller != caller then w
      else
        var l := w.listings[id];
        Delete(w, id).(owners := if IsCurrent(w, id) && Holds(cfg, w, l.nft) then w.owners[l.nft := l.seller]
                       else w.owners)
    case Move(nft, to) => if Holds(cfg, w, nft) then w else w.(owners := w.owners[nft := to])
  }

  // ---------------------------------------------------------------- invariant

  /** The token index always points to an existing listing of that same token; ids are not reused. */
  ghost predicate Inv(w: World) {
    && (forall n | n in w.index :: w.index[n] in w.listings && w.listings[w.index[n]].nft == n)
    && (forall id | id in w.listings :: id < w.next)
  }

  lemma StepKeepsInv(cfg: Config, w: World, a: Action)
    requires Inv(w)
    ensures Inv(Step(cfg, w, a))
  {
    hide Total, Receipts, Royalty, IsOwner;
  }

  /** The calls come from accounts that are not the contract, under any name. */
  ghost predicate Outside(cfg: Config, a: Action) {
    !a.Move? ==> a.caller != cfg.self && cfg.addressOf(a.caller) != Some(cfg.self)
  }

  // ---------------------------------------------------------------- payments

  lemma ReceiptsAddUp(l: Listing, a: Action)
    requires a.Buy? && Splits(l.price, a.bps, a.recipient)
    ensures Total(Receipts(l, a)) == l.price
  {
    hide Royalty;
    var royalty := Royalty(l.price, a.bps);
    var x, y := (if royalty > 0 then Pay(a.recipient.value, royalty) else []), Pay(l.seller, l.price - royalty);
    TotalAppends(x, y);
    TotalOfPay(l.seller, l.price - royalty);
    if royalty > 0 { TotalOfPay(a.recipient.value, royalty); }
  }

  lemma TotalOfPay(to: Bytes, amount: nat)
    ensures Total(Pay(to, amount)) == amount
  {
    assert Pay(to, amount) != [] ==> Pay(to, amount)[..0] == [];
  }

  lemma {:induction false} TotalAppends(x: seq<Payment>, y: seq<Payment>)
    ensures Total(x + y) == Total(x) + Total(y)
  {
    if y == [] {
      assert x + y == x;
    } else {
      TotalAppends(x, y[..|y| - 1]);
      assert (x + y)[..|x + y| - 1] == x + y[..|y| - 1];
    }
  }

  /** The payments of one call. */
  function NewPayouts(cfg: Config, w: World, a: Action): seq<Payment> {
    if a.Buy? && BuySucceeds(cfg, w, a) then Receipts(w.listings[a.id], a) else []
  }

  ghost predicate NoneBack(cfg: Config, ps: seq<Payment>) {
    forall i | 0 <= i < |ps| :: !IsOwner(cfg, cfg.self, ps[i].to)
  }

  lemma {:induction false} NothingBackIff(cfg: Config, ps: seq<Payment>)
    requires forall i | 0 <= i < |ps| :: ps[i].amount > 0
    ensures PaidBack(cfg, ps) == 0 <==> NoneBack(cfg, ps)
  {
    hide IsOwner;
    if ps != [] {
      NothingBackIff(cfg, ps[..|ps| - 1]);
      assert ps == ps[..|ps| - 1] + [ps[|ps| - 1]];
    }
  }

  /**
   * The contract's balance grows by exactly what it paid to itself, and so is kept if and only if it paid itself
   * nothing.
   */
  lemma FundsAreConserved(cfg: Config, w: World, a: Action)
    ensures Step(cfg, w, a).payouts == w.payouts + NewPayouts(cfg, w, a)
    ensures Step(cfg, w, a).funds == w.funds + PaidBack(cfg, NewPayouts(cfg, w, a))
    ensures Step(cfg, w, a).funds == w.funds <==> NoneBack(cfg, NewPayouts(cfg, w, a))
  {
    hide Total, Royalty, PaidBack, NoneBack, IsOwner, ListSucceeds;
    NothingBackIff(cfg, NewPayouts(cfg, w, a));
    if a.Buy? && BuySucceeds(cfg, w, a) {
      ReceiptsAddUp(w.listings[a.id], a);
    } else {
      assert PaidBack(cfg, []) == 0 by { NothingIsBack(cfg); }
    }
  }

  lemma NothingIsBack(cfg: Config)
    ensures PaidBack(cfg, []) == 0
  {
  }

  /** A collection that names the marketplace itself for its royalty: the royalty of a sale stays in the contract. */
  lemma RoyaltyToItselfStays(cfg: Config, w: World, a: Action)
    requires a.Buy? && BuySucceeds(cfg, w, a) && a.recipient == Some(cfg.self)
    requires !IsOwner(cfg, cfg.self, w.listings[a.id].seller)
    ensures Step(cfg, w, a).funds == w.funds + Royalty(w.listings[a.id].price, a.bps)
  {
    hide Royalty, Total;
    FundsAreConserved(cfg, w, a);
    var l := w.listings[a.id];
    var royalty := Royalty(l.price, a.bps);
    var x, y := (if royalty > 0 then Pay(a.recipient.value, royalty) else []), Pay(l.seller, l.price - royalty);
    BackAppends(cfg, x, y);
    assert x != [] ==> x[..0] == [];
    assert y != [] ==> y[..0] == [];
  }

  lemma {:induction false} BackAppends(cfg: Config, x: seq<Payment>, y: seq<Payment>)
    ensures PaidBack(cfg, x + y) == PaidBack(cfg, x) + PaidBack(cfg, y)
  {
    hide IsOwner;
    if y == [] {
      assert x + y == x;
    } else {
      BackAppends(cfg, x, y[..|y| - 1]);
      assert (x + y)[..|x + y| - 1] == x + y[..|y| - 1];
    }
  }

  /** Such a sale exists, whatever the marketplace's address is. */
  lemma SomeRoyaltyStays(cfg: Config, seller: Bytes, buyer: Bytes)
    requires seller != [] && buyer != [] && !IsOwner(cfg, cfg.self, seller)
    ensures exists w: World, a: Action :: Inv(w) && Step(cfg, w, a).funds > w.funds
  {
    var nft := Nft([1], 1);
    var w := World(2, map[1 := Listing(10000, nft, seller)], map[nft := 1], map[nft := cfg.self], 0, []);
    var a := Buy(buyer, 1, true, 10000, 500, Some(cfg.self), true);
    assert Royalty(10000, 500) == 500;
    RoyaltyToItselfStays(cfg, w, a);
    assert Inv(w);
  }

  // ---------------------------------------------------------------- escrow

  /** The contract holds this NFT for listing `id`, which reads `l`. */
  ghost predicate Escrowed(cfg: Config, w: World, id: nat, l: Listing) {
    id in w.listings && w.listings[id] == l && IsCurrent(w, id) && Holds(cfg, w, l.nft)
  }

  /** The two ways out: the seller takes it back, or a buyer paid the price and it was paid on in full. */
  ghost predicate Leaves(cfg: Config, w: World, a: Action, id: nat, l: Listing) {
    var after := Step(cfg, w, a);
    || (a == Cancel(l.seller, id) && after.owners == w.owners[l.nft := l.seller] && after.payouts == w.payouts)
    || (a.Buy? && a.id == id && a.xrge && a.amount == l.price && Splits(l.price, a.bps, a.recipient)
        && after.owners == w.owners[l.nft := a.caller] && after.payouts == w.payouts + Receipts(l, a))
  }

  lemma EscrowStep(cfg: Config, w: World, a: Action, id: nat, l: Listing)
    requires Inv(w) && Outside(cfg, a) && Escrowed(cfg, w, id, l)
    ensures Escrowed(cfg, Step(cfg, w, a), id, l) || Leaves(cfg, w, a, id, l)
  {
    hide Total, Receipts, Royalty;
  }

  function Play(cfg: Config, w: World, acts: seq<Action>): World {
    if acts == [] then w else Step(cfg, Play(cfg, w, acts[..|acts| - 1]), acts[|acts| - 1])
  }

  ghost predicate AllOutside(cfg: Config, acts: seq<Action>) {
    forall i | 0 <= i < |acts| :: Outside(cfg, acts[i])
  }

  lemma {:induction false} PlayKeepsInv(cfg: Config, w: World, acts: seq<Action>)
    requires Inv(w)
    ensures Inv(Play(cfg, w, acts))
  {
    hide Step, Inv;
    if acts != [] {
      PlayKeepsInv(cfg, w, acts[..|acts| - 1]);
      StepKeepsInv(cfg, Play(cfg, w, acts[..|acts| - 1]), acts[|acts| - 1]);
    }
  }

  /** Step `k` is where the NFT leaves. */
  ghost predicate LeavesAt(cfg: Config, w: World, acts: seq<Action>, k: nat, id: nat, l: Listing) {
    k < |acts| && Escrowed(cfg, Play(cfg, w, acts[..k]), id, l) && Leaves(cfg, Play(cfg, w, acts[..k]), acts[k], id, l)
  }

  /** Over any run the balance is what it was and what the contract has paid to itself since. */
  lemma {:induction false} FundsOverRuns(cfg: Config, w: World, acts: seq<Action>)
    ensures w.payouts <= Play(cfg, w, acts).payouts
    ensures Play(cfg, w, acts).funds == w.funds + PaidBack(cfg, Play(cfg, w, acts).payouts[|w.payouts|..])
  {
    hide Step, PaidBack, NewPayouts, NoneBack;
    if acts == [] {
      NothingIsBack(cfg);
      assert w.payouts[|w.payouts|..] == [];
    } else {
      var front, a := acts[..|acts| - 1], acts[|acts| - 1];
      var mid := Play(cfg, w, front);
      FundsOverRuns(cfg, w, front);
      FundsAreConserved(cfg, mid, a);
      BackAppends(cfg, mid.payouts[|w.payouts|..], NewPayouts(cfg, mid, a));
      assert (mid.payouts + NewPayouts(cfg, mid, a))[|w.payouts|..] == mid.payouts[|w.payouts|..] +
             NewPayouts(cfg, mid, a);
    }
  }

  /** Over any run, an escrowed NFT stays in escrow until it leaves in one of the two ways. */
  lemma {:induction false} EscrowOverRuns(cfg: Config, w: World, acts: seq<Action>, id: nat, l: Listing)
    requires Inv(w) && AllOutside(cfg, acts) && Escrowed(cfg, w, id, l)
    ensures Escrowed(cfg, Play(cfg, w, acts), id, l) || exists k: nat :: LeavesAt(cfg, w, acts, k, id, l)
  {
    hide Step, Inv, Escrowed, Leaves, Outside;
    if acts != [] {
      var front, a := acts[..|acts| - 1], acts[|acts| - 1];
      PlayKeepsInv(cfg, w, front);
      EscrowOverRuns(cfg, w, front, id, l);
      if Escrowed(cfg, Play(cfg, w, front), id, l) {
        EscrowStep(cfg, Play(cfg, w, front), a, id, l);
        if !Escrowed(cfg, Play(cfg, w, acts), id, l) { assert LeavesAt(cfg, w, acts, |front|, id, l); }
      } else {
        var k: nat :| LeavesAt(cfg, w, front, k, id, l);
        assert front[..k] == acts[..k];
        assert LeavesAt(cfg, w, acts, k, id, l);
      }
    }
  }

  // ---------------------------------------------------------------- list, then deposit

  /** Listed by `l.seller`, still in the seller's hands. */
  ghost predicate Listed(cfg: Config, w: World, id: nat, l: Listing) {
    && id in w.listings && w.listings[id] == l && IsCurrent(w, id)
    && l.nft in w.owners && !Holds(cfg, w, l.nft)
  }

  /** Neither another listing nor a transfer of this NFT, nor the seller's own cancel. */
  ghost predicate LeavesAlone(a: Action, id: nat, l: Listing) {
    && (a.List? ==> a.nft != l.nft) && (a.Move? ==> a.nft != l.nft)
    && !(a.Cancel? && a.id == id && a.caller == l.seller)
  }

  lemma ListingIsCurrent(cfg: Config, w: World, a: Action)
    requires Inv(w) && Outside(cfg, a) && a.List? && ListSucceeds(cfg, w, a)
    ensures Listed(cfg, Step(cfg, w, a), w.next, Listing(a.price, a.nft, a.caller))
  {
    hide Receipts, Royalty, Total;
  }

  lemma ListedStep(cfg: Config, w: World, a: Action, id: nat, l: Listing)
    requires Inv(w) && Listed(cfg, w, id, l) && LeavesAlone(a, id, l)
    ensures Listed(cfg, Step(cfg, w, a), id, l)
  {
    hide Receipts, Royalty, Total, IsOwner;
  }

  lemma {:induction false} ListedOverRuns(cfg: Config, w: World, acts: seq<Action>, id: nat, l: Listing)
    requires Inv(w) && Listed(cfg, w, id, l) && forall i | 0 <= i < |acts| :: LeavesAlone(acts[i], id, l)
    ensures Listed(cfg, Play(cfg, w, acts), id, l) && Inv(Play(cfg, w, acts))
  {
    hide Step, Inv, Listed, LeavesAlone;
    if acts != [] {
      var front := acts[..|acts| - 1];
      ListedOverRuns(cfg, w, front, id, l);
      PlayKeepsInv(cfg, w, acts);
      ListedStep(cfg, Play(cfg, w, front), acts[|acts| - 1], id, l);
    }
  }

  lemma DepositEscrows(cfg: Config, w: World, id: nat, l: Listing)
    requires Listed(cfg, w, id, l)
    ensures Escrowed(cfg, Step(cfg, w, Move(l.nft, cfg.self)), id, l)
  {
  }

  /**
   * A seller who lists an NFT and then deposits it, with nothing done to it in between, sees it leave
   * the contract only by their own cancel or by a full-price sale paid out to the royalty recipient and them.
   */
  lemma SellersAreProtected(cfg: Config, w: World, list: Action, between: seq<Action>, after: seq<Action>)
    requires Inv(w) && Outside(cfg, list) && list.List? && ListSucceeds(cfg, w, list)
    requires forall i | 0 <= i < |between| ::
               LeavesAlone(between[i], w.next, Listing(list.price, list.nft, list.caller))
    requires AllOutside(cfg, after)
    ensures var id, l := w.next, Listing(list.price, list.nft, list.caller);
            var deposited := Step(cfg, Play(cfg, Step(cfg, w, list), between), Move(l.nft, cfg.self));
            Escrowed(cfg, Play(cfg, deposited, after), id, l) || exists k: nat ::
                  LeavesAt(cfg, deposited, after, k, id, l)
  {
    hide Step, Inv, Listed, Escrowed, LeavesAt, LeavesAlone, Outside, Play, ListSucceeds;
    var id, l := w.next, Listing(list.price, list.nft, list.caller);
    ListingIsCurrent(cfg, w, list);
    StepKeepsInv(cfg, w, list);
    ListedOverRuns(cfg, Step(cfg, w, list), between, id, l);
    var ready := Play(cfg, Step(cfg, w, list), between);
    DepositEscrows(cfg, ready, id, l);
    StepKeepsInv(cfg, ready, Move(l.nft, cfg.self));
    EscrowOverRuns(cfg, Step(cfg, ready, Move(l.nft, cfg.self)), after, id, l);
  }
}
