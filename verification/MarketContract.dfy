/** The marketplace contract as it runs, over the bytes of its key-value storage. */
module MarketContract {
  import opened Common
  import opened Words
  import opened Marketplace

  const BIG: nat := 8192

  // ---------------------------------------------------------------- bytes

  /** `n` in `k` big-endian bytes. */
  function Be(n: nat, k: nat): (b: Bytes)
    ensures |b| == k && Digits(256, b)
    decreases k
  {
    if k == 0 then [] else Be(n / 256, k - 1) + [n % 256]
  }

  function Pow256(k: nat): (r: nat)
    ensures r > 0
  {
    if k == 0 then 1 else 256 * Pow256(k - 1)
  }

  lemma {:induction false} BeReadsBack(n: nat, k: nat)
    requires n < Pow256(k)
    ensures Number(256, Be(n, k)) == n
    decreases k
  {
    if k > 0 {
      BeReadsBack(n / 256, k - 1);
      NumberPush(256, Be(n / 256, k - 1), n % 256);
    }
  }

  lemma Sizes()
    ensures Pow256(8) == TWO64 && Pow256(2) == 65536
  {
    assert Pow256(2) == 256 * Pow256(1) && Pow256(1) == 256 * Pow256(0);
    assert Pow256(4) == 256 * Pow256(3) && Pow256(3) == 256 * Pow256(2);
    assert Pow256(6) == 256 * Pow256(5) && Pow256(5) == 256 * Pow256(4);
    assert Pow256(8) == 256 * Pow256(7) && Pow256(7) == 256 * Pow256(6);
  }

  function U64(n: nat): (b: Bytes)
    ensures |b| == 8
  {
    Be(n, 8)
  }

  function OfU64(b: Bytes): nat
    requires |b| == 8 && Digits(256, b)
  {
    NumberIsNatural(256, b);
    Number(256, b)
  }

  lemma U64ReadsBack(n: nat)
    requires n < TWO64
    ensures Digits(256, U64(n)) && OfU64(U64(n)) == n
  {
    Sizes();
    BeReadsBack(n, 8);
  }

  // ---------------------------------------------------------------- keys and records

  const NEXT: Bytes := [0x6e, 0x65, 0x78, 0x74]

  function ListingKey(id: nat): Bytes {
    [0x4c] + U64(id)
  }

  function TokenKey(nft: Nft): Bytes {
    [0x54] + U64(nft.tokenId) + nft.col
  }

  /** price, token id, collection length, collection, seller. */
  function RecordOf(l: Listing): Bytes {
    U64(l.price) + (U64(l.nft.tokenId) + (Be(|l.nft.col|, 2) + (l.nft.col + l.seller)))
  }

  ghost predicate Fits(l: Listing) {
    l.price < TWO64 && l.nft.tokenId < TWO64 && |l.nft.col| <= MAX_COL && l.nft.col != [] && |l.seller| <= BIG
  }

  lemma ListingKeysDiffer(a: nat, b: nat)
    requires a < TWO64 && b < TWO64 && ListingKey(a) == ListingKey(b)
    ensures a == b
  {
    U64ReadsBack(a);
    U64ReadsBack(b);
    assert ListingKey(a)[1..] == U64(a) && ListingKey(b)[1..] == U64(b);
  }

  lemma TokenKeysDiffer(a: Nft, b: Nft)
    requires a.tokenId < TWO64 && b.tokenId < TWO64 && TokenKey(a) == TokenKey(b)
    ensures a == b
  {
    U64ReadsBack(a.tokenId);
    U64ReadsBack(b.tokenId);
    assert TokenKey(a)[1..9] == U64(a.tokenId) && TokenKey(b)[1..9] == U64(b.tokenId);
    assert TokenKey(a)[9..] == a.col && TokenKey(b)[9..] == b.col;
  }

  /** `try_load` on the stored bytes; `None` also where a slice would trap. */
  function ParseRecord(r: Bytes): Option<Listing>
    requires Digits(256, r[..if |r| < 18 then 0 else 18])
  {
    if |r| < 18 then None
    else
      var price, tokenId, cl := Number(256, r[0..8]), Number(256, r[8..16]), Number(256, r[16..18]);
      if price < 0 || tokenId < 0 || cl < 0 || 18 + cl > |r| then None
      else Some(Listing(price, Nft(r[18..18 + cl], tokenId), r[18 + cl..]))
  }

  lemma RecordReadsBack(l: Listing)
    requires Fits(l)
    ensures |RecordOf(l)| >= 18 && Digits(256, RecordOf(l)[..18]) && ParseRecord(RecordOf(l)) == Some(l)
  {
    hide Number, Be;
    var r, n := RecordOf(l), |l.nft.col|;
    Sizes();
    BeReadsBack(n, 2);
    U64ReadsBack(l.price);
    U64ReadsBack(l.nft.tokenId);
    assert r[0..8] == U64(l.price);
    assert r[8..16] == U64(l.nft.tokenId);
    assert r[16..18] == Be(n, 2);
    assert r[..18] == U64(l.price) + U64(l.nft.tokenId) + Be(n, 2);
    assert r[18..18 + n] == l.nft.col && r[18 + n..] == l.seller;
  }

  // ---------------------------------------------------------------- representation

  type Storage = map<Bytes, Bytes>

  ghost predicate HasListings(st: Storage, w: World) {
    && (forall id | 0 <= id < TWO64 :: ListingKey(id) in st <==> id in w.listings)
    && (forall id | id in w.listings ::
        id < TWO64 && Fits(w.listings[id]) && st[ListingKey(id)] == RecordOf(w.listings[id]))
  }

  ghost predicate HasIndex(st: Storage, w: World) {
    && (forall n: Nft | n.tokenId < TWO64 :: TokenKey(n) in st <==> n in w.index)
    && (forall n | n in w.index :: n.tokenId < TWO64 && w.index[n] < TWO64 && st[TokenKey(n)] == U64(w.index[n]))
  }

  ghost predicate HasNext(st: Storage, w: World) {
    w.next < TWO64 && if NEXT in st then st[NEXT] == U64(w.next) else w.next == 1
  }

  ghost predicate Represents(st: Storage, w: World) {
    HasListings(st, w) && HasIndex(st, w) && HasNext(st, w)
  }

  lemma KeyKinds(id: nat, n: Nft)
    ensures ListingKey(id) != TokenKey(n) && ListingKey(id) != NEXT && TokenKey(n) != NEXT
  {
    assert ListingKey(id)[0] == 0x4c && TokenKey(n)[0] == 0x54 && NEXT[0] == 0x6e;
  }

  lemma KeysApart()
    ensures forall id: nat :: ListingKey(id) != NEXT
    ensures forall n: Nft :: TokenKey(n) != NEXT
    ensures forall id: nat, n: Nft :: ListingKey(id) != TokenKey(n)
    ensures forall i: nat, j: nat | i < TWO64 && j < TWO64 && i != j :: ListingKey(i) != ListingKey(j)
    ensures forall m: Nft, n: Nft | m.tokenId < TWO64 && n.tokenId < TWO64 && m != n :: TokenKey(m) != TokenKey(n)
  {
    hide ListingKey, TokenKey;
    forall id: nat ensures ListingKey(id) != NEXT { KeyKinds(id, Nft([], 0)); }
    forall n: Nft ensures TokenKey(n) != NEXT { KeyKinds(0, n); }
    forall id: nat, n: Nft ensures ListingKey(id) != TokenKey(n) { KeyKinds(id, n); }
    forall i: nat, j: nat | i < TWO64 && j < TWO64 && i != j ensures ListingKey(i) != ListingKey(j) {
      if ListingKey(i) == ListingKey(j) { ListingKeysDiffer(i, j); }
    }
    forall m: Nft, n: Nft | m.tokenId < TWO64 && n.tokenId < TWO64 && m != n ensures TokenKey(m) != TokenKey(n) {
      if TokenKey(m) == TokenKey(n) { TokenKeysDiffer(m, n); }
    }
  }

  lemma WriteNext(st: Storage, w: World, next: nat)
    requires Represents(st, w) && next < TWO64
    ensures Represents(st[NEXT := U64(next)], w.(next := next))
  {
    hide U64, Fits, RecordOf, ListingKey, TokenKey;
    KeysApart();
  }

  lemma WriteListing(st: Storage, w: World, id: nat, l: Listing)
    requires Represents(st, w) && id < TWO64 && Fits(l)
    ensures Represents(st[ListingKey(id) := RecordOf(l)], w.(listings := w.listings[id := l]))
  {
    hide U64, Fits, RecordOf, ListingKey, TokenKey;
    KeysApart();
  }

  lemma WriteIndex(st: Storage, w: World, n: Nft, id: nat)
    requires Represents(st, w) && id < TWO64 && n.tokenId < TWO64
    ensures Represents(st[TokenKey(n) := U64(id)], w.(index := w.index[n := id]))
  {
    hide U64, Fits, RecordOf, ListingKey, TokenKey;
    KeysApart();
  }

  lemma EraseListing(st: Storage, w: World, id: nat)
    requires Represents(st, w) && id < TWO64
    ensures Represents(st - {ListingKey(id)}, w.(listings := w.listings - {id}))
  {
    hide U64, Fits, RecordOf, ListingKey, TokenKey;
    KeysApart();
  }

  lemma EraseIndex(st: Storage, w: World, n: Nft)
    requires Represents(st, w) && n.tokenId < TWO64
    ensures Represents(st - {TokenKey(n)}, w.(index := w.index - {n}))
  {
    hide U64, Fits, RecordOf, ListingKey, TokenKey;
    KeysApart();
  }

  // ---------------------------------------------------------------- the contract

  class Market {
    const cfg: Config
    var storage: Storage
    var owners: map<Nft, Bytes>
    var funds: int
    var payouts: seq<Payment>
    ghost var world: World

    constructor (cfg: Config, owners: map<Nft, Bytes>)
      ensures Valid() && world == World(1, map[], map[], owners, 0, [])
    {
      this.cfg, this.owners := cfg, owners;
      storage, funds, payouts := map[], 0, [];
      world := World(1, map[], map[], owners, 0, []);
    }

    ghost predicate Valid()
      reads this
    {
      Represents(storage, world) && world.owners == owners && world.funds == funds && world.payouts == payouts
    }

    method ReadU64(key: Bytes) returns (v: Option<nat>)
      requires key in storage ==> exists n: nat :: n < TWO64 && storage[key] == U64(n)
      ensures key !in storage ==> v.None?
      ensures key in storage ==> v.Some? && v.value < TWO64 && storage[key] == U64(v.value)
    {
      if key !in storage { return None; }
      ghost var n: nat :| n < TWO64 && storage[key] == U64(n);
      U64ReadsBack(n);
      return Some(OfU64(storage[key]));
    }

    /** `try_load`. */
    method TryLoad(id: nat) returns (l: Option<Listing>)
      requires Valid() && id < TWO64
      ensures l == if id in world.listings then Some(world.listings[id]) else None
    {
      hide RecordOf, ListingKey, TokenKey, U64, Fits;
      if ListingKey(id) !in storage { return None; }
      RecordReadsBack(world.listings[id]);
      l := ParseRecord(storage[ListingKey(id)]);
    }

    /** `is_current`. */
    method Current(id: nat, l: Listing) returns (yes: bool)
      requires Valid() && id in world.listings && world.listings[id] == l
      ensures yes <==> IsCurrent(world, id)
    {
      hide RecordOf, ListingKey, TokenKey, U64;
      var v := ReadU64(TokenKey(l.nft));
      if v.Some? { U64Differ(v.value, world.index[l.nft]); }
      yes := v == Some(id);
    }

    /** `delete`. */
    method DeleteListing(id: nat, l: Listing)
      requires Valid() && id in world.listings && world.listings[id] == l
      modifies this`storage, this`world
      ensures Valid() && world == Delete(old(world), id)
    {
      hide RecordOf, ListingKey, TokenKey, U64;
      EraseListing(storage, world, id);
      var yes := Current(id, l);
      storage := storage - {ListingKey(id)};
      world := world.(listings := world.listings - {id});
      if yes {
        EraseIndex(storage, world, l.nft);
        storage := storage - {TokenKey(l.nft)};
        world := world.(index := world.index - {l.nft});
      }
    }

    /** `list`. */
    method List(caller: Bytes, nft: Nft, price: nat, collectionExists: bool)
      requires Valid() && |caller| <= BIG && world.next + 1 < TWO64
      modifies this
      ensures Valid() && world == Step(cfg, old(world), Action.List(caller, nft, price, collectionExists))
    {
      hide RecordOf, ListingKey, TokenKey, U64, Represents;
      if nft.col == [] || |nft.col| > MAX_COL || price == 0 || price > I64_MAX || nft.tokenId > I64_MAX { return; }
      if !collectionExists || nft !in owners || owners[nft] == [] || caller == [] { return; }
      if !IsOwner(cfg, owners[nft], caller) { return; }
      var id := NextId();
      Record(id, Listing(price, nft, caller));
    }

    method NextId() returns (id: nat)
      requires Valid()
      ensures id == world.next && id < TWO64
    {
      hide RecordOf, ListingKey, TokenKey, U64, HasListings, HasIndex;
      var v := ReadU64(NEXT);
      if v.Some? { U64Differ(v.value, world.next); }
      id := if v.Some? then v.value else 1;
    }

    /** The writes of `list`. */
    method Record(id: nat, l: Listing)
      requires Valid() && Fits(l) && id == world.next && id + 1 < TWO64
      modifies this`storage, this`world
      ensures Valid()
      ensures world == old(world).(next := id + 1, listings := old(world).listings[id := l],
                                   index := old(world).index[l.nft := id])
    {
      hide RecordOf, ListingKey, TokenKey, U64, Represents;
      WriteNext(storage, world, id + 1);
      storage, world := storage[NEXT := U64(id + 1)], world.(next := id + 1);
      WriteListing(storage, world, id, l);
      storage, world := storage[ListingKey(id) := RecordOf(l)], world.(listings := world.listings[id := l]);
      WriteIndex(storage, world, l.nft, id);
      storage, world := storage[TokenKey(l.nft) := U64(id)], world.(index := world.index[l.nft := id]);
    }

    /** `buy`; the host's answers come as arguments, and any failure leaves everything as it was. */
    method Buy(caller: Bytes, id: nat, xrge: bool, amount: nat, bps: int, recipient: Option<Bytes>, paysOut: bool)
      requires Valid() && id < TWO64
      modifies this
      ensures Valid() && world == Step(cfg, old(world), Action.Buy(caller, id, xrge, amount, bps, recipient, paysOut))
    {
      hide Represents, Total, Royalty, PaidBack;
      var found := TryLoad(id);
      if found.None? { return; }
      var l := found.value;
      var current := Current(id, l);
      if !current || !xrge || amount != l.price || caller == [] { return; }
      if l.nft !in owners || owners[l.nft] != cfg.self || bps < 0 { return; }
      var royalty := Royalty(l.price, bps);
      if royalty > 0 && recipient.None? { return; }
      if royalty > l.price { return; }
      if !paysOut { return; }
      var receipts := (if royalty > 0 then Pay(recipient.value, royalty) else []) + Pay(l.seller, l.price - royalty);
      HandOver(caller, id, l, amount, receipts);
    }

    /** The listing goes, the NFT goes to the buyer, and the payments are made. */
    method HandOver(caller: Bytes, id: nat, l: Listing, amount: nat, receipts: seq<Payment>)
      requires Valid() && id in world.listings && world.listings[id] == l
      modifies this
      ensures Valid()
      ensures world == Delete(old(world), id).(owners := old(owners)[l.nft := caller],
                                               payouts := old(payouts) + receipts,
                                               funds := old(funds) + amount - Total(receipts) + PaidBack(cfg, receipts))
    {
      hide Represents, Total, PaidBack;
      DeleteListing(id, l);
      owners := owners[l.nft := caller];
      funds := funds + amount - Total(receipts) + PaidBack(cfg, receipts);
      payouts := payouts + receipts;
      world := world.(owners := owners, funds := funds, payouts := payouts);
      SameBook(storage, Delete(old(world), id), world);
    }

    /** `cancel`. */
    method Cancel(caller: Bytes, id: nat)
      requires Valid() && id < TWO64
      modifies this
      ensures Valid() && world == Step(cfg, old(world), Action.Cancel(caller, id))
    {
      hide Represents;
      var found := TryLoad(id);
      if found.None? || caller == [] || found.value.seller != caller { return; }
      var l := found.value;
      var current := Current(id, l);
      var returned := current && l.nft in owners && owners[l.nft] == cfg.self;
      DeleteListing(id, l);
      if returned {
        owners := owners[l.nft := l.seller];
        world := world.(owners := owners);
        SameBook(storage, Delete(old(world), id), world);
      }
    }
  }

  lemma U64Differ(a: nat, b: nat)
    requires a < TWO64 && b < TWO64
    ensures U64(a) == U64(b) ==> a == b
  {
    U64ReadsBack(a);
    U64ReadsBack(b);
  }

  /** What the storage represents is the table, the index and the counter alone. */
  lemma SameBook(st: Storage, a: World, b: World)
    requires Represents(st, a) && a.listings == b.listings && a.index == b.index && a.next == b.next
    ensures Represents(st, b)
  {
  }
}
