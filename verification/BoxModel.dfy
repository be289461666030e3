/** blindboxgame: booths that sell randomly drawn NFTs out of a box, as a transition system. */
module BoxModel {
  import opened Eosio

  type U64 = n: nat | n < TWO_64

  datatype Entry = Entry(nid: nat, amount: U64)

  /** The map of amounts by NFT, in key order. */
  type Box = seq<Entry>

  datatype Booth = Booth(
    owner: Name, nftContract: Name, fundContract: Name, price: Asset, fundRecd: Asset,
    boxNum: U64, nftNum: U64, nftNumSum: U64, enabled: bool, openedAt: nat, closedAt: nat)

  datatype Store = Store(maxBoxes: nat, maxPurchase: nat, lastId: nat, booths: map<nat, Booth>, boxes: map<nat, Box>)

  function Init(): Store { Store(30, 10, 0, map[], map[]) }

  // ---------- The box ----------

  function Total(box: Box): nat {
    if box == [] then 0 else Total(box[..|box| - 1]) + box[|box| - 1].amount
  }

  /** How many NFTs of one kind the box holds. */
  function Count(box: Box, nid: nat): nat {
    if box == [] then 0
    else Count(box[..|box| - 1], nid) + if box[|box| - 1].nid == nid then box[|box| - 1].amount else 0
  }

  predicate Has(box: Box, nid: nat) {
    exists i | 0 <= i < |box| :: box[i].nid == nid
  }

  /** `nfts[nid] += amount`, inserting in key order. */
  function Put(box: Box, nid: nat, amount: U64): Box {
    if box == [] then [Entry(nid, amount)]
    else
      var init, last := box[..|box| - 1], box[|box| - 1];
      if last.nid < nid then box + [Entry(nid, amount)]
      else if last.nid == nid then init + [Entry(nid, WrapU64(last.amount + amount))]
      else Put(init, nid, amount) + [last]
  }

  /** The first entry whose running total reaches `r`, or the end. */
  function Pick(box: Box, r: nat): nat {
    if box == [] then 0
    else
      var i := Pick(box[..|box| - 1], r);
      if i < |box| - 1 then i else if r <= WrapU64(Total(box)) then |box| - 1 else |box|
  }

  // ---------- The random draw ----------

  const MAX_WORD: nat := TWO_64 - 1

  /** The greatest word that `_rand` accepts. */
  function Limit(range: nat): nat
    requires range > 0
  {
    MAX_WORD - MAX_WORD % range
  }

  /** `_rand` over the successive hash words it computes; it is given no bound, so it may find none acceptable. */
  function Rand(words: seq<U64>, range: nat): Option<nat>
    requires range > 0
  {
    if words == [] then Abort
    else if words[0] <= Limit(range) then Some(words[0] % range + 1)
    else Rand(words[1..], range)
  }

  /** `_one_nft`: the booth and box afterwards, and the NFT drawn. */
  function DrawSpec(b: Booth, box: Box, words: seq<U64>): Option<(Booth, Box, nat)> {
    var _ :- Check(b.nftNum > 0);
    var r :- Rand(words, b.nftNum);
    var i := Pick(box, r);
    var _ :- Check(i < |box|);
    var left: U64 := WrapU64(box[i].amount - 1);
    var drawn := b.(nftNum := WrapU64(b.nftNum - 1));
    if left == 0 then Some((drawn.(boxNum := WrapU64(b.boxNum - 1)), box[..i] + box[i + 1..], box[i].nid))
    else Some((drawn, box[i := Entry(box[i].nid, left)], box[i].nid))
  }

  /** `n` draws, and what they bought. */
  function DrawAll(b: Booth, box: Box, hash: nat -> seq<U64>, n: nat): Option<(Booth, Box, Box)> {
    if n == 0 then Some((b, box, []))
    else
      var before :- DrawAll(b, box, hash, n - 1);
      var one :- DrawSpec(before.0, before.1, hash(n - 1));
      Some((one.0, one.1, Put(before.2, one.2, 1)))
  }

  // ---------- Actions ----------

  /** `createbooth` ends in the `set` that only updates rows. */
  function CreateSpec(s: Store, allowed: bool, booth: Booth, now: nat): Option<Store> {
    var _ :- Check(allowed && booth.price.amount > 0 && booth.closedAt > now);
    var id := s.lastId + 1;
    var _ :- Check(id in s.booths);
    Some(s.(lastId := id, booths := s.booths[id := booth.(fundRecd := Asset(0, booth.price.sym), boxNum := 0, nftNum := 0, nftNumSum := 0, enabled := true)]))
  }

  function EnableSpec(s: Store, owner: Name, id: nat, enabled: bool): Option<Store> {
    var _ :- Check(id in s.booths && s.booths[id].owner == owner && s.booths[id].enabled != enabled);
    Some(s.(booths := s.booths[id := s.booths[id].(enabled := enabled)]))
  }

  function SetTimeSpec(s: Store, owner: Name, id: nat, openedAt: nat, closedAt: nat, now: nat): Option<Store> {
    var _ :- Check(id in s.booths && s.booths[id].owner == owner && openedAt < closedAt && closedAt > now);
    Some(s.(booths := s.booths[id := s.booths[id].(openedAt := openedAt, closedAt := closedAt)]))
  }

  /** NFTs put into the box one asset at a time. */
  function PutAll(box: Box, assets: seq<(nat, int)>): Option<Box> {
    if assets == [] then Some(box)
    else
      var before :- PutAll(box, assets[..|assets| - 1]);
      var last := assets[|assets| - 1];
      var _ :- Check(0 < last.1 < TWO_63);
      Some(Put(before, last.0, last.1))
  }

  function Deposited(assets: seq<(nat, int)>): int {
    if assets == [] then 0 else Deposited(assets[..|assets| - 1]) + assets[|assets| - 1].1
  }

  /** `on_transfer_ntoken`. */
  function DepositSpec(s: Store, from: Name, bank: Name, assets: seq<(nat, int)>, id: nat): Option<Store> {
    var _ :- Check(id in s.booths);
    var b := s.booths[id];
    var _ :- Check(b.enabled && b.nftContract == bank && b.owner == from);
    var _ :- Check(assets != [] ==> id in s.boxes);
    var old_ := if id in s.boxes then s.boxes[id] else [];
    var box :- PutAll(old_, assets);
    var boxNum := WrapU64(b.boxNum + (|box| - |old_|));
    var _ :- Check(boxNum <= s.maxBoxes);
    var added := WrapU64(Deposited(assets));
    Some(s.(booths := s.booths[id := b.(boxNum := boxNum, nftNum := WrapU64(b.nftNum + added), nftNumSum := WrapU64(b.nftNumSum + added))],
            boxes := if assets == [] then s.boxes else s.boxes[id := box]))
  }

  datatype Trace = Trace(paid: int, sold: Entry)

  /** What a purchase sends: the price paid to the distributor, the change and the NFTs to the buyer, and one trace per kind. */
  datatype Receipt = Receipt(paid: int, change: int, bought: Box, traces: seq<Trace>)

  function Traces(price: int, bought: Box): Option<seq<Trace>> {
    if bought == [] then Some([])
    else
      var before :- Traces(price, bought[..|bought| - 1]);
      var last := bought[|bought| - 1];
      var _ :- Check(InRange(price * last.amount));
      Some(before + [Trace(price * last.amount, last)])
  }

  /** `_transfer_token`. */
  function BuySpec(s: Store, bank: Name, quantity: Asset, id: nat, hash: nat -> seq<U64>, now: nat): Option<(Store, Receipt)> {
    var _ :- Check(id in s.booths);
    var b := s.booths[id];
    var _ :- Check(b.enabled && b.openedAt <= now <= b.closedAt && b.fundContract == bank);
    var _ :- Check(b.price.sym == quantity.sym && b.nftNum > 0 && b.price.amount != 0);
    var count := TruncDiv(quantity.amount, b.price.amount);
    var _ :- Check(0 < count <= b.nftNum && count <= s.maxPurchase);
    var paid := b.price.amount * count;
    var _ :- Check(InRange(paid) && InRange(quantity.amount - paid) && InRange(b.fundRecd.amount + paid));
    var _ :- Check(id in s.boxes);
    var done :- DrawAll(b.(fundRecd := Asset(b.fundRecd.amount + paid, b.fundRecd.sym)), s.boxes[id], hash, count);
    var traces :- Traces(b.price.amount, done.2);
    Some((s.(booths := s.booths[id := done.0], boxes := s.boxes[id := done.1]),
          Receipt(paid, quantity.amount - paid, done.2, traces)))
  }

  /** `closebooth`, and the NFTs refunded to the owner. */
  function CloseSpec(s: Store, owner: Name, id: nat): Option<(Store, Box)> {
    var _ :- Check(id in s.booths && s.booths[id].enabled && s.booths[id].owner == owner && id in s.boxes);
    Some((s.(booths := s.booths - {id}, boxes := s.boxes - {id}), s.boxes[id]))
  }

  datatype Action =
    | Create(allowed: bool, booth: Booth)
    | Enable(owner: Name, id: nat, enabled: bool)
    | SetTime(owner: Name, id: nat, openedAt: nat, closedAt: nat)
    | Deposit(owner: Name, bank: Name, assets: seq<(nat, int)>, id: nat)
    | Buy(bank: Name, quantity: Asset, id: nat, hash: nat -> seq<U64>)
    | Close(owner: Name, id: nat)

  function Step(s: Store, act: Action, now: nat): Option<Store> {
    match act
    case Create(allowed, booth) => CreateSpec(s, allowed, booth, now)
    case Enable(owner, id, enabled) => EnableSpec(s, owner, id, enabled)
    case SetTime(owner, id, openedAt, closedAt) => SetTimeSpec(s, owner, id, openedAt, closedAt, now)
    case Deposit(owner, bank, assets, id) => DepositSpec(s, owner, bank, assets, id)
    case Buy(bank, quantity, id, hash) => var r :- BuySpec(s, bank, quantity, id, hash, now); Some(r.0)
    case Close(owner, id) => var r :- CloseSpec(s, owner, id); Some(r.0)
  }

  ghost function Run(s: Store, trace: seq<(Action, nat)>): Store {
    if trace == [] then s
    else
      var before := Run(s, trace[..|trace| - 1]);
      var last := trace[|trace| - 1];
      After(Step(before, last.0, last.1), before)
  }
}
