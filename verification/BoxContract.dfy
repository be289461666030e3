/** The contract object of blindboxgame, loop by loop. */
module BoxContract {
  import opened Eosio
  import opened BoxModel

  // ---------- A loop that fails at one turn fails as a whole ----------

  lemma {:induction false} DrawAllStops(b: Booth, box: Box, hash: nat -> seq<U64>, i: nat, n: nat)
    requires i <= n && DrawAll(b, box, hash, i).Abort?
    ensures DrawAll(b, box, hash, n).Abort?
  {
    hide DrawSpec, Put;
    if i < n {
      DrawAllStops(b, box, hash, i, n - 1);
    }
  }

  lemma {:induction false} TracesStop(price: int, bought: Box, i: nat)
    requires i <= |bought| && Traces(price, bought[..i]).Abort?
    ensures Traces(price, bought).Abort?
  {
    if i < |bought| {
      assert bought[..|bought| - 1][..i] == bought[..i];
      TracesStop(price, bought[..|bought| - 1], i);
    } else {
      assert bought[..i] == bought;
    }
  }

  lemma {:induction false} PutAllStops(box: Box, assets: seq<(nat, int)>, i: nat)
    requires i <= |assets| && PutAll(box, assets[..i]).Abort?
    ensures PutAll(box, assets).Abort?
  {
    hide Put;
    if i < |assets| {
      assert assets[..|assets| - 1][..i] == assets[..i];
      PutAllStops(box, assets[..|assets| - 1], i);
    } else {
      assert assets[..i] == assets;
    }
  }

  lemma {:induction false} PickStays(box: Box, r: nat, i: nat)
    requires i < |box| && Pick(box[..i + 1], r) == i
    ensures Pick(box, r) == i
  {
    if i + 1 < |box| {
      assert box[..|box| - 1][..i + 1] == box[..i + 1];
      PickStays(box[..|box| - 1], r, i);
    } else {
      assert box[..i + 1] == box;
    }
  }

  lemma PickTurn(box: Box, r: nat, i: nat)
    requires i < |box| && Pick(box[..i], r) == i
    ensures Total(box[..i + 1]) == Total(box[..i]) + box[i].amount
    ensures Pick(box[..i + 1], r) == if r <= WrapU64(Total(box[..i + 1])) then i else i + 1
  {
    assert box[..i + 1][..i] == box[..i];
  }

  lemma NothingPicked(r: nat)
    ensures Pick([], r) == 0 && WrapU64(Total([])) == 0
  {
  }

  lemma WrapSum(a: int, b: int)
    ensures WrapU64(WrapU64(a) + b) == WrapU64(a + b)
  {
  }

  class Blindbox {
    var maxBoxes: nat
    var maxPurchase: nat
    var lastId: nat
    var booths: map<nat, Booth>
    var boxes: map<nat, Box>

    ghost function Snapshot(): Store
      reads this
    {
      Store(maxBoxes, maxPurchase, lastId, booths, boxes)
    }

    constructor ()
      ensures Snapshot() == Init()
    {
      maxBoxes, maxPurchase, lastId := 30, 10, 0;
      booths, boxes := map[], map[];
    }

    /** Rejection sampling: rehash until the word is within the limit. */
    method Draw(range: nat, words: seq<U64>) returns (r: Option<nat>)
      requires range > 0
      ensures r == Rand(words, range)
    {
      var limit := MAX_WORD - MAX_WORD % range;
      var i := 0;
      while i < |words| && words[i] > limit
        invariant 0 <= i <= |words|
        invariant Rand(words[i..], range) == Rand(words, range)
      {
        assert words[i..][1..] == words[i + 1..];
        i := i + 1;
      }
      if i == |words| {
        return Abort;
      }
      return Some(words[i] % range + 1);
    }

    /** The entry at which the running total first reaches `r`. */
    method FindEntry(box: Box, r: nat) returns (i: nat)
      ensures i == Pick(box, r)
    {
      hide Pick, Total, WrapU64;
      i := 0;
      var current := 0;
      NothingPicked(r);
      while i < |box|
        invariant i <= |box|
        invariant current == WrapU64(Total(box[..i]))
        invariant Pick(box[..i], r) == i
      {
        PickTurn(box, r, i);
        WrapSum(Total(box[..i]), box[i].amount);
        current := WrapU64(current + box[i].amount);
        if r <= current {
          PickStays(box, r, i);
          return;
        }
        i := i + 1;
      }
      assert box[..|box|] == box;
    }

    method OneNft(b: Booth, box: Box, words: seq<U64>) returns (r: Option<(Booth, Box, nat)>)
      ensures r == DrawSpec(b, box, words)
    {
      hide Pick, Rand;
      var _ :- Check(b.nftNum > 0);
      var index :- Draw(b.nftNum, words);
      var i := FindEntry(box, index);
      var _ :- Check(i < |box|);
      var nid := box[i].nid;
      var left: U64 := WrapU64(box[i].amount - 1);
      var booth := b.(nftNum := WrapU64(b.nftNum - 1));
      if left == 0 {
        booth := booth.(boxNum := WrapU64(b.boxNum - 1));
        return Some((booth, box[..i] + box[i + 1..], nid));
      }
      return Some((booth, box[i := Entry(nid, left)], nid));
    }

    method DrawMany(b: Booth, box: Box, hash: nat -> seq<U64>, count: nat) returns (r: Option<(Booth, Box, Box)>)
      ensures r == DrawAll(b, box, hash, count)
    {
      hide DrawSpec, Put;
      var booth, rest, bought: Box := b, box, [];
      for i := 0 to count
        invariant DrawAll(b, box, hash, i) == Some((booth, rest, bought))
      {
        var one := OneNft(booth, rest, hash(i));
        if one.Abort? {
          DrawAllStops(b, box, hash, i + 1, count);
          return Abort;
        }
        booth, rest := one.value.0, one.value.1;
        bought := Put(bought, one.value.2, 1);
      }
      return Some((booth, rest, bought));
    }

    method TraceDeals(price: int, bought: Box) returns (r: Option<seq<Trace>>)
      ensures r == Traces(price, bought)
    {
      var traces: seq<Trace> := [];
      for i := 0 to |bought|
        invariant Traces(price, bought[..i]) == Some(traces)
      {
        var nft := bought[i];
        assert bought[..i + 1][..i] == bought[..i];
        if !InRange(price * nft.amount) {
          TracesStop(price, bought, i + 1);
          return Abort;
        }
        traces := traces + [Trace(price * nft.amount, nft)];
      }
      assert bought[..|bought|] == bought;
      return Some(traces);
    }

    method OnTransferToken(bank: Name, quantity: Asset, id: nat, hash: nat -> seq<U64>, now: nat) returns (r: Option<Receipt>)
      modifies this
      ensures AppliedWith(r, BuySpec(old(Snapshot()), bank, quantity, id, hash, now), old(Snapshot()), Snapshot())
    {
      hide DrawAll, Traces, InRange, TruncDiv;
      var _ :- Check(id in booths);
      var booth := booths[id];
      var _ :- Check(booth.enabled && booth.openedAt <= now && now <= booth.closedAt && booth.fundContract == bank);
      var _ :- Check(booth.price.sym == quantity.sym && booth.nftNum > 0);
      var _ :- Check(booth.price.amount != 0);
      var count := TruncDiv(quantity.amount, booth.price.amount);
      var _ :- Check(0 < count <= booth.nftNum && count <= maxPurchase);
      var paid := booth.price.amount * count;
      var _ :- Check(InRange(paid) && InRange(quantity.amount - paid) && InRange(booth.fundRecd.amount + paid));
      var _ :- Check(id in boxes);
      booth := booth.(fundRecd := Asset(booth.fundRecd.amount + paid, booth.fundRecd.sym));
      var done :- DrawMany(booth, boxes[id], hash, count);
      var traces :- TraceDeals(booth.price.amount, done.2);
      booths := booths[id := done.0];
      boxes := boxes[id := done.1];
      return Some(Receipt(paid, quantity.amount - paid, done.2, traces));
    }

    method OnTransferNtoken(from: Name, bank: Name, assets: seq<(nat, int)>, id: nat) returns (r: Option<()>)
      modifies this
      ensures Applied(r, DepositSpec(old(Snapshot()), from, bank, assets, id), old(Snapshot()), Snapshot())
    {
      hide Put;
      var _ :- Check(id in booths);
      var booth := booths[id];
      var _ :- Check(booth.enabled && booth.nftContract == bank && booth.owner == from);
      var _ :- Check(assets != [] ==> id in boxes);
      var old_ := if id in boxes then boxes[id] else [];
      var box := old_;
      var newNum := 0;
      for i := 0 to |assets|
        invariant Snapshot() == old(Snapshot())
        invariant PutAll(old_, assets[..i]) == Some(box)
        invariant newNum == WrapU64(Deposited(assets[..i]))
      {
        assert assets[..i + 1][..i] == assets[..i];
        var (nid, amount) := assets[i];
        if !(0 < amount < TWO_63) {
          PutAllStops(old_, assets, i + 1);
          return Abort;
        }
        box := Put(box, nid, amount);
        newNum := WrapU64(newNum + amount);
      }
      assert assets[..|assets|] == assets;
      hide PutAll, Deposited, WrapU64;
      var boxNum: U64 := WrapU64(booth.boxNum + (|box| - |old_|));
      var _ :- Check(boxNum <= maxBoxes);
      booths := booths[id := booth.(boxNum := boxNum, nftNum := WrapU64(booth.nftNum + newNum), nftNumSum := WrapU64(booth.nftNumSum + newNum))];
      if assets != [] {
        boxes := boxes[id := box];
      }
      return Some(());
    }

    method CloseBooth(owner: Name, id: nat) returns (r: Option<Box>)
      modifies this
      ensures AppliedWith(r, CloseSpec(old(Snapshot()), owner, id), old(Snapshot()), Snapshot())
    {
      var _ :- Check(id in booths);
      var _ :- Check(booths[id].enabled && booths[id].owner == owner);
      var _ :- Check(id in boxes);
      var refund: Box := [];
      for i := 0 to |boxes[id]|
        invariant refund == boxes[id][..i]
      {
        refund := refund + [boxes[id][i]];
      }
      assert boxes[id][..|boxes[id]|] == boxes[id];
      boxes := boxes - {id};
      booths := booths - {id};
      return Some(refund);
    }
  }
}
