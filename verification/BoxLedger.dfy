/** What every run of blindboxgame keeps: counters that agree with the box, money that agrees with what was sold, and purchases
    that deliver exactly what was paid for. */
module BoxLedger {
  import opened Eosio
  import opened BoxModel
  import BoxDraw

  // ---------- Boxes ----------

  /** Keys ascend and no entry is empty. */
  ghost predicate BoxOk(box: Box) {
    && (forall i, j | 0 <= i < j < |box| :: box[i].nid < box[j].nid)
    && (forall i | 0 <= i < |box| :: box[i].amount > 0)
  }

  ghost predicate Below(box: Box, nid: nat) {
    forall i | 0 <= i < |box| :: box[i].nid < nid
  }

  /** What a box is in terms of its last entry and the rest. */
  lemma LastEntry(box: Box)
    requires box != [] && BoxOk(box)
    ensures var init, last := box[..|box| - 1], box[|box| - 1];
            && BoxOk(init) && Below(init, last.nid) && last.amount > 0
            && Total(box) == Total(init) + last.amount
            && (forall m: nat :: Count(box, m) == Count(init, m) + if m == last.nid then last.amount else 0)
            && (forall k: nat :: Below(box, k) ==> Below(init, k) && last.nid < k)
            && (forall k: nat :: Has(box, k) <==> k == last.nid || Has(init, k))
            && (forall k: nat :: last.nid <= k ==> !Has(init, k))
  {
    var init, last := box[..|box| - 1], box[|box| - 1];
    forall k: nat | Has(box, k)
      ensures k == last.nid || Has(init, k)
    {
      var i :| 0 <= i < |box| && box[i].nid == k;
      assert i < |init| ==> init[i].nid == k;
    }
    assert forall i | 0 <= i < |init| :: init[i] == box[i];
  }

  lemma AppendEntry(box: Box, e: Entry)
    requires BoxOk(box) && Below(box, e.nid) && e.amount > 0
    ensures BoxOk(box + [e]) && Total(box + [e]) == Total(box) + e.amount
    ensures forall m: nat :: Count(box + [e], m) == Count(box, m) + if m == e.nid then e.amount else 0
    ensures forall k: nat :: Below(box, k) && e.nid < k ==> Below(box + [e], k)
  {
    assert (box + [e])[..|box|] == box;
  }

  lemma EmptyBox()
    ensures BoxOk([]) && Total([]) == 0
    ensures forall m: nat :: Count([], m) == 0 && Below([], m) && !Has([], m)
  {
  }

  /** `Put` adds to one kind exactly, keeps the order, and grows the box only for a kind it did not have. */
  lemma {:induction false} PutFacts(box: Box, nid: nat, n: U64)
    requires BoxOk(box) && n > 0 && Total(box) + n < TWO_64
    ensures var p := Put(box, nid, n);
            && BoxOk(p) && Total(p) == Total(box) + n
            && |p| == |box| + (if Has(box, nid) then 0 else 1)
            && (forall m: nat :: Count(p, m) == Count(box, m) + if m == nid then n else 0)
            && (forall k: nat :: Below(box, k) && nid < k ==> Below(p, k))
  {
    hide BoxOk, Total, Count, Below, Has;
    EmptyBox();
    if box == [] {
      AppendEntry([], Entry(nid, n));
      assert [] + [Entry(nid, n)] == [Entry(nid, n)];
    } else {
      var init, last := box[..|box| - 1], box[|box| - 1];
      LastEntry(box);
      if last.nid < nid {
        BelowAbove(box, nid);
        AppendEntry(box, Entry(nid, n));
      } else if last.nid == nid {
        AppendEntry(init, Entry(nid, last.amount + n));
      } else {
        PutFacts(init, nid, n);
        AppendEntry(Put(init, nid, n), last);
      }
    }
  }

  lemma BelowAbove(box: Box, nid: nat)
    requires box != [] && BoxOk(box) && box[|box| - 1].nid < nid
    ensures Below(box, nid) && !Has(box, nid)
  {
  }

  lemma {:induction false} Join(a: Box, b: Box)
    ensures Total(a + b) == Total(a) + Total(b)
    ensures forall m: nat :: Count(a + b, m) == Count(a, m) + Count(b, m)
  {
    if b == [] {
      assert a + b == a;
    } else {
      Join(a, b[..|b| - 1]);
      assert (a + b)[..|a + b| - 1] == a + b[..|b| - 1];
    }
  }

  lemma Single(e: Entry)
    ensures Total([e]) == e.amount
    ensures forall m: nat :: Count([e], m) == if m == e.nid then e.amount else 0
  {
    assert [e][..0] == [];
  }

  lemma TakeKeepsOrder(box: Box, i: nat, p: Box)
    requires BoxOk(box) && i < |box|
    requires p == if box[i].amount == 1 then box[..i] + box[i + 1..] else box[i := Entry(box[i].nid, box[i].amount - 1)]
    ensures BoxOk(p) && box[i].amount > 0
  {
  }

  lemma Around(front: Box, e: Entry, back: Box)
    ensures Total(front + [e] + back) == Total(front) + e.amount + Total(back)
    ensures forall m: nat :: Count(front + [e] + back, m) == Count(front, m) + Count(back, m) + if m == e.nid then e.amount else 0
  {
    hide Total, Count;
    Join(front, [e]);
    Join(front + [e], back);
    Single(e);
  }

  /** Taking one NFT out of entry `i`. */
  lemma TakeFacts(box: Box, i: nat, p: Box)
    requires BoxOk(box) && i < |box|
    requires p == if box[i].amount == 1 then box[..i] + box[i + 1..] else box[i := Entry(box[i].nid, box[i].amount - 1)]
    ensures BoxOk(p) && Total(p) == Total(box) - 1
    ensures |p| == |box| - if box[i].amount == 1 then 1 else 0
    ensures forall m: nat :: Count(p, m) == Count(box, m) - if m == box[i].nid then 1 else 0
  {
    TakeKeepsOrder(box, i, p);
    hide BoxOk, Total, Count;
    var front, back, e := box[..i], box[i + 1..], box[i];
    var f := if e.amount == 1 then e else Entry(e.nid, e.amount - 1);
    Cut(box, i, f);
    Around(front, e, back);
    Around(front, f, back);
    Join(front, back);
  }

  lemma Cut(box: Box, i: nat, f: Entry)
    requires i < |box|
    ensures box == box[..i] + [box[i]] + box[i + 1..]
    ensures box[i := f] == box[..i] + [f] + box[i + 1..]
  {
  }

  // ---------- Draws ----------

  /** The cached counters agree with the box. */
  ghost predicate Counted(b: Booth, box: Box) {
    BoxOk(box) && Total(box) == b.nftNum && |box| == b.boxNum
  }

  /** A draw takes one NFT out of the box, of the kind it reports, and keeps the counters; its loop always stops on an entry. */
  lemma DrawFacts(b: Booth, box: Box, words: seq<U64>)
    requires Counted(b, box)
    ensures DrawSpec(b, box, words).Some? <==> b.nftNum > 0 && Rand(words, b.nftNum).Some?
    ensures DrawSpec(b, box, words).Some? ==>
              var d := DrawSpec(b, box, words).value;
              && Counted(d.0, d.1)
              && d.0 == b.(nftNum := b.nftNum - 1, boxNum := d.0.boxNum)
              && (forall m: nat :: Count(d.1, m) == Count(box, m) - if m == d.2 then 1 else 0)
  {
    hide BoxOk, Total, Count, Rand, Pick, WrapU64;
    if b.nftNum > 0 && Rand(words, b.nftNum).Some? {
      BoxDraw.RandAnswers(words, b.nftNum);
      var r := Rand(words, b.nftNum).value;
      BoxDraw.PickStops(box, r);
      var i := Pick(box, r);
      var d := DrawSpec(b, box, words).value;
      EntryPositive(box, i);
      Unwrapped(box[i].amount - 1);
      Unwrapped(b.nftNum - 1);
      Unwrapped(b.boxNum - 1);
      TakeFacts(box, i, d.1);
      EmptyHasNone(box);
    }
  }

  lemma EntryPositive(box: Box, i: nat)
    requires BoxOk(box) && i < |box|
    ensures box[i].amount > 0
  {
  }

  /** `n` draws move exactly `n` NFTs, kind by kind, from the box to the buyer. */
  lemma {:induction false} DrawAllFacts(b: Booth, box: Box, hash: nat -> seq<U64>, n: nat)
    requires Counted(b, box) && DrawAll(b, box, hash, n).Some?
    ensures var d := DrawAll(b, box, hash, n).value;
            && n <= b.nftNum
            && Counted(d.0, d.1) && BoxOk(d.2) && Total(d.2) == n
            && d.0 == b.(nftNum := b.nftNum - n, boxNum := d.0.boxNum)
            && (forall m: nat :: Count(d.1, m) + Count(d.2, m) == Count(box, m))
  {
    if n > 0 {
      hide Put, DrawSpec;
      DrawAllFacts(b, box, hash, n - 1);
      var before := DrawAll(b, box, hash, n - 1).value;
      DrawFacts(before.0, before.1, hash(n - 1));
      var one := DrawSpec(before.0, before.1, hash(n - 1)).value;
      hide Counted, BoxOk, Total, Count;
      BoughtOneMore(before.2, one.2, b.nftNum);
    }
  }

  lemma BoughtOneMore(bought: Box, nid: nat, left: U64)
    requires BoxOk(bought) && Total(bought) < left
    ensures BoxOk(Put(bought, nid, 1)) && Total(Put(bought, nid, 1)) == Total(bought) + 1
    ensures forall m: nat :: Count(Put(bought, nid, 1), m) == Count(bought, m) + if m == nid then 1 else 0
  {
    PutFacts(bought, nid, 1);
  }

  /** Each of `n` draws from `left` NFTs accepts one of its hash words. */
  ghost predicate Answered(hash: nat -> seq<U64>, left: nat, n: nat)
    requires n <= left
  {
    forall i: nat | i < n :: Rand(hash(i), left - i).Some?
  }

  lemma AnsweredStep(hash: nat -> seq<U64>, left: nat, n: nat)
    requires 0 < n <= left
    ensures Answered(hash, left, n) <==> Answered(hash, left, n - 1) && Rand(hash(n - 1), left - (n - 1)).Some?
  {
  }

  /** Draws fail only if a draw rejects all its hash words. */
  lemma {:induction false} DrawsGoThrough(b: Booth, box: Box, hash: nat -> seq<U64>, n: nat)
    requires Counted(b, box) && n <= b.nftNum
    ensures DrawAll(b, box, hash, n).Some? <==> Answered(hash, b.nftNum, n)
  {
    hide Put, DrawSpec, Rand, Answered, Counted;
    if n > 0 {
      AnsweredStep(hash, b.nftNum, n);
      DrawsGoThrough(b, box, hash, n - 1);
      if DrawAll(b, box, hash, n - 1).Some? {
        DrawAllFacts(b, box, hash, n - 1);
        var before := DrawAll(b, box, hash, n - 1).value;
        DrawFacts(before.0, before.1, hash(n - 1));
      }
    } else {
      NothingToAnswer(hash, b.nftNum);
    }
  }

  lemma NothingToAnswer(hash: nat -> seq<U64>, left: nat)
    ensures Answered(hash, left, 0)
  {
  }

  // ---------- Booths ----------

  /** The counters agree with the box, and the money received is the price of everything ever put in and sold. */
  ghost predicate Consistent(b: Booth, box: Box) {
    && Counted(b, box)
    && b.price.amount > 0
    && b.nftNum <= b.nftNumSum
    && b.fundRecd.amount == b.price.amount * (b.nftNumSum - b.nftNum)
  }

  ghost function BoxOf(s: Store, id: nat): Box {
    if id in s.boxes then s.boxes[id] else []
  }

  ghost predicate AllConsistent(s: Store) {
    && (forall id | id in s.booths :: Consistent(s.booths[id], BoxOf(s, id)))
    && (forall id | id in s.boxes :: id in s.booths)
    && (forall id | id in s.booths :: id <= s.lastId)
  }

  lemma {:induction false} PutAllFacts(box: Box, assets: seq<(nat, int)>)
    requires BoxOk(box) && PutAll(box, assets).Some? && Total(box) + Deposited(assets) < TWO_64
    ensures Deposited(assets) >= 0
    ensures BoxOk(PutAll(box, assets).value) && Total(PutAll(box, assets).value) == Total(box) + Deposited(assets)
    ensures |PutAll(box, assets).value| >= |box|
    ensures forall m: nat :: Count(PutAll(box, assets).value, m) == Count(box, m) + SentOf(assets, m)
  {
    hide BoxOk, Total, Count;
    if assets != [] {
      DepositedPositive(box, assets);
      var init, last := assets[..|assets| - 1], assets[|assets| - 1];
      PutAllFacts(box, init);
      PutFacts(PutAll(box, init).value, last.0, last.1);
    }
  }

  /** How many NFTs of one kind a list of assets carries. */
  ghost function SentOf(assets: seq<(nat, int)>, m: nat): int {
    if assets == [] then 0
    else SentOf(assets[..|assets| - 1], m) + if assets[|assets| - 1].0 == m then assets[|assets| - 1].1 else 0
  }

  lemma {:induction false} DepositedPositive(box: Box, assets: seq<(nat, int)>)
    requires PutAll(box, assets).Some?
    ensures Deposited(assets) >= 0
    ensures assets != [] ==> 0 <= Deposited(assets[..|assets| - 1]) < Deposited(assets)
  {
    if assets != [] {
      DepositedPositive(box, assets[..|assets| - 1]);
    }
  }

  /** The box holds everything that was in it and everything that was sent. */
  ghost predicate HoldsAll(s: Store, t: Store, id: nat, assets: seq<(nat, int)>) {
    Total(BoxOf(t, id)) == Total(BoxOf(s, id)) + Deposited(assets)
  }

  lemma CountableStaysConsistent(s: Store, from: Name, bank: Name, assets: seq<(nat, int)>, id: nat)
    requires AllConsistent(s) && DepositSpec(s, from, bank, assets, id).Some?
    requires s.booths[id].nftNumSum + Deposited(assets) < TWO_64
    ensures AllConsistent(DepositSpec(s, from, bank, assets, id).value)
  {
    hide Consistent;
    var t := DepositSpec(s, from, bank, assets, id).value;
    var b, box := s.booths[id], BoxOf(s, id);
    assert Consistent(b, box);
    BoothAfterDeposit(b, box, assets);
    hide PutAll, Deposited;
    assert BoxOf(t, id) == PutAll(box, assets).value;
    assert forall i | i in s.booths && i != id :: BoxOf(t, i) == BoxOf(s, i);
  }

  lemma BoxAfterDeposit(s: Store, from: Name, bank: Name, assets: seq<(nat, int)>, id: nat)
    requires DepositSpec(s, from, bank, assets, id).Some?
    ensures id in s.booths && PutAll(BoxOf(s, id), assets) == Some(BoxOf(DepositSpec(s, from, bank, assets, id).value, id))
  {
    hide PutAll, Deposited;
    NothingPut(BoxOf(s, id));
  }

  lemma CountableDeposit(s: Store, from: Name, bank: Name, assets: seq<(nat, int)>, id: nat)
    requires AllConsistent(s) && DepositSpec(s, from, bank, assets, id).Some?
    requires s.booths[id].nftNumSum + Deposited(assets) < TWO_64
    ensures var t := DepositSpec(s, from, bank, assets, id).value;
            && AllConsistent(t) && HoldsAll(s, t, id, assets)
            && (forall m: nat :: Count(BoxOf(t, id), m) == Count(BoxOf(s, id), m) + SentOf(assets, m))
  {
    CountableStaysConsistent(s, from, bank, assets, id);
    BoxAfterDeposit(s, from, bank, assets, id);
    ConsistentBox(s.booths[id], BoxOf(s, id));
    PutAllFacts(BoxOf(s, id), assets);
  }

  /** When a booth is consistent after a deposit and its box holds everything sent, no counter has wrapped. */
  lemma HonestDeposit(s: Store, from: Name, bank: Name, assets: seq<(nat, int)>, id: nat)
    requires AllConsistent(s) && DepositSpec(s, from, bank, assets, id).Some?
    requires var t := DepositSpec(s, from, bank, assets, id).value; AllConsistent(t) && HoldsAll(s, t, id, assets)
    ensures s.booths[id].nftNumSum + Deposited(assets) < TWO_64
  {
    hide BoxOk, Total, PutAll, Deposited, WrapU64;
    var t := DepositSpec(s, from, bank, assets, id).value;
    var b, c := s.booths[id], t.booths[id];
    assert Consistent(b, BoxOf(s, id)) && Consistent(c, BoxOf(t, id));
    assert c.price == b.price && c.fundRecd == b.fundRecd;
    SameFactor(b.price.amount, c.nftNumSum - c.nftNum, b.nftNumSum - b.nftNum);
  }

  lemma StrictlyMore(price: int, x: int, y: int)
    requires price > 0 && x < y
    ensures price * x < price * y
  {
    Product(price, y - x - 1);
    DistributeOver(price, x, y - x - 1);
    DistributeOver(price, y - 1, 1);
  }

  lemma SameFactor(price: int, x: int, y: int)
    requires price > 0 && price * x == price * y
    ensures x == y
  {
    if x < y {
      StrictlyMore(price, x, y);
    } else if y < x {
      StrictlyMore(price, y, x);
    }
  }

  /** After a deposit the booth is consistent and its box holds everything sent if and only if the NFTs ever deposited can be counted
      in 64 bits. */
  lemma DepositKeepsConsistentIff(s: Store, from: Name, bank: Name, assets: seq<(nat, int)>, id: nat)
    requires AllConsistent(s) && DepositSpec(s, from, bank, assets, id).Some?
    ensures var t := DepositSpec(s, from, bank, assets, id).value;
            && (AllConsistent(t) && HoldsAll(s, t, id, assets) <==> s.booths[id].nftNumSum + Deposited(assets) < TWO_64)
            && (s.booths[id].nftNumSum + Deposited(assets) < TWO_64 ==>
                  forall m: nat :: Count(BoxOf(t, id), m) == Count(BoxOf(s, id), m) + SentOf(assets, m))
  {
    hide AllConsistent, HoldsAll, Count, SentOf, Deposited, DepositSpec, BoxOf;
    BoothOfDeposit(s, from, bank, assets, id);
    var t := DepositSpec(s, from, bank, assets, id).value;
    if s.booths[id].nftNumSum + Deposited(assets) < TWO_64 {
      CountableDeposit(s, from, bank, assets, id);
    } else if AllConsistent(t) && HoldsAll(s, t, id, assets) {
      HonestDeposit(s, from, bank, assets, id);
    }
  }

  lemma BoothOfDeposit(s: Store, from: Name, bank: Name, assets: seq<(nat, int)>, id: nat)
    requires DepositSpec(s, from, bank, assets, id).Some?
    ensures id in s.booths
  {
  }

  /** The most that three transfers of different NFTs can carry. */
  const HUGE: seq<(nat, int)> := [(1, TWO_63 - 1), (2, TWO_63 - 1), (3, TWO_63 - 1)]

  lemma HugeFills()
    ensures Deposited(HUGE) == 3 * (TWO_63 - 1)
    ensures PutAll([], HUGE) == Some([Entry(1, TWO_63 - 1), Entry(2, TWO_63 - 1), Entry(3, TWO_63 - 1)])
    ensures Total([Entry(1, TWO_63 - 1), Entry(2, TWO_63 - 1), Entry(3, TWO_63 - 1)]) == 3 * (TWO_63 - 1)
  {
    var n: U64 := TWO_63 - 1;
    var a, b, c := Entry(1, n), Entry(2, n), Entry(3, n);
    assert HUGE[..2] == [(1, n), (2, n)] && HUGE[..2][..1] == [(1, n)] && HUGE[..2][..1][..0] == [];
    assert Deposited([]) == 0 && PutAll([], []) == Some([]);
    assert PutAll([], HUGE[..2][..1]) == Some([a]) && Deposited(HUGE[..2][..1]) == n;
    assert [a] + [b] == [a, b] && [a, b] + [c] == [a, b, c];
    assert PutAll([], HUGE[..2]) == Some([a, b]) && Deposited(HUGE[..2]) == 2 * n;
    assert [a, b, c][..2] == [a, b] && [a, b][..1] == [a] && [a][..0] == [];
    assert Total([]) == 0 && Total([a]) == n && Total([a, b]) == 2 * n;
  }

  /** An empty open booth takes such a deposit: its counter wraps to 2^63 - 3 while the box holds 3 * (2^63 - 1). */
  lemma HugeDepositWraps(s: Store, id: nat)
    requires AllConsistent(s) && id in s.booths && id in s.boxes && s.boxes[id] == [] && s.booths[id].enabled && s.maxBoxes >= 3
    ensures var b := s.booths[id]; var r := DepositSpec(s, b.owner, b.nftContract, HUGE, id);
            && r.Some?
            && r.value.booths[id].nftNum == TWO_63 - 3
            && Total(BoxOf(r.value, id)) == 3 * (TWO_63 - 1)
            && !AllConsistent(r.value)
  {
    hide AllConsistent, BoxOf, DepositSpec, Total, PutAll, Deposited, WrapU64;
    HugeFills();
    EmptyBooth(s, id);
    HugeWraps();
    DepositIs(s, id, HUGE, [Entry(1, TWO_63 - 1), Entry(2, TWO_63 - 1), Entry(3, TWO_63 - 1)]);
    var b := s.booths[id];
    MustCount(DepositSpec(s, b.owner, b.nftContract, HUGE, id).value, id);
  }

  lemma HugeWraps()
    ensures WrapU64(WrapU64(3 * (TWO_63 - 1))) == TWO_63 - 3
  {
  }

  lemma MustCount(s: Store, id: nat)
    requires id in s.booths
    ensures AllConsistent(s) ==> s.booths[id].nftNum == Total(BoxOf(s, id))
  {
  }

  lemma EmptyBooth(s: Store, id: nat)
    requires AllConsistent(s) && id in s.booths && id in s.boxes && s.boxes[id] == []
    ensures s.booths[id].nftNum == 0 && s.booths[id].boxNum == 0
  {
    assert Consistent(s.booths[id], BoxOf(s, id));
  }

  /** What the owner's deposit into an empty booth commits. */
  lemma DepositIs(s: Store, id: nat, assets: seq<(nat, int)>, filled: Box)
    requires id in s.booths && id in s.boxes && s.boxes[id] == [] && s.booths[id].enabled && assets != []
    requires s.booths[id].nftNum == 0 && s.booths[id].boxNum == 0 && PutAll([], assets) == Some(filled) && |filled| == 3 <= s.maxBoxes
    ensures var b := s.booths[id]; var added := WrapU64(Deposited(assets)); var r := DepositSpec(s, b.owner, b.nftContract, assets, id);
            && r.Some? && id in r.value.booths && BoxOf(r.value, id) == filled
            && r.value.booths[id] == b.(boxNum := 3, nftNum := WrapU64(added), nftNumSum := WrapU64(b.nftNumSum + added))
  {
    hide PutAll, Deposited, WrapU64;
    Unwrapped(3);
  }

  lemma BoothAfterDeposit(b: Booth, box: Box, assets: seq<(nat, int)>)
    requires Consistent(b, box) && PutAll(box, assets).Some?
    requires b.nftNumSum + Deposited(assets) < TWO_64
    ensures var filled, added := PutAll(box, assets).value, WrapU64(Deposited(assets));
            && (assets == [] ==> filled == box)
            && Consistent(b.(boxNum := WrapU64(b.boxNum + (|filled| - |box|)), nftNum := WrapU64(b.nftNum + added), nftNumSum := WrapU64(b.nftNumSum + added)), filled)
  {
    hide *;
    ConsistentBox(b, box);
    var filled := PutAll(box, assets).value;
    var d := Deposited(assets);
    DepositedPositive(box, assets);
    PutAllFacts(box, assets);
    BoxesFit(filled);
    NothingPut(box);
    Refilled(b, box, filled, d);
    Unwrapped(d);
    Unwrapped(b.nftNum + d);
    Unwrapped(b.nftNumSum + d);
    Unwrapped(|filled|);
  }

  lemma ConsistentBox(b: Booth, box: Box)
    requires Consistent(b, box)
    ensures BoxOk(box) && Total(box) == b.nftNum && |box| == b.boxNum && b.nftNum <= b.nftNumSum
  {
  }

  lemma Refilled(b: Booth, box: Box, filled: Box, d: nat)
    requires Consistent(b, box) && BoxOk(filled) && Total(filled) == Total(box) + d && |filled| < TWO_64
    requires b.nftNumSum + d < TWO_64
    ensures Consistent(b.(boxNum := |filled|, nftNum := b.nftNum + d, nftNumSum := b.nftNumSum + d), filled)
  {
    hide BoxOk, Total;
    assert (b.nftNumSum + d) - (b.nftNum + d) == b.nftNumSum - b.nftNum;
  }

  lemma NothingPut(box: Box)
    ensures PutAll(box, []) == Some(box)
  {
  }

  lemma Unwrapped(x: int)
    ensures 0 <= x < TWO_64 ==> WrapU64(x) == x
  {
  }

  lemma {:induction false} BoxesFit(box: Box)
    requires BoxOk(box)
    ensures |box| <= Total(box)
  {
    if box != [] {
      BoxesFit(box[..|box| - 1]);
    }
  }

  /** A purchase of a consistent booth pays exactly for what it delivers: payment = paid + change with change below one price,
      `count` NFTs leave the box for the buyer, and the traces' payments add up to the paid amount. */
  lemma BuyFacts(s: Store, bank: Name, quantity: Asset, id: nat, hash: nat -> seq<U64>, now: nat)
    requires AllConsistent(s)
    ensures BuySpec(s, bank, quantity, id, hash, now).Some? ==>
              var r := BuySpec(s, bank, quantity, id, hash, now).value;
              var price := s.booths[id].price.amount;
              && AllConsistent(r.0)
              && quantity.amount == r.1.paid + r.1.change && 0 <= r.1.change < price
              && r.1.paid == price * Total(r.1.bought)
              && r.0.booths[id].nftNum == s.booths[id].nftNum - Total(r.1.bought)
              && (forall m: nat :: Count(r.0.boxes[id], m) + Count(r.1.bought, m) == Count(s.boxes[id], m))
              && BoxOk(r.1.bought)
              && TracesPaid(r.1.traces) == r.1.paid
  {
    hide BoxOk, Total, Count, DrawAll, Traces, TracesPaid, InRange;
    if BuySpec(s, bank, quantity, id, hash, now).Some? {
      var r := BuySpec(s, bank, quantity, id, hash, now).value;
      var b, box := s.booths[id], BoxOf(s, id);
      var price := b.price.amount;
      var count := quantity.amount / price;
      CountIs(quantity.amount, price);
      assert count == TruncDiv(quantity.amount, price);
      var funded := b.(fundRecd := Asset(b.fundRecd.amount + price * count, b.fundRecd.sym));
      var done := DrawAll(funded, box, hash, count).value;
      DrawAllFacts(funded, box, hash, count);
      TracesAddUp(price, done.2);
      var after := r.0.booths[id];
      assert after.nftNumSum - after.nftNum == b.nftNumSum - b.nftNum + count;
      DistributeOver(price, b.nftNumSum - b.nftNum, count);
      assert BoxOf(r.0, id) == done.1;
    }
  }

  lemma DistributeOver(a: int, b: int, c: int)
    ensures a * (b + c) == a * b + a * c
  {
  }

  lemma CountIs(payment: int, price: int)
    requires price > 0 && TruncDiv(payment, price) > 0
    ensures payment > 0 && payment / price == TruncDiv(payment, price)
    ensures 0 <= payment - price * (payment / price) < price
  {
  }

  ghost function TracesPaid(traces: seq<Trace>): int {
    if traces == [] then 0 else TracesPaid(traces[..|traces| - 1]) + traces[|traces| - 1].paid
  }

  lemma {:induction false} TracesAddUp(price: int, bought: Box)
    requires Traces(price, bought).Some?
    ensures TracesPaid(Traces(price, bought).value) == price * Total(bought)
  {
    if bought != [] {
      var init, last := bought[..|bought| - 1], bought[|bought| - 1];
      TracesAddUp(price, init);
      var rest := Traces(price, init).value;
      assert (rest + [Trace(price * last.amount, last)])[..|rest|] == rest;
      DistributeOver(price, Total(init), last.amount);
    }
  }

  lemma {:induction false} TracesFit(price: int, bought: Box)
    requires price > 0 && price * Total(bought) <= MAX_AMOUNT
    ensures Traces(price, bought).Some?
  {
    if bought != [] {
      var init, last := bought[..|bought| - 1], bought[|bought| - 1];
      DistributeOver(price, Total(init), last.amount);
      assert price * Total(init) >= 0 && price * last.amount >= 0;
      TracesFit(price, init);
    }
  }

  /** When a payment is taken: an open booth that sells for this token from this bank, at least one price, no more NFTs than are
      left or allowed at once, books that stay in range, and hash words that some draw does not have to reject all of. */
  lemma BuyCommitsIff(s: Store, bank: Name, quantity: Asset, id: nat, hash: nat -> seq<U64>, now: nat)
    requires AllConsistent(s) && id in s.booths && InRange(quantity.amount)
    ensures var b := s.booths[id];
            BuySpec(s, bank, quantity, id, hash, now).Some? <==>
              && b.enabled && b.openedAt <= now <= b.closedAt && b.fundContract == bank && b.price.sym == quantity.sym
              && b.price.amount <= quantity.amount
              && quantity.amount / b.price.amount <= b.nftNum && quantity.amount / b.price.amount <= s.maxPurchase
              && b.fundRecd.amount + b.price.amount * (quantity.amount / b.price.amount) <= MAX_AMOUNT
              && Answered(hash, b.nftNum, quantity.amount / b.price.amount)
  {
    hide BoxOk, Total, DrawAll, Traces, Answered;
    var b, box := s.booths[id], BoxOf(s, id);
    var price := b.price.amount;
    var count := quantity.amount / price;
    OnePriceIff(quantity.amount, price);
    assert b.fundRecd.amount >= 0 by {
      Product(price, b.nftNumSum - b.nftNum);
    }
    if price <= quantity.amount && count <= b.nftNum {
      EmptyHasNone(box);
      var funded := b.(fundRecd := Asset(b.fundRecd.amount + price * count, b.fundRecd.sym));
      DrawsGoThrough(funded, box, hash, count);
      if DrawAll(funded, box, hash, count).Some? {
        DrawAllFacts(funded, box, hash, count);
        if price * count <= MAX_AMOUNT {
          TracesFit(price, DrawAll(funded, box, hash, count).value.2);
        }
      }
    }
  }

  lemma EmptyHasNone(box: Box)
    ensures Total(box) > 0 ==> box != []
  {
  }

  lemma Product(a: int, b: int)
    requires a >= 0 && b >= 0
    ensures a * b >= 0
  {
  }

  lemma OnePriceIff(payment: int, price: int)
    requires price > 0
    ensures price <= payment <==> TruncDiv(payment, price) > 0
    ensures price <= payment ==> TruncDiv(payment, price) == payment / price && 0 < price * (payment / price) <= payment
  {
    if payment >= 0 {
      if payment / price > 0 {
        CountIs(payment, price);
        Product(price, payment / price - 1);
      }
    }
  }

  /** Closing refunds the whole box to the owner: as many NFTs as were left, and none of an amount of zero. */
  lemma CloseRefundsAll(s: Store, owner: Name, id: nat)
    requires AllConsistent(s) && CloseSpec(s, owner, id).Some?
    ensures AllConsistent(CloseSpec(s, owner, id).value.0)
    ensures var refund := CloseSpec(s, owner, id).value.1;
            Total(refund) == s.booths[id].nftNum && forall i | 0 <= i < |refund| :: refund[i].amount > 0
  {
  }

  // ---------- Runs ----------

  /** A deposit that commits can be counted in 64 bits. */
  ghost predicate Fits(s: Store, act: Action, now: nat) {
    act.Deposit? && Step(s, act, now).Some? && act.id in s.booths ==> s.booths[act.id].nftNumSum + Deposited(act.assets) < TWO_64
  }

  /** A deposit that commits puts everything into the box. */
  ghost predicate Keeps(s: Store, act: Action, now: nat) {
    act.Deposit? && Step(s, act, now).Some? ==> HoldsAll(s, Step(s, act, now).value, act.id, act.assets)
  }

  lemma OtherStepKeepsConsistent(s: Store, act: Action, now: nat)
    requires AllConsistent(s) && !act.Deposit?
    ensures AllConsistent(After(Step(s, act, now), s))
  {
    hide Consistent, DrawAll, PutAll, Traces;
    if Step(s, act, now).Some? {
      match act
      case Create(_, _) =>
      case Enable(_, id, _) => OnlyBooths(s, Step(s, act, now).value, id);
      case SetTime(_, id, _, _) => OnlyBooths(s, Step(s, act, now).value, id);
      case Buy(bank, quantity, id, hash) => BuyFacts(s, bank, quantity, id, hash, now);
      case Close(owner, id) => CloseRefundsAll(s, owner, id);
    }
  }

  /** A step keeps all booths consistent and loses no deposit if and only if a deposit can be counted. */
  lemma StepKeepsConsistentIff(s: Store, act: Action, now: nat)
    requires AllConsistent(s)
    ensures AllConsistent(After(Step(s, act, now), s)) && Keeps(s, act, now) <==> Fits(s, act, now)
  {
    hide AllConsistent, HoldsAll, DepositSpec, Deposited;
    if !act.Deposit? {
      OtherStepKeepsConsistent(s, act, now);
    } else if Step(s, act, now).Some? {
      BoothOfDeposit(s, act.owner, act.bank, act.assets, act.id);
      DepositKeepsConsistentIff(s, act.owner, act.bank, act.assets, act.id);
    }
  }

  lemma OnlyBooths(s: Store, t: Store, id: nat)
    requires AllConsistent(s) && id in s.booths && id in t.booths
    requires t.boxes == s.boxes && t.booths == s.booths[id := t.booths[id]]
    requires t.lastId == s.lastId
    requires t.booths[id] == s.booths[id].(enabled := t.booths[id].enabled, openedAt := t.booths[id].openedAt, closedAt := t.booths[id].closedAt)
    ensures AllConsistent(t)
  {
    hide BoxOk, Total;
    assert forall i :: BoxOf(t, i) == BoxOf(s, i);
  }

  /** At every point of the run all booths are consistent, and every deposit arrives whole. */
  ghost predicate AlwaysConsistent(s: Store, trace: seq<(Action, nat)>) {
    if trace == [] then AllConsistent(s)
    else
      var init, last := trace[..|trace| - 1], trace[|trace| - 1];
      AlwaysConsistent(s, init) && AllConsistent(Run(s, trace)) && Keeps(Run(s, init), last.0, last.1)
  }

  /** Every deposit of the run can be counted when it is made. */
  ghost predicate AlwaysFits(s: Store, trace: seq<(Action, nat)>) {
    if trace == [] then true
    else
      var init, last := trace[..|trace| - 1], trace[|trace| - 1];
      AlwaysFits(s, init) && Fits(Run(s, init), last.0, last.1)
  }

  /** From any consistent set of booths, a run keeps all of them consistent throughout and loses no deposit if and only if every
      deposit keeps the NFTs ever deposited in its booth below 2^64. */
  lemma {:induction false} RunKeepsConsistentIff(s: Store, trace: seq<(Action, nat)>)
    requires AllConsistent(s)
    ensures AlwaysConsistent(s, trace) <==> AlwaysFits(s, trace)
    ensures AlwaysConsistent(s, trace) ==> AllConsistent(Run(s, trace))
  {
    hide AllConsistent, Step, Fits, Keeps;
    if trace != [] {
      var init, last := trace[..|trace| - 1], trace[|trace| - 1];
      RunKeepsConsistentIff(s, init);
      if AlwaysConsistent(s, init) {
        StepKeepsConsistentIff(Run(s, init), last.0, last.1);
      }
    }
  }

  /** No action ever adds a row: the `set` that creating a booth and a first deposit end in only updates existing ones. */
  lemma {:induction false} NoRowIsEverAdded(s: Store, trace: seq<(Action, nat)>)
    ensures Run(s, trace).booths.Keys <= s.booths.Keys && Run(s, trace).boxes.Keys <= s.boxes.Keys
  {
    if trace != [] {
      var n := |trace| - 1;
      NoRowIsEverAdded(s, trace[..n]);
      NoRowAdded(Run(s, trace[..n]), trace[n].0, trace[n].1);
    }
  }

  lemma NoRowAdded(s: Store, act: Action, now: nat)
    ensures After(Step(s, act, now), s).booths.Keys <= s.booths.Keys
    ensures After(Step(s, act, now), s).boxes.Keys <= s.boxes.Keys
  {
    hide DrawAll, PutAll, Traces;
  }

  lemma NoBoothNoAction(s: Store, act: Action, now: nat)
    requires s.booths == map[]
    ensures Step(s, act, now).Abort?
  {
  }

  /** So in the state the contract starts in, every action aborts, forever. */
  lemma NothingEverOpens(trace: seq<(Action, nat)>, act: Action, now: nat)
    ensures Step(Run(Init(), trace), act, now).Abort?
  {
    NoRowIsEverAdded(Init(), trace);
    assert Init().booths.Keys == {};
    NoBoothNoAction(Run(Init(), trace), act, now);
  }
}
