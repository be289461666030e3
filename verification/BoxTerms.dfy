/** The terms of a booth: how a draw falls, what a deposit and a closing need, and that only its owner and its buyers change it. */
module BoxTerms {
  import opened Eosio
  import opened BoxModel
  import opened BoxLedger
  import BoxDraw

  // ---------- How a draw falls ----------

  /** The hash words that make a draw take NFT `nid` at once. */
  ghost function Taking(b: Booth, box: Box, nid: nat): set<nat> {
    set w: nat | w <= MAX_WORD && Takes(b, box, w, nid)
  }

  ghost predicate Takes(b: Booth, box: Box, w: nat, nid: nat) {
    w <= MAX_WORD && DrawSpec(b, box, [w]).Some? && DrawSpec(b, box, [w]).value.2 == nid
  }

  lemma OneWord(b: Booth, box: Box, w: U64, i: nat)
    requires Counted(b, box) && b.nftNum > 0 && i < |box|
    ensures Takes(b, box, w, box[i].nid) <==> w <= Limit(b.nftNum) && Pick(box, BoxDraw.Outcome(w, b.nftNum)) == i
  {
    hide Pick, Total, Limit;
    BoxDraw.RandAnswers([w], b.nftNum);
    if w <= Limit(b.nftNum) {
      assert Rand([w], b.nftNum) == Some(BoxDraw.Outcome(w, b.nftNum));
      BoxDraw.PickStops(box, BoxDraw.Outcome(w, b.nftNum));
    }
  }

  /** A draw is fair to within one word: each kind in the box is taken by as many hash words as it has NFTs, times the same number for
      all kinds, and the first kind by one more. */
  lemma DrawIsFair(b: Booth, box: Box, i: nat)
    requires Counted(b, box) && b.nftNum > 0 && i < |box|
    ensures |Taking(b, box, box[i].nid)| == Count(box, box[i].nid) * (MAX_WORD / b.nftNum) + if i == 0 then 1 else 0
  {
    hide Pick, Total, Limit, Takes, Count;
    forall w: nat
      ensures w <= MAX_WORD && Takes(b, box, w, box[i].nid) <==> w <= Limit(b.nftNum) && Pick(box, BoxDraw.Outcome(w, b.nftNum)) == i
    {
      LimitIsWord(b.nftNum);
      if w <= MAX_WORD {
        OneWord(b, box, w, i);
      }
    }
    assert Taking(b, box, box[i].nid) == BoxDraw.Drawing(box, i);
    EntryPositive(box, i);
    BoxDraw.WordsPerEntry(box, i);
    OwnEntry(box, i);
    FirstEntry(box, i);
  }

  lemma LimitIsWord(range: nat)
    requires range > 0
    ensures Limit(range) <= MAX_WORD
  {
  }

  lemma FirstEntry(box: Box, i: nat)
    requires BoxOk(box) && i < |box|
    ensures Total(box[..i]) == 0 <==> i == 0
  {
    if i > 0 {
      BoxDraw.TotalMonotone(box, 1, i);
      assert box[..1][..0] == [] && box[..1][0] == box[0];
    }
  }

  lemma {:induction false} OwnEntry(box: Box, i: nat)
    requires BoxOk(box) && i < |box|
    ensures Count(box, box[i].nid) == box[i].amount
  {
    var init, last := box[..|box| - 1], box[|box| - 1];
    if i < |init| {
      OwnEntry(init, i);
      assert init[i] == box[i];
    } else {
      NoneOf(init, last.nid);
    }
  }

  lemma {:induction false} NoneOf(box: Box, nid: nat)
    requires forall i | 0 <= i < |box| :: box[i].nid != nid
    ensures Count(box, nid) == 0
  {
    if box != [] {
      NoneOf(box[..|box| - 1], nid);
    }
  }

  /** A draw that rejects words falls as the first word it accepts; it goes through exactly when there is one. */
  lemma {:induction false} FirstAccepted(b: Booth, box: Box, words: seq<U64>, j: nat)
    requires b.nftNum > 0 && j < |words| && words[j] <= Limit(b.nftNum)
    requires forall i | 0 <= i < j :: words[i] > Limit(b.nftNum)
    ensures DrawSpec(b, box, words) == DrawSpec(b, box, [words[j]])
    decreases j
  {
    hide Pick, Limit;
    if j > 0 {
      FirstAccepted(b, box, words[1..], j - 1);
      assert Rand(words, b.nftNum) == Rand(words[1..], b.nftNum);
    } else {
      assert Rand(words, b.nftNum) == Rand([words[0]], b.nftNum);
    }
  }

  // ---------- Deposits and closing ----------

  ghost function Kinds(box: Box): set<nat> { set i | 0 <= i < |box| :: box[i].nid }

  ghost function SentKinds(assets: seq<(nat, int)>): set<nat> { set i | 0 <= i < |assets| :: assets[i].0 }

  lemma {:induction false} KindsAreEntries(box: Box)
    requires BoxOk(box)
    ensures |Kinds(box)| == |box|
  {
    hide Kinds;
    if box != [] {
      var init, last := box[..|box| - 1], box[|box| - 1];
      assert box == init + [last];
      KindsAreEntries(init);
      KindsLast(init, last);
      NewKind(init, last);
    } else {
      NoKinds();
    }
  }

  lemma NoKinds()
    ensures Kinds([]) == {}
  {
  }

  lemma NewKind(init: Box, e: Entry)
    requires BoxOk(init + [e])
    ensures e.nid !in Kinds(init)
  {
    var all := init + [e];
    assert forall i | 0 <= i < |init| :: all[i] == init[i] && all[i].nid < all[|init|].nid;
  }

  lemma {:induction false} PutKinds(box: Box, nid: nat, n: U64)
    ensures Kinds(Put(box, nid, n)) == Kinds(box) + {nid}
  {
    hide WrapU64;
    if box == [] {
      assert Put(box, nid, n)[0].nid == nid;
      assert Kinds(Put(box, nid, n)) == {nid};
    } else {
      var init, last := box[..|box| - 1], box[|box| - 1];
      KindsLast(init, last);
      if last.nid < nid {
        KindsLast(box, Entry(nid, n));
      } else if last.nid == nid {
        KindsLast(init, Entry(nid, WrapU64(last.amount + n)));
      } else {
        PutKinds(init, nid, n);
        KindsLast(Put(init, nid, n), last);
      }
      assert box == init + [last];
    }
  }

  lemma KindsLast(init: Box, e: Entry)
    ensures Kinds(init + [e]) == Kinds(init) + {e.nid}
  {
    var all := init + [e];
    forall k | k in Kinds(all)
      ensures k in Kinds(init) + {e.nid}
    {
      var i :| 0 <= i < |all| && all[i].nid == k;
      assert i < |init| ==> init[i].nid == k;
    }
    forall k | k in Kinds(init) + {e.nid}
      ensures k in Kinds(all)
    {
      if k in Kinds(init) {
        var i :| 0 <= i < |init| && init[i].nid == k;
        assert all[i].nid == k;
      }
      assert all[|init|].nid == e.nid;
    }
  }

  lemma {:induction false} PutAllTerms(box: Box, assets: seq<(nat, int)>)
    ensures PutAll(box, assets).Some? <==> forall i | 0 <= i < |assets| :: 0 < assets[i].1 < TWO_63
    ensures PutAll(box, assets).Some? ==> Kinds(PutAll(box, assets).value) == Kinds(box) + SentKinds(assets)
  {
    hide Put;
    if assets == [] {
      assert SentKinds(assets) == {};
    } else {
      var init, last := assets[..|assets| - 1], assets[|assets| - 1];
      PutAllTerms(box, init);
      assert forall i | 0 <= i < |init| :: init[i] == assets[i];
      if PutAll(box, assets).Some? {
        PutKinds(PutAll(box, init).value, last.0, last.1);
        SentKindsLast(assets);
      }
    }
  }

  lemma SentKindsLast(assets: seq<(nat, int)>)
    requires assets != []
    ensures SentKinds(assets) == SentKinds(assets[..|assets| - 1]) + {assets[|assets| - 1].0}
  {
    var init := assets[..|assets| - 1];
    forall k | k in SentKinds(assets)
      ensures k in SentKinds(init) + {assets[|assets| - 1].0}
    {
      var i :| 0 <= i < |assets| && assets[i].0 == k;
      assert i < |init| ==> init[i].0 == k;
    }
    assert forall i | 0 <= i < |init| :: init[i] == assets[i];
  }

  /** The kinds in a box once `assets` are in it. */
  ghost function KindsWith(box: Box, assets: seq<(nat, int)>): nat { |Kinds(box) + SentKinds(assets)| }

  ghost predicate AllPositive(assets: seq<(nat, int)>) { forall i | 0 <= i < |assets| :: 0 < assets[i].1 < TWO_63 }

  /** The booth is enabled, it is the sender's and sells from that contract, every asset is positive, and there is room for the kinds. */
  ghost predicate Welcome(s: Store, from: Name, bank: Name, assets: seq<(nat, int)>, id: nat) {
    && id in s.booths && s.booths[id].enabled && s.booths[id].owner == from && s.booths[id].nftContract == bank
    && AllPositive(assets)
    && (assets != [] ==> id in s.boxes)
    && KindsWith(BoxOf(s, id), assets) <= s.maxBoxes
  }

  /** Everything sent is in the box and in both counters, and no other booth or box changed. */
  ghost predicate TakenIn(s: Store, t: Store, assets: seq<(nat, int)>, id: nat) {
    && id in s.booths && id in t.booths
    && t == s.(booths := s.booths[id := t.booths[id]], boxes := t.boxes)
    && t.boxes.Keys == s.boxes.Keys && (forall i | i in s.boxes && i != id :: t.boxes[i] == s.boxes[i])
    && var b := s.booths[id]; var c := t.booths[id];
    && c == b.(boxNum := c.boxNum, nftNum := c.nftNum, nftNumSum := c.nftNumSum)
    && c.boxNum == KindsWith(BoxOf(s, id), assets)
    && c.nftNum == b.nftNum + Deposited(assets) && c.nftNumSum == b.nftNumSum + Deposited(assets)
    && (forall m: nat :: Count(BoxOf(t, id), m) == Count(BoxOf(s, id), m) + SentOf(assets, m))
  }

  /** What putting in the assets makes of a counted box. */
  lemma FilledBox(b: Booth, box: Box, assets: seq<(nat, int)>)
    requires Counted(b, box) && b.nftNum <= b.nftNumSum && PutAll(box, assets).Some? && b.nftNumSum + Deposited(assets) < TWO_64
    ensures var filled := PutAll(box, assets).value; var added := WrapU64(Deposited(assets));
            && WrapU64(b.boxNum + (|filled| - |box|)) == KindsWith(box, assets)
            && WrapU64(b.nftNum + added) == b.nftNum + Deposited(assets) && WrapU64(b.nftNumSum + added) == b.nftNumSum + Deposited(assets)
            && (forall m: nat :: Count(filled, m) == Count(box, m) + SentOf(assets, m))
  {
    hide PutAll, Deposited, Count, SentOf, Kinds, SentKinds, BoxOk, Total;
    var filled := PutAll(box, assets).value;
    PutAllTerms(box, assets);
    PutAllFacts(box, assets);
    KindsAreEntries(filled);
    BoxesFit(filled);
    Fitting(b.nftNum, Deposited(assets));
    Fitting(b.nftNumSum, Deposited(assets));
    Fitting(|filled|, 0);
  }

  /** NFTs are taken into a box if and only if they are `Welcome`, and then nothing of them is lost. Stated while the NFTs of the booth
      can be counted; `DepositKeepsConsistentIff` says what happens beyond. */
  lemma DepositTerms(s: Store, from: Name, bank: Name, assets: seq<(nat, int)>, id: nat)
    requires AllConsistent(s)
    requires id in s.booths && AllPositive(assets) ==> s.booths[id].nftNumSum + Deposited(assets) < TWO_64
    ensures var r := DepositSpec(s, from, bank, assets, id);
            && (r.Some? <==> Welcome(s, from, bank, assets, id))
            && (r.Some? ==> TakenIn(s, r.value, assets, id))
  {
    hide PutAll, Deposited, Count, SentOf, KindsWith, Counted, WrapU64;
    if id in s.booths {
      var b, box := s.booths[id], BoxOf(s, id);
      assert Consistent(b, box);
      PutAllTerms(box, assets);
      if PutAll(box, assets).Some? {
        FilledBox(b, box, assets);
        NothingSent(box, assets);
      }
    }
  }

  lemma Fitting(a: nat, d: nat)
    requires a + d < TWO_64
    ensures WrapU64(d) == d && WrapU64(a + d) == a + d
  {
  }

  lemma NothingSent(box: Box, assets: seq<(nat, int)>)
    ensures assets == [] ==> PutAll(box, assets) == Some(box) && Deposited(assets) == 0
  {
  }

  /** A booth is closed by its owner only, while enabled; the owner gets back all of every kind that is left, and no other booth changes. */
  lemma CloseTerms(s: Store, owner: Name, id: nat)
    requires AllConsistent(s)
    ensures var r := CloseSpec(s, owner, id);
            && (r.Some? <==> id in s.booths && s.booths[id].enabled && s.booths[id].owner == owner && id in s.boxes)
            && (r.Some? ==>
                  && (forall m: nat :: Count(r.value.1, m) == Count(BoxOf(s, id), m)) && Total(r.value.1) == s.booths[id].nftNum
                  && id !in r.value.0.booths && id !in r.value.0.boxes
                  && (forall i | i in s.booths && i != id :: i in r.value.0.booths && r.value.0.booths[i] == s.booths[i])
                  && (forall i | i in s.boxes && i != id :: i in r.value.0.boxes && r.value.0.boxes[i] == s.boxes[i]))
  {
    hide Count, BoxOk;
    if CloseSpec(s, owner, id).Some? {
      assert Consistent(s.booths[id], BoxOf(s, id));
    }
  }

  // ---------- Who can change a booth ----------

  /** Actions on booth `id` that `owner` signs. */
  predicate ByOwner(act: Action, owner: Name, id: nat) {
    match act
    case Enable(o, i, _) => o == owner && i == id
    case SetTime(o, i, _, _) => o == owner && i == id
    case Deposit(o, _, _, i) => o == owner && i == id
    case Close(o, i) => o == owner && i == id
    case _ => false
  }

  /** NFTs of kind `m` that a step sells out of booth `id`. */
  ghost function SoldBy(s: Store, act: Action, now: nat, id: nat, m: nat): nat {
    if act.Buy? && act.id == id then
      var r := BuySpec(s, act.bank, act.quantity, id, act.hash, now);
      if r.Some? then Count(r.value.1.bought, m) else 0
    else 0
  }

  ghost function SoldOver(s: Store, trace: seq<(Action, nat)>, id: nat, m: nat): nat {
    if trace == [] then 0
    else
      var init, last := trace[..|trace| - 1], trace[|trace| - 1];
      SoldOver(s, init, id, m) + SoldBy(Run(s, init), last.0, last.1, id, m)
  }

  /** The booth stands as it was, less what was sold at its price. */
  ghost predicate OnlySold(s: Store, t: Store, id: nat) {
    && id in s.booths && id in t.booths && id <= t.lastId
    && var b, c := s.booths[id], t.booths[id];
    && Consistent(c, BoxOf(t, id)) && c.nftNum <= b.nftNum
    && c == b.(nftNum := c.nftNum, boxNum := c.boxNum, fundRecd := Asset(b.fundRecd.amount + b.price.amount * (b.nftNum - c.nftNum), b.fundRecd.sym))
  }

  lemma OneSale(s: Store, bank: Name, quantity: Asset, id: nat, hash: nat -> seq<U64>, now: nat)
    requires id in s.booths && id <= s.lastId && Consistent(s.booths[id], BoxOf(s, id)) && BuySpec(s, bank, quantity, id, hash, now).Some?
    ensures var r := BuySpec(s, bank, quantity, id, hash, now).value;
            && OnlySold(s, r.0, id)
            && (forall m: nat :: Count(BoxOf(r.0, id), m) + Count(r.1.bought, m) == Count(BoxOf(s, id), m))
            && s.booths[id].nftNum - r.0.booths[id].nftNum == Total(r.1.bought)
  {
    hide BoxOk, Total, Count, DrawAll, Traces, TracesPaid, InRange;
    var r := BuySpec(s, bank, quantity, id, hash, now).value;
    var b, box := s.booths[id], BoxOf(s, id);
    var price := b.price.amount;
    var count := quantity.amount / price;
    CountIs(quantity.amount, price);
    assert count == TruncDiv(quantity.amount, price);
    var funded := b.(fundRecd := Asset(b.fundRecd.amount + price * count, b.fundRecd.sym));
    DrawAllFacts(funded, box, hash, count);
    DistributeOver(price, b.nftNumSum - b.nftNum, count);
  }

  lemma OthersOnlyBuy(s: Store, act: Action, now: nat, id: nat)
    requires id in s.booths && id <= s.lastId && Consistent(s.booths[id], BoxOf(s, id)) && !ByOwner(act, s.booths[id].owner, id)
    ensures var t := After(Step(s, act, now), s);
            && OnlySold(s, t, id)
            && (forall m: nat :: Count(BoxOf(t, id), m) + SoldBy(s, act, now, id, m) == Count(BoxOf(s, id), m))
  {
    hide Consistent, Count, DrawAll, PutAll, Traces, Deposited;
    Priced(s.booths[id]);
    if act.Buy? && act.id == id && Step(s, act, now).Some? {
      OneSale(s, act.bank, act.quantity, id, act.hash, now);
    }
  }

  lemma Priced(b: Booth)
    ensures b.price.amount * (b.nftNum - b.nftNum) == 0
  {
  }

  lemma SoldAfterSold(s: Store, t: Store, u: Store, id: nat)
    requires OnlySold(s, t, id) && OnlySold(t, u, id)
    ensures OnlySold(s, u, id)
  {
    hide Consistent;
    var b, c, d := s.booths[id], t.booths[id], u.booths[id];
    DistributeOver(b.price.amount, b.nftNum - c.nftNum, c.nftNum - d.nftNum);
  }

  /** Over every run in which the owner of a booth does nothing to it, whatever anyone else does: owner, price, window and contracts stay,
      what is gone from the box was bought, kind by kind, and was paid for at the price. */
  lemma {:induction false} BoothOnlySells(s: Store, trace: seq<(Action, nat)>, id: nat)
    requires id in s.booths && id <= s.lastId && Consistent(s.booths[id], BoxOf(s, id))
    requires forall i | 0 <= i < |trace| :: !ByOwner(trace[i].0, s.booths[id].owner, id)
    ensures var t := Run(s, trace);
            && OnlySold(s, t, id)
            && (forall m: nat :: Count(BoxOf(t, id), m) + SoldOver(s, trace, id, m) == Count(BoxOf(s, id), m))
  {
    hide Consistent, Count, Step, SoldBy, ByOwner;
    Priced(s.booths[id]);
    if trace != [] {
      var init, last := trace[..|trace| - 1], trace[|trace| - 1];
      BoothOnlySells(s, init, id);
      var before := Run(s, init);
      assert !ByOwner(trace[|trace| - 1].0, s.booths[id].owner, id);
      OthersOnlyBuy(before, last.0, last.1, id);
      SoldAfterSold(s, before, Run(s, trace), id);
    }
  }
}
