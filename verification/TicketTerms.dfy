/** What issuing, retiring and moving tickets need and do, in full. */
module TicketTerms {
  import opened Eosio
  import opened TicketLedger

  /** The ledger with `amount` tickets more of one kind (or fewer), all of them with the issuer. */
  ghost function Supplied(l: Ledger, nid: Nid, amount: int): Ledger
    requires nid in l.stats
  {
    var st := l.stats[nid];
    Ledger(l.stats[nid := Stat(st.supply + amount, st.maxSupply, st.issuer)],
           l.balances[(st.issuer, nid) := Held(l, st.issuer, nid) + amount])
  }

  /** Only the issuer is issued tickets, within the maximum; nothing else changes. */
  lemma IssueTerms(l: Ledger, to: Name, q: NAsset)
    requires SupplyOk(l)
    ensures IssueSpec(l, to, q)
            == if q.nid in l.stats && to == l.stats[q.nid].issuer && 0 < q.amount && l.stats[q.nid].supply + q.amount <= l.stats[q.nid].maxSupply
               then Some(Supplied(l, q.nid, q.amount)) else Abort
  {
    if q.nid in l.stats {
      HeldAtMostSupply(l, l.stats[q.nid].issuer, q.nid);
    }
  }

  /** Retired tickets come off the issuer's own balance and off the supply; nothing else changes. */
  lemma RetireTerms(l: Ledger, q: NAsset)
    requires SupplyOk(l)
    ensures RetireSpec(l, q)
            == if q.nid in l.stats && 0 < q.amount <= Held(l, l.stats[q.nid].issuer, q.nid)
               then Some(Supplied(l, q.nid, 0 - q.amount)) else Abort
  {
    if q.nid in l.stats {
      HeldAtMostSupply(l, l.stats[q.nid].issuer, q.nid);
    }
  }

  // ---------- Transfers ----------

  /** Every asset is a positive number of known tickets, and of each kind the sender has all that the list carries. */
  ghost predicate Covered(l: Ledger, from: Name, assets: seq<NAsset>) {
    && (forall a | a in assets :: a.amount > 0 && a.nid in l.stats)
    && (forall n: Nid {:trigger Carried(assets, n)} :: Carried(assets, n) <= Held(l, from, n))
  }

  lemma MoveCommitsIff(l: Ledger, from: Name, to: Name, q: NAsset)
    requires SupplyOk(l) && from != to
    ensures Move(l, from, to, q).Some? <==> q.nid in l.stats && 0 < q.amount <= Held(l, from, q.nid)
  {
    if q.nid in l.stats && 0 < q.amount <= Held(l, from, q.nid) {
      CreditNeverOverflows(l, from, to, q);
    }
  }

  lemma {:induction false} MoveAllCommitsIff(l: Ledger, from: Name, to: Name, assets: seq<NAsset>)
    requires SupplyOk(l) && from != to
    ensures MoveAll(l, from, to, assets).Some? <==> Covered(l, from, assets)
  {
    hide SupplyOk, Held, Move, Carried, Covered;
    if assets == [] {
      NothingCarried();
      NobodyOwes(l, from);
    } else {
      var init, last := assets[..|assets| - 1], assets[|assets| - 1];
      MoveAllCommitsIff(l, from, to, init);
      CarriedLast(assets);
      CoveredLast(l, from, assets);
      if MoveAll(l, from, to, init).Some? {
        MoveAllEffect(l, from, to, init);
        MoveCommitsIff(MoveAll(l, from, to, init).value, from, to, last);
      }
    }
  }

  lemma NobodyOwes(l: Ledger, from: Name)
    requires SupplyOk(l)
    ensures Covered(l, from, [])
  {
    forall n: Nid
      ensures Carried([], n) <= Held(l, from, n)
    {
    }
  }

  lemma CoveredLast(l: Ledger, from: Name, assets: seq<NAsset>)
    requires assets != [] && SupplyOk(l)
    ensures var init, last := assets[..|assets| - 1], assets[|assets| - 1];
            Covered(l, from, assets) <==> Covered(l, from, init) && last.nid in l.stats && 0 < last.amount <= Held(l, from, last.nid) - Carried(init, last.nid)
  {
    hide SupplyOk, Held, Carried;
    var init, last := assets[..|assets| - 1], assets[|assets| - 1];
    CarriedLast(assets);
    if Covered(l, from, assets) {
      forall n: Nid
        ensures Carried(init, n) <= Held(l, from, n)
      {
        assert Carried(assets, n) <= Held(l, from, n);
      }
      assert Carried(assets, last.nid) <= Held(l, from, last.nid);
      assert last in assets;
    }
  }

  /** A transfer commits if and only if the parties differ, it is allowed, and the sender has every ticket listed: no receiver's
      balance can overflow, and a list that names a kind twice needs both. */
  lemma TransferCommitsIff(l: Ledger, from: Name, to: Name, assets: seq<NAsset>, allowed: bool)
    requires SupplyOk(l)
    ensures TransferSpec(l, from, to, assets, allowed).Some? <==> from != to && allowed && Covered(l, from, assets)
  {
    hide SupplyOk, MoveAll, Covered;
    if from != to {
      MoveAllCommitsIff(l, from, to, assets);
    }
  }
}
