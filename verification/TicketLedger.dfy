/** ticket.cvnft: supplies and balances of ticket NFTs, and what every run of the ledger keeps. */
module TicketLedger {
  import opened Eosio
  import opened Sums

  type Nid = nat

  datatype NAsset = NAsset(amount: int, nid: Nid)

  datatype Stat = Stat(supply: int, maxSupply: int, issuer: Name)

  datatype Ledger = Ledger(stats: map<Nid, Stat>, balances: map<(Name, Nid), int>)

  function Held(l: Ledger, owner: Name, nid: Nid): int {
    if (owner, nid) in l.balances then l.balances[(owner, nid)] else 0
  }

  // ---------- Actions ----------

  /** `create`; `allowed` stands for the creator and token-uri checks. */
  function CreateSpec(l: Ledger, issuer: Name, maxSupply: int, nid: Nid, allowed: bool): Option<Ledger> {
    var _ :- Check(allowed && maxSupply > 0 && nid !in l.stats);
    var _ :- Check(maxSupply <= MAX_AMOUNT && nid != 0);
    Some(l.(stats := l.stats[nid := Stat(0, maxSupply, issuer)]))
  }

  function SubBalance(l: Ledger, owner: Name, q: NAsset): Option<Ledger> {
    var _ :- Check((owner, q.nid) in l.balances && l.balances[(owner, q.nid)] >= q.amount);
    Some(l.(balances := l.balances[(owner, q.nid) := l.balances[(owner, q.nid)] - q.amount]))
  }

  function AddBalance(l: Ledger, owner: Name, q: NAsset): Option<Ledger> {
    var _ :- Check((owner, q.nid) in l.balances ==> InRange(l.balances[(owner, q.nid)] + q.amount));
    Some(l.(balances := l.balances[(owner, q.nid) := Held(l, owner, q.nid) + q.amount]))
  }

  /** `issue`, signed by the issuer. */
  function IssueSpec(l: Ledger, to: Name, q: NAsset): Option<Ledger> {
    var _ :- Check(q.nid in l.stats);
    var st := l.stats[q.nid];
    var _ :- Check(to == st.issuer && q.amount > 0 && q.amount <= st.maxSupply - st.supply);
    var _ :- Check(InRange(st.supply + q.amount));
    AddBalance(l.(stats := l.stats[q.nid := st.(supply := st.supply + q.amount)]), st.issuer, q)
  }

  /** `retire`, signed by the issuer. */
  function RetireSpec(l: Ledger, q: NAsset): Option<Ledger> {
    var _ :- Check(q.nid in l.stats && q.amount > 0);
    var st := l.stats[q.nid];
    var _ :- Check(InRange(st.supply - q.amount));
    SubBalance(l.(stats := l.stats[q.nid := st.(supply := st.supply - q.amount)]), st.issuer, q)
  }

  /** One pass of the loop in `transfer`. */
  function Move(l: Ledger, from: Name, to: Name, q: NAsset): Option<Ledger> {
    var _ :- Check(q.nid in l.stats && q.amount > 0);
    var taken :- SubBalance(l, from, q);
    AddBalance(taken, to, q)
  }

  function MoveAll(l: Ledger, from: Name, to: Name, assets: seq<NAsset>): Option<Ledger> {
    if assets == [] then Some(l)
    else
      var before :- MoveAll(l, from, to, assets[..|assets| - 1]);
      Move(before, from, to, assets[|assets| - 1])
  }

  /** `transfer`; `allowed` stands for the whitelists and the existence of the receiver. */
  function TransferSpec(l: Ledger, from: Name, to: Name, assets: seq<NAsset>, allowed: bool): Option<Ledger> {
    var _ :- Check(from != to && allowed);
    MoveAll(l, from, to, assets)
  }

  // ---------- The ledger's invariant ----------

  ghost function BalancesOf(l: Ledger, nid: Nid): map<(Name, Nid), int> {
    map k | k in l.balances :: if k.1 == nid then l.balances[k] else 0
  }

  /** All tickets of one kind, over every holder. */
  ghost function Circulating(l: Ledger, nid: Nid): int { Sum(BalancesOf(l, nid)) }

  /** Supply equals the sum of all balances, and stays within the maximum. */
  ghost predicate SupplyOk(l: Ledger) {
    && (forall k | k in l.balances :: l.balances[k] >= 0 && k.1 in l.stats)
    && (forall n | n in l.stats :: 0 <= l.stats[n].supply <= l.stats[n].maxSupply <= MAX_AMOUNT)
    && (forall n {:trigger Circulating(l, n)} | n in l.stats :: l.stats[n].supply == Circulating(l, n))
  }

  lemma BalanceSet(l: Ledger, k: (Name, Nid), v: int)
    ensures forall n: Nid {:trigger Circulating(l.(balances := l.balances[k := v]), n)} ::
              Circulating(l.(balances := l.balances[k := v]), n) == Circulating(l, n) + if n == k.1 then v - Held(l, k.0, k.1) else 0
  {
    forall n: Nid
      ensures Circulating(l.(balances := l.balances[k := v]), n) == Circulating(l, n) + if n == k.1 then v - Held(l, k.0, k.1) else 0
    {
      var w := if k.1 == n then v else 0;
      assert BalancesOf(l.(balances := l.balances[k := v]), n) == BalancesOf(l, n)[k := w];
      SumSet(BalancesOf(l, n), k, w);
    }
  }

  lemma SameBalances(l: Ledger, m: Ledger)
    requires m.balances == l.balances
    ensures forall n: Nid {:trigger Circulating(m, n)} :: Circulating(m, n) == Circulating(l, n)
  {
    assert forall n: Nid :: BalancesOf(m, n) == BalancesOf(l, n);
  }

  /** No holder has more of a ticket than its whole supply, so no balance can overflow. */
  lemma HeldAtMostSupply(l: Ledger, owner: Name, nid: Nid)
    requires SupplyOk(l) && nid in l.stats
    ensures 0 <= Held(l, owner, nid) <= l.stats[nid].supply
  {
    assert l.stats[nid].supply == Circulating(l, nid);
    SumNonNegative(BalancesOf(l, nid));
    if (owner, nid) in l.balances {
      assert BalancesOf(l, nid)[(owner, nid)] == l.balances[(owner, nid)];
    }
  }

  lemma CreateKeepsSupply(l: Ledger, issuer: Name, maxSupply: int, nid: Nid, allowed: bool)
    requires SupplyOk(l)
    ensures SupplyOk(After(CreateSpec(l, issuer, maxSupply, nid, allowed), l))
  {
    var r := CreateSpec(l, issuer, maxSupply, nid, allowed);
    if r.Some? {
      SameBalances(l, r.value);
      forall k | k in BalancesOf(l, nid)
        ensures BalancesOf(l, nid)[k] == 0
      {
        assert k.1 in l.stats;
      }
      SumZero(BalancesOf(l, nid));
    }
  }

  lemma CreditIsSet(l: Ledger, owner: Name, q: NAsset)
    ensures AddBalance(l, owner, q).Some? ==>
              && AddBalance(l, owner, q).value == l.(balances := l.balances[(owner, q.nid) := Held(l, owner, q.nid) + q.amount])
              && Held(l, owner, q.nid) == if (owner, q.nid) in l.balances then l.balances[(owner, q.nid)] else 0
  {
  }

  lemma IssueKeepsSupply(l: Ledger, to: Name, q: NAsset)
    requires SupplyOk(l)
    ensures SupplyOk(After(IssueSpec(l, to, q), l))
  {
    hide Circulating, Held;
    var r := IssueSpec(l, to, q);
    if r.Some? {
      var m := l.(stats := r.value.stats);
      CreditIsSet(m, to, q);
      SameBalances(l, m);
      BalanceSet(m, (to, q.nid), Held(m, to, q.nid) + q.amount);
    }
  }

  lemma RetireKeepsSupply(l: Ledger, q: NAsset)
    requires SupplyOk(l)
    ensures SupplyOk(After(RetireSpec(l, q), l))
  {
    var r := RetireSpec(l, q);
    if r.Some? {
      var issuer := l.stats[q.nid].issuer;
      HeldAtMostSupply(l, issuer, q.nid);
      var m := l.(stats := r.value.stats);
      SameBalances(l, m);
      BalanceSet(m, (issuer, q.nid), Held(l, issuer, q.nid) - q.amount);
    }
  }

  /** One moved asset takes from the sender what it gives the receiver, and nothing else changes. */
  lemma MoveEffect(l: Ledger, from: Name, to: Name, q: NAsset)
    requires SupplyOk(l) && from != to && Move(l, from, to, q).Some?
    ensures var m := Move(l, from, to, q).value;
            && SupplyOk(m) && m.stats == l.stats
            && q.amount > 0 && q.nid in l.stats
            && Held(l, from, q.nid) >= q.amount
            && (forall o: Name, n: Nid ::
                  Held(m, o, n) == Held(l, o, n) + (if (o, n) == (to, q.nid) then q.amount else 0) - (if (o, n) == (from, q.nid) then q.amount else 0))
  {
    var x := SubBalance(l, from, q).value;
    var m := Move(l, from, to, q).value;
    BalanceSet(l, (from, q.nid), Held(l, from, q.nid) - q.amount);
    BalanceSet(x, (to, q.nid), Held(x, to, q.nid) + q.amount);
    assert x == l.(balances := l.balances[(from, q.nid) := Held(l, from, q.nid) - q.amount]);
    assert m == x.(balances := x.balances[(to, q.nid) := Held(x, to, q.nid) + q.amount]);
  }

  /** How much of one ticket a list of assets carries. */
  function Carried(assets: seq<NAsset>, nid: Nid): int {
    if assets == [] then 0
    else
      var last := assets[|assets| - 1];
      Carried(assets[..|assets| - 1], nid) + if last.nid == nid then last.amount else 0
  }

  lemma CarriedLast(assets: seq<NAsset>)
    requires assets != []
    ensures var init, last := assets[..|assets| - 1], assets[|assets| - 1];
            && (forall n: Nid :: Carried(assets, n) == Carried(init, n) + if n == last.nid then last.amount else 0)
            && (forall a | a in assets :: a in init || a == last)
  {
    assert assets == assets[..|assets| - 1] + [assets[|assets| - 1]];
  }

  /** A transfer moves exactly the assets listed from one account to the other, every one of them positive. */
  lemma {:induction false} MoveAllEffect(l: Ledger, from: Name, to: Name, assets: seq<NAsset>)
    requires SupplyOk(l) && from != to && MoveAll(l, from, to, assets).Some?
    ensures var m := MoveAll(l, from, to, assets).value;
            && SupplyOk(m) && m.stats == l.stats
            && (forall a | a in assets :: a.amount > 0)
            && (forall o: Name, n: Nid :: Held(m, o, n) == Held(l, o, n) + (if o == to then Carried(assets, n) else 0) - (if o == from then Carried(assets, n) else 0))
  {
    hide SupplyOk, Held, Move, Carried;
    if assets == [] {
      NothingCarried();
    } else {
      var init, last := assets[..|assets| - 1], assets[|assets| - 1];
      MoveAllEffect(l, from, to, init);
      MoveEffect(MoveAll(l, from, to, init).value, from, to, last);
      CarriedLast(assets);
    }
  }

  lemma NothingCarried()
    ensures forall n: Nid :: Carried([], n) == 0
  {
  }

  /** What is carried of a ticket covers the first asset listed. */
  lemma {:induction false} CarriedCoversFirst(assets: seq<NAsset>, nid: Nid)
    requires forall a | a in assets :: a.amount > 0
    ensures Carried(assets, nid) >= 0
    ensures assets != [] && assets[0].nid == nid ==> Carried(assets, nid) >= assets[0].amount
  {
    if assets != [] {
      CarriedCoversFirst(assets[..|assets| - 1], nid);
    }
  }

  /** In every state the ledger can hold, an incoming balance never overflows: crediting what was debited always works. */
  lemma CreditNeverOverflows(l: Ledger, from: Name, to: Name, q: NAsset)
    requires SupplyOk(l) && from != to && q.nid in l.stats && q.amount > 0
    requires Held(l, from, q.nid) >= q.amount
    ensures Move(l, from, to, q).Some?
  {
    assert (from, q.nid) in l.balances;
    PairAtMostSupply(l, from, to, q.nid);
  }

  lemma PairAtMostSupply(l: Ledger, one: Name, two: Name, nid: Nid)
    requires SupplyOk(l) && nid in l.stats && one != two
    ensures Held(l, one, nid) + Held(l, two, nid) <= l.stats[nid].supply
  {
    var m := BalancesOf(l, nid);
    assert l.stats[nid].supply == Circulating(l, nid);
    if (one, nid) in l.balances && (two, nid) in l.balances {
      SumRemove(m, (one, nid));
      SumNonNegative(m - {(one, nid)});
      assert (m - {(one, nid)})[(two, nid)] == l.balances[(two, nid)];
    } else {
      HeldAtMostSupply(l, one, nid);
      HeldAtMostSupply(l, two, nid);
    }
  }
}
