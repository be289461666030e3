/** The contract object of ticket.cvnft. */
module TicketContract {
  import opened Eosio
  import opened TicketLedger

  /** A transfer that fails at some asset fails as a whole. */
  lemma {:induction false} MoveAllStops(l: Ledger, from: Name, to: Name, assets: seq<NAsset>, i: nat)
    requires i <= |assets| && MoveAll(l, from, to, assets[..i]).Abort?
    ensures MoveAll(l, from, to, assets).Abort?
  {
    if i < |assets| {
      assert assets[..|assets| - 1][..i] == assets[..i];
      MoveAllStops(l, from, to, assets[..|assets| - 1], i);
    } else {
      assert assets[..i] == assets;
    }
  }

  class CvTicket {
    var stats: map<Nid, Stat>
    var balances: map<(Name, Nid), int>

    ghost function Snapshot(): Ledger
      reads this
    {
      Ledger(stats, balances)
    }

    constructor ()
      ensures Snapshot() == Ledger(map[], map[])
    {
      stats, balances := map[], map[];
    }

    method Create(issuer: Name, maxSupply: int, nid: Nid, allowed: bool) returns (r: Option<()>)
      modifies this
      ensures Applied(r, CreateSpec(old(Snapshot()), issuer, maxSupply, nid, allowed), old(Snapshot()), Snapshot())
    {
      var _ :- Check(allowed);
      var _ :- Check(maxSupply > 0);
      var _ :- Check(nid !in stats);
      var _ :- Check(maxSupply <= MAX_AMOUNT && nid != 0);
      stats := stats[nid := Stat(0, maxSupply, issuer)];
      return Some(());
    }

    method SubBalance(rows: map<(Name, Nid), int>, owner: Name, q: NAsset) returns (r: Option<map<(Name, Nid), int>>)
      ensures r == match TicketLedger.SubBalance(Ledger(stats, rows), owner, q) case Abort => Abort case Some(l) => Some(l.balances)
    {
      var _ :- Check((owner, q.nid) in rows);
      var balance := rows[(owner, q.nid)];
      var _ :- Check(balance >= q.amount);
      return Some(rows[(owner, q.nid) := balance - q.amount]);
    }

    method AddBalance(rows: map<(Name, Nid), int>, owner: Name, q: NAsset) returns (r: Option<map<(Name, Nid), int>>)
      ensures r == match TicketLedger.AddBalance(Ledger(stats, rows), owner, q) case Abort => Abort case Some(l) => Some(l.balances)
    {
      if (owner, q.nid) !in rows {
        return Some(rows[(owner, q.nid) := q.amount]);
      }
      var balance := rows[(owner, q.nid)];
      var _ :- Check(InRange(balance + q.amount));
      return Some(rows[(owner, q.nid) := balance + q.amount]);
    }

    method Issue(to: Name, q: NAsset) returns (r: Option<()>)
      modifies this
      ensures Applied(r, IssueSpec(old(Snapshot()), to, q), old(Snapshot()), Snapshot())
    {
      var _ :- Check(q.nid in stats);
      var st := stats[q.nid];
      var _ :- Check(to == st.issuer);
      var _ :- Check(q.amount > 0);
      var _ :- Check(q.amount <= st.maxSupply - st.supply);
      var _ :- Check(InRange(st.supply + q.amount));
      var rows :- AddBalance(balances, st.issuer, q);
      stats := stats[q.nid := st.(supply := st.supply + q.amount)];
      balances := rows;
      return Some(());
    }

    method Retire(q: NAsset) returns (r: Option<()>)
      modifies this
      ensures Applied(r, RetireSpec(old(Snapshot()), q), old(Snapshot()), Snapshot())
    {
      var _ :- Check(q.nid in stats);
      var st := stats[q.nid];
      var _ :- Check(q.amount > 0);
      var _ :- Check(InRange(st.supply - q.amount));
      var rows :- SubBalance(balances, st.issuer, q);
      stats := stats[q.nid := st.(supply := st.supply - q.amount)];
      balances := rows;
      return Some(());
    }

    method Transfer(from: Name, to: Name, assets: seq<NAsset>, allowed: bool) returns (r: Option<()>)
      modifies this
      ensures Applied(r, TransferSpec(old(Snapshot()), from, to, assets, allowed), old(Snapshot()), Snapshot())
    {
      var _ :- Check(from != to);
      var _ :- Check(allowed);
      var rows := balances;
      for i := 0 to |assets|
        invariant Snapshot() == old(Snapshot())
        invariant MoveAll(Snapshot(), from, to, assets[..i]) == Some(Ledger(stats, rows))
      {
        var q := assets[i];
        assert assets[..i + 1][..i] == assets[..i];
        if q.nid !in stats || q.amount <= 0 {
          MoveAllStops(Snapshot(), from, to, assets, i + 1);
          return Abort;
        }
        var taken := SubBalance(rows, from, q);
        if taken.Abort? {
          MoveAllStops(Snapshot(), from, to, assets, i + 1);
          return Abort;
        }
        var given := AddBalance(taken.value, to, q);
        if given.Abort? {
          MoveAllStops(Snapshot(), from, to, assets, i + 1);
          return Abort;
        }
        rows := given.value;
      }
      assert assets[..|assets|] == assets;
      balances := rows;
      return Some(());
    }
  }
}
