/** The contract object of show.cisum: the ticket rows and the batch that rewards many users. */
module ShowContract {
  import opened Eosio
  import opened TicketLedger
  import opened ShowModel

  class ShowCisum {
    var shows: set<nat>
    var tickets: map<Key, Ticket>

    ghost function Snapshot(): Show
      reads this
    {
      Show(shows, tickets)
    }

    constructor ()
      ensures Snapshot() == Show({}, map[])
    {
      shows, tickets := {}, map[];
    }

    method IssueNft(showId: nat, q: NAsset) returns (r: Option<()>)
      modifies this
      ensures Applied(r, MintSpec(old(Snapshot()), showId, q), old(Snapshot()), Snapshot())
    {
      var key := (showId, q.nid);
      var _ :- Check(q.amount > 0);
      var _ :- Check(showId > 0);
      var _ :- Check(key in tickets);
      var row := tickets[key];
      row := row.(total := WrapU32(row.total + q.amount));
      row := row.(stock := WrapU32(row.stock + q.amount));
      tickets := tickets[key := row];
      return Some(());
    }

    method Issue(key: Key, count: U32, now: nat) returns (r: Option<()>)
      modifies this
      ensures Applied(r, SellSpec(old(Snapshot()), key, count, now), old(Snapshot()), Snapshot())
    {
      var _ :- Check(key.0 in shows);
      var _ :- Check(count > 0);
      var _ :- Check(key in tickets);
      var row := tickets[key];
      var _ :- Check(row.stock >= count);
      var _ :- Check(now <= row.saleEndsAt);
      row := row.(sold := WrapU32(row.sold + count));
      var _ :- Check(row.sold <= row.total);
      row := row.(stock := row.stock - count);
      row := row.(issued := WrapU32(row.issued + count));
      tickets := tickets[key := row];
      return Some(());
    }

    method IssueToGrab(showId: nat, q: NAsset) returns (r: Option<()>)
      modifies this
      ensures Applied(r, LendSpec(old(Snapshot()), showId, q), old(Snapshot()), Snapshot())
    {
      var key := (showId, q.nid);
      var _ :- Check(q.amount > 0);
      var _ :- Check(showId > 0);
      var _ :- Check(key in tickets);
      var row := tickets[key];
      var _ :- Check(row.stock >= q.amount);
      tickets := tickets[key := row.(stock := row.stock - q.amount)];
      return Some(());
    }

    method OnTransferTicket(showId: nat, q: NAsset) returns (r: Option<()>)
      modifies this
      ensures Applied(r, TakeBackSpec(old(Snapshot()), showId, q), old(Snapshot()), Snapshot())
    {
      var key := (showId, q.nid);
      var _ :- Check(showId > 0);
      var _ :- Check(key in tickets);
      var row := tickets[key];
      row := row.(stock := WrapU32(row.stock + q.amount));
      var _ :- Check(row.stock <= row.total);
      tickets := tickets[key := row];
      return Some(());
    }

    method Retire(showId: nat, q: NAsset) returns (r: Option<()>)
      modifies this
      ensures Applied(r, ShrinkSpec(old(Snapshot()), showId, q), old(Snapshot()), Snapshot())
    {
      var key := (showId, q.nid);
      var _ :- Check(q.amount > 0);
      var _ :- Check(key in tickets);
      var row := tickets[key];
      var _ :- Check(row.stock >= q.amount);
      row := row.(stock := row.stock - q.amount);
      row := row.(total := WrapU32(row.total - q.amount));
      tickets := tickets[key := row];
      return Some(());
    }

    /** One inline `issue` per recipient, in order, once the stock covers them all. */
    method BatchReward(allowed: bool, recipients: seq<Name>, key: Key, count: U32) returns (r: Option<seq<(Name, U32)>>)
      ensures r.Some? <==>
                && allowed && 0 < |recipients| <= 500 && key in tickets
                && count <= (TWO_64 - 1) / |recipients| && count * |recipients| <= tickets[key].stock
      ensures r.Some? ==> |r.value| == |recipients| && forall i | 0 <= i < |recipients| :: r.value[i] == (recipients[i], count)
    {
      var _ :- Check(allowed);
      var _ :- Check(recipients != []);
      var cnt := |recipients|;
      var _ :- Check(cnt <= 500);
      var _ :- Check(key in tickets);
      var _ :- Check(count <= (TWO_64 - 1) / cnt);
      var _ :- Check(count * cnt <= tickets[key].stock);
      var issues: seq<(Name, U32)> := [];
      for i := 0 to cnt
        invariant |issues| == i
        invariant forall j | 0 <= j < i :: issues[j] == (recipients[j], count)
      {
        issues := issues + [(recipients[i], count)];
      }
      return Some(issues);
    }
  }
}
