/** The contract object of grab.cisum: taking part, stock, and the paged clean-up loops. */
module GrabContract {
  import opened Eosio
  import opened TicketLedger
  import opened GrabModel

  lemma {:induction false} NothingLeftToDrop(m: map<Name, nat>, n: nat, k: nat)
    requires n <= k && DropRows(m, n) == map[]
    ensures DropRows(m, k) == map[]
  {
    if n < k {
      NothingLeftToDrop(m, n, k - 1);
    }
  }

  class GrabCisum {
    var lastSaleId: nat
    var lastOrderId: nat
    var tokens: map<Symbol, Name>
    var sales: map<nat, Sale>
    var orders: map<nat, seq<Order>>
    var stats: map<nat, map<Name, nat>>
    var upgrades: map<nat, Upgrade>
    var logs: map<nat, seq<Log>>

    ghost function Snapshot(): Grab
      reads this
    {
      Grab(lastSaleId, lastOrderId, tokens, sales, orders, stats, upgrades, logs)
    }

    constructor ()
      ensures Snapshot() == Grab(1, 1, map[], map[], map[], map[], map[], map[])
    {
      lastSaleId, lastOrderId := 1, 1;
      tokens, sales, orders, stats, upgrades, logs := map[], map[], map[], map[], map[], map[];
    }

    method Draw(winRatio: U32, hashWord: nat) returns (win: bool)
      ensures win == Wins(winRatio, hashWord)
    {
      win := false;
      if winRatio > 0 {
        win := hashWord % RATIO_BASE < winRatio;
      }
    }

    method OnTransferCisum(sha: string -> nat, from: Name, bank: Name, quantity: Asset, id: nat, grabId: string, draw: nat, now: nat)
      returns (r: Option<seq<Out>>)
      modifies this
      ensures AppliedWith(r, PayGrabSpec(old(Snapshot()), sha, from, bank, quantity, id, grabId, draw, now), old(Snapshot()), Snapshot())
    {
      hide OrderHashTaken, HasWon, Wins, InRange, WrapU32;
      var _ :- Check(quantity.sym in tokens && tokens[quantity.sym] == bank);
      var _ :- Check(id in sales);
      var sale := sales[id];
      var _ :- Check(sale.startedAt <= now && now <= sale.endedAt);
      var _ :- Check(sale.available > 0 && quantity == sale.price);
      var placed := if id in orders then orders[id] else [];
      var _ :- Check(!OrderHashTaken(sha, placed, grabId));
      var users := if id in stats then stats[id] else map[];
      var used := if from in users then users[from] else 0;
      if sale.maxGrabs > 0 {
        var _ :- Check(used < sale.maxGrabs);
      }
      var _ :- Check(!HasWon(placed, from));
      var win := Draw(sale.winRatio, draw);
      var next := lastOrderId + 1;
      var outs: seq<Out> := [];
      sale := sale.(totalGrabs := WrapU32(sale.totalGrabs + 1));
      if win {
        var _ :- Check(InRange(sale.total - (sale.grabbed + 1)));
        outs := [Out(from, NAsset(1, sale.ticketId))];
        sale := sale.(grabbed := sale.grabbed + 1);
        sale := sale.(available := sale.total - sale.grabbed);
      }
      lastOrderId := next;
      orders := orders[id := placed + [Order(next, grabId, from, if win then 1 else 0)]];
      stats := stats[id := users[from := WrapU32(used + 1)]];
      sales := sales[id := sale];
      return Some(outs);
    }

    method ProcessAddRushSale(tickets: NAsset, id: nat) returns (r: Option<()>)
      modifies this
      ensures Applied(r, AddStockSpec(old(Snapshot()), tickets, id), old(Snapshot()), Snapshot())
    {
      var _ :- Check(id in sales);
      var sale := sales[id];
      var _ :- Check(tickets.nid == sale.ticketId);
      var _ :- Check(tickets.amount > 0);
      var _ :- Check(InRange(sale.total + tickets.amount));
      sale := sale.(total := sale.total + tickets.amount);
      var _ :- Check(InRange(sale.total - sale.grabbed));
      sales := sales[id := sale.(available := sale.total - sale.grabbed)];
      return Some(());
    }

    method ProcessAddRushUpgrade(tickets: NAsset, id: nat) returns (r: Option<()>)
      modifies this
      ensures Applied(r, AddUpgradeStockSpec(old(Snapshot()), tickets, id), old(Snapshot()), Snapshot())
    {
      var _ :- Check(id in upgrades);
      var up := upgrades[id];
      var _ :- Check(tickets.nid == up.targetId);
      var _ :- Check(tickets.amount > 0);
      var _ :- Check(InRange(up.total + tickets.amount));
      up := up.(total := up.total + tickets.amount);
      var _ :- Check(InRange(up.total - up.grabbed));
      upgrades := upgrades[id := up.(available := up.total - up.grabbed)];
      return Some(());
    }

    method ProcessRushUpgrade(sha: string -> nat, from: Name, tickets: NAsset, id: nat, grabId: string, draw: nat, now: nat)
      returns (r: Option<seq<Out>>)
      modifies this
      ensures AppliedWith(r, JoinUpgradeSpec(old(Snapshot()), sha, from, tickets, id, grabId, draw, now), old(Snapshot()), Snapshot())
    {
      hide LogHashTaken, HasWonUpgrade, Wins, InRange, WrapU32;
      var _ :- Check(id in upgrades);
      var up := upgrades[id];
      var _ :- Check(up.startedAt <= now);
      var _ :- Check(now <= up.endedAt);
      var _ :- Check(up.available > 0);
      var _ :- Check(tickets == up.pay);
      var joined := if id in logs then logs[id] else [];
      var _ :- Check(!LogHashTaken(sha, joined, grabId));
      var _ :- Check(!HasWonUpgrade(joined, from));
      var win := Draw(up.winRatio, draw);
      var prize := NAsset(if win then 1 else 0, up.targetId);
      var outs: seq<Out> := [];
      up := up.(totalGrabs := WrapU32(up.totalGrabs + 1));
      if win {
        var _ :- Check(InRange(up.total - (up.grabbed + 1)));
        up := up.(grabbed := up.grabbed + 1);
        up := up.(available := up.total - up.grabbed);
        outs := [Out(from, prize)];
      }
      lastOrderId := lastOrderId + 1;
      logs := logs[id := joined + [Log(lastOrderId, grabId, from, tickets, prize)]];
      upgrades := upgrades[id := up];
      return Some(outs);
    }

    method OnTransferTicket(sha: string -> nat, from: Name, assets: seq<NAsset>, memo: Memo, draw: nat, now: nat) returns (r: Option<seq<Out>>)
      modifies this
      ensures AppliedWith(r, OnTicketSpec(old(Snapshot()), sha, from, assets, memo, draw, now), old(Snapshot()), Snapshot())
    {
      hide AddStockSpec, AddUpgradeStockSpec, JoinUpgradeSpec;
      var _ :- Check(assets != []);
      var tickets := assets[0];
      match memo
      case AddToSale(id) =>
        var _ :- ProcessAddRushSale(tickets, id);
        return Some([]);
      case AddToUpgrade(id) =>
        var _ :- ProcessAddRushUpgrade(tickets, id);
        return Some([]);
      case JoinUpgrade(id, grabId) =>
        r := ProcessRushUpgrade(sha, from, tickets, id, grabId, draw, now);
      case _ =>
        return Abort;
    }

    method SubGrab(authorized: bool, kind: RushType, id: nat, tickets: NAsset) returns (r: Option<nat>)
      modifies this
      ensures AppliedWith(r, SubGrabSpec(old(Snapshot()), authorized, kind, id, tickets), old(Snapshot()), Snapshot())
    {
      var _ :- Check(authorized);
      var _ :- Check(tickets.amount > 0);
      var showId := 0;
      match kind
      case RushSale =>
        var _ :- Check(id in sales);
        var sale := sales[id];
        var _ :- Check(tickets.nid == sale.ticketId);
        var _ :- Check(tickets.amount <= sale.available);
        var _ :- Check(InRange(sale.total - tickets.amount) && InRange(sale.available - tickets.amount));
        showId := sale.showId;
        sales := sales[id := sale.(total := sale.total - tickets.amount, available := sale.available - tickets.amount)];
        return Some(showId);
      case RushUpgrade =>
        var _ :- Check(id in upgrades);
        var up := upgrades[id];
        var _ :- Check(tickets.nid == up.targetId);
        var _ :- Check(tickets.amount <= up.available);
        var _ :- Check(InRange(up.total - tickets.amount) && InRange(up.available - tickets.amount));
        showId := up.showId;
        upgrades := upgrades[id := up.(total := up.total - tickets.amount, available := up.available - tickets.amount)];
        return Some(showId);
      case OtherType =>
        return Abort;
    }

    method DelRushSale(authorized: bool, id: nat, forced: bool, now: nat) returns (r: Option<()>)
      modifies this
      ensures Applied(r, DelSaleSpec(old(Snapshot()), authorized, id, forced, now), old(Snapshot()), Snapshot())
    {
      hide Lowest;
      var _ :- Check(authorized);
      var _ :- Check(id in sales);
      var isActive := sales[id].startedAt <= now && now <= sales[id].endedAt;
      var _ :- Check(forced || !isActive);
      var placed := if id in orders then orders[id] else [];
      ghost var allOrders := placed;
      var cnt := 0;
      while placed != [] && cnt < MAX_CLEAR
        invariant cnt <= |allOrders| && cnt <= MAX_CLEAR
        invariant placed == allOrders[cnt..]
      {
        placed := placed[1..];
        cnt := cnt + 1;
      }
      orders := orders[id := placed];
      if placed != [] {
        return Some(());
      }
      var users := if id in stats then stats[id] else map[];
      ghost var allUsers := users;
      cnt := 0;
      while users != map[] && cnt < MAX_CLEAR
        invariant cnt <= MAX_CLEAR
        invariant users == DropRows(allUsers, cnt)
      {
        users := users - {Lowest(users.Keys)};
        cnt := cnt + 1;
      }
      if users == map[] {
        NothingLeftToDrop(allUsers, cnt, MAX_CLEAR);
      }
      stats := stats[id := users];
      if users != map[] {
        return Some(());
      }
      sales := sales - {id};
      return Some(());
    }

    method DelUpgrade(authorized: bool, id: nat, now: nat) returns (r: Option<seq<Out>>)
      modifies this
      ensures AppliedWith(r, DelUpgradeSpec(old(Snapshot()), authorized, id, now), old(Snapshot()), Snapshot())
    {
      hide Settle;
      var _ :- Check(authorized);
      var _ :- Check(id in upgrades);
      var _ :- Check(now > upgrades[id].endedAt);
      var joined := if id in logs then logs[id] else [];
      ghost var allLogs := joined;
      var outs: seq<Out> := [];
      var cnt := 0;
      while joined != [] && cnt < MAX_UPGRADE
        invariant cnt <= |allLogs| && cnt <= MAX_UPGRADE
        invariant joined == allLogs[cnt..]
        invariant outs == SettleAll(allLogs[..cnt])
      {
        var log := joined[0];
        outs := outs + [Settle(log)];
        joined := joined[1..];
        cnt := cnt + 1;
        assert allLogs[..cnt][..cnt - 1] == allLogs[..cnt - 1];
      }
      logs := logs[id := joined];
      if joined != [] {
        return Some(outs);
      }
      upgrades := upgrades - {id};
      return Some(outs);
    }
  }
}
