/** Solvency in tickets over all runs of the three contracts: grab.cisum holds every ticket it owes to sales,
    upgrades and unsettled payers, and show.cisum holds every ticket it counts as stock. */
module TicketEscrow {
  import opened Eosio
  import opened Sums
  import opened TicketLedger
  import opened GrabModel
  import GrabAudit
  import opened TicketWorld
  import S = ShowModel

  /** The rows of grab.cisum are well-formed: nothing is owed a negative number of tickets, and no payer is the contract itself. */
  ghost predicate RowsOk(g: Grab) {
    && (forall id | id in g.sales :: g.sales[id].available == g.sales[id].total - g.sales[id].grabbed >= 0)
    && (forall id | id in g.upgrades :: g.upgrades[id].available == g.upgrades[id].total - g.upgrades[id].grabbed >= 0 && g.upgrades[id].pay.amount > 0)
    && (forall id, i | id in g.logs && 0 <= i < |g.logs[id]| :: g.logs[id][i].paid.amount > 0 && g.logs[id][i].account != GRAB_CISUM)
  }

  /** Escrow solvency in both contracts, ticket kind by ticket kind. */
  ghost predicate Escrowed(w: World) {
    && SupplyOk(w.nft)
    && RowsOk(w.grab)
    && (forall n: Nid {:trigger GrabDue(w.grab, n)} :: Held(w.nft, GRAB_CISUM, n) >= GrabDue(w.grab, n))
    && (forall n: Nid {:trigger ShowDue(w.show, n)} :: Held(w.nft, SHOW_CISUM, n) >= ShowDue(w.show, n))
  }

  // ---------- One row at a time ----------

  function Of(amount: int, nid: Nid, n: Nid): int { if nid == n then amount else 0 }

  lemma SaleRow(g: Grab, h: Grab, id: nat)
    requires id in h.sales && h.sales == g.sales[id := h.sales[id]] && h.upgrades == g.upgrades && h.logs == g.logs
    ensures forall n: Nid {:trigger GrabDue(h, n)} ::
              GrabDue(h, n) == GrabDue(g, n) + Of(h.sales[id].available, h.sales[id].ticketId, n)
                               - if id in g.sales then Of(g.sales[id].available, g.sales[id].ticketId, n) else 0
  {
    forall n: Nid
      ensures Sum(SaleStock(h, n)) == Sum(SaleStock(g, n)) + Of(h.sales[id].available, h.sales[id].ticketId, n)
                                      - if id in g.sales then Of(g.sales[id].available, g.sales[id].ticketId, n) else 0
    {
      var v := Of(h.sales[id].available, h.sales[id].ticketId, n);
      assert SaleStock(h, n) == SaleStock(g, n)[id := v];
      SumSet(SaleStock(g, n), id, v);
    }
    assert forall n: Nid :: UpgradeStock(h, n) == UpgradeStock(g, n) && LogStock(h, n) == LogStock(g, n);
  }

  lemma UpgradeRow(g: Grab, h: Grab, id: nat)
    requires id in h.upgrades && h.upgrades == g.upgrades[id := h.upgrades[id]] && h.sales == g.sales && h.logs == g.logs
    ensures forall n: Nid {:trigger GrabDue(h, n)} ::
              GrabDue(h, n) == GrabDue(g, n) + Of(h.upgrades[id].available, h.upgrades[id].targetId, n)
                               - if id in g.upgrades then Of(g.upgrades[id].available, g.upgrades[id].targetId, n) else 0
  {
    forall n: Nid
      ensures Sum(UpgradeStock(h, n)) == Sum(UpgradeStock(g, n)) + Of(h.upgrades[id].available, h.upgrades[id].targetId, n)
                                         - if id in g.upgrades then Of(g.upgrades[id].available, g.upgrades[id].targetId, n) else 0
    {
      var v := Of(h.upgrades[id].available, h.upgrades[id].targetId, n);
      assert UpgradeStock(h, n) == UpgradeStock(g, n)[id := v];
      SumSet(UpgradeStock(g, n), id, v);
    }
    assert forall n: Nid :: SaleStock(h, n) == SaleStock(g, n) && LogStock(h, n) == LogStock(g, n);
  }

  lemma LogRow(g: Grab, h: Grab, id: nat)
    requires id in h.logs && h.logs == g.logs[id := h.logs[id]] && h.sales == g.sales && h.upgrades == g.upgrades
    ensures forall n: Nid {:trigger GrabDue(h, n)} ::
              GrabDue(h, n) == GrabDue(g, n) + PaidIn(h.logs[id], n) - PaidIn(LogsOf(g, id), n)
  {
    forall n: Nid
      ensures Sum(LogStock(h, n)) == Sum(LogStock(g, n)) + PaidIn(h.logs[id], n) - PaidIn(LogsOf(g, id), n)
    {
      assert LogStock(h, n) == LogStock(g, n)[id := PaidIn(h.logs[id], n)];
      SumSet(LogStock(g, n), id, PaidIn(h.logs[id], n));
    }
    assert forall n: Nid :: SaleStock(h, n) == SaleStock(g, n) && UpgradeStock(h, n) == UpgradeStock(g, n);
  }

  lemma SameRows(g: Grab, h: Grab)
    requires h.sales == g.sales && h.upgrades == g.upgrades && h.logs == g.logs
    ensures forall n: Nid {:trigger GrabDue(h, n)} :: GrabDue(h, n) == GrabDue(g, n)
  {
    assert forall n: Nid :: SaleStock(h, n) == SaleStock(g, n) && UpgradeStock(h, n) == UpgradeStock(g, n) && LogStock(h, n) == LogStock(g, n);
  }

  lemma DropSale(g: Grab, h: Grab, id: nat)
    requires id in g.sales && g.sales[id].available >= 0 && h.sales == g.sales - {id} && h.upgrades == g.upgrades && h.logs == g.logs
    ensures forall n: Nid {:trigger GrabDue(h, n)} :: GrabDue(h, n) <= GrabDue(g, n)
  {
    forall n: Nid
      ensures Sum(SaleStock(h, n)) <= Sum(SaleStock(g, n))
    {
      assert SaleStock(h, n) == SaleStock(g, n) - {id};
      SumRemove(SaleStock(g, n), id);
    }
    assert forall n: Nid :: UpgradeStock(h, n) == UpgradeStock(g, n) && LogStock(h, n) == LogStock(g, n);
  }

  lemma DropUpgrade(g: Grab, h: Grab, id: nat)
    requires id in g.upgrades && g.upgrades[id].available >= 0 && h.upgrades == g.upgrades - {id} && h.sales == g.sales && h.logs == g.logs
    ensures forall n: Nid {:trigger GrabDue(h, n)} :: GrabDue(h, n) <= GrabDue(g, n)
  {
    forall n: Nid
      ensures Sum(UpgradeStock(h, n)) <= Sum(UpgradeStock(g, n))
    {
      assert UpgradeStock(h, n) == UpgradeStock(g, n) - {id};
      SumRemove(UpgradeStock(g, n), id);
    }
    assert forall n: Nid :: SaleStock(h, n) == SaleStock(g, n) && LogStock(h, n) == LogStock(g, n);
  }

  lemma ShelfRow(s: S.Show, t: S.Show, k: S.Key)
    requires k in t.tickets && t.tickets == s.tickets[k := t.tickets[k]]
    ensures forall n: Nid {:trigger ShowDue(t, n)} ::
              ShowDue(t, n) == ShowDue(s, n) + Of(t.tickets[k].stock, k.1, n) - if k in s.tickets then Of(s.tickets[k].stock, k.1, n) else 0
  {
    forall n: Nid
      ensures ShowDue(t, n) == ShowDue(s, n) + Of(t.tickets[k].stock, k.1, n) - if k in s.tickets then Of(s.tickets[k].stock, k.1, n) else 0
    {
      var v: int := Of(t.tickets[k].stock, k.1, n);
      assert ShelfStock(t, n) == ShelfStock(s, n)[k := v];
      SumSet(ShelfStock(s, n), k, v);
    }
  }

  // ---------- What each action of grab.cisum owes and sends ----------

  ghost function Sent(outs: seq<Out>, n: Nid): int {
    if outs == [] then 0
    else Sent(outs[..|outs| - 1], n) + Of(outs[|outs| - 1].asset.amount, outs[|outs| - 1].asset.nid, n)
  }

  lemma SentOne(o: Out, n: Nid)
    ensures Sent([o], n) == Of(o.asset.amount, o.asset.nid, n)
  {
    assert [o][..0] == [];
  }

  /** Dues after plus tickets sent never exceed dues before plus tickets received. */
  ghost predicate Conserves(g: Grab, h: Grab, received: NAsset, outs: seq<Out>) {
    && RowsOk(h)
    && (forall n: Nid {:trigger GrabDue(h, n)} :: GrabDue(h, n) + Sent(outs, n) <= GrabDue(g, n) + Of(received.amount, received.nid, n))
  }

  lemma PayGrabConserves(g: Grab, sha: string -> nat, from: Name, bank: Name, quantity: Asset, id: nat, grabId: string, draw: nat, now: nat)
    requires RowsOk(g) && PayGrabSpec(g, sha, from, bank, quantity, id, grabId, draw, now).Some?
    ensures var r := PayGrabSpec(g, sha, from, bank, quantity, id, grabId, draw, now).value; Conserves(g, r.0, NAsset(0, 0), r.1)
  {
    hide Wins, OrderHashTaken, HasWon, WrapU32, GrabDue;
    var r := PayGrabSpec(g, sha, from, bank, quantity, id, grabId, draw, now).value;
    SaleRow(g, r.0, id);
    forall n: Nid
      ensures Sent(r.1, n) == if r.1 == [] then 0 else Of(1, g.sales[id].ticketId, n)
    {
      if r.1 != [] {
        SentOne(r.1[0], n);
      }
    }
  }

  lemma JoinKeepsRows(g: Grab, sha: string -> nat, from: Name, tickets: NAsset, id: nat, grabId: string, draw: nat, now: nat)
    requires from != GRAB_CISUM && RowsOk(g) && JoinUpgradeSpec(g, sha, from, tickets, id, grabId, draw, now).Some?
    ensures RowsOk(JoinUpgradeSpec(g, sha, from, tickets, id, grabId, draw, now).value.0)
  {
    hide Wins, LogHashTaken, HasWonUpgrade, WrapU32, InRange;
  }

  lemma OneLogMore(logs: seq<Log>, log: Log)
    ensures forall n: Nid :: PaidIn(logs + [log], n) == PaidIn(logs, n) + Of(log.paid.amount, log.paid.nid, n)
  {
    assert (logs + [log])[..|logs|] == logs;
  }

  /** What joining does to the tables and the queue, in terms of whether it wins. */
  lemma JoinEffect(g: Grab, sha: string -> nat, from: Name, tickets: NAsset, id: nat, grabId: string, draw: nat, now: nat) returns (win: bool, log: Log)
    requires RowsOk(g) && JoinUpgradeSpec(g, sha, from, tickets, id, grabId, draw, now).Some?
    ensures var r := JoinUpgradeSpec(g, sha, from, tickets, id, grabId, draw, now).value; var h := r.0;
            && id in g.upgrades && id in h.upgrades
            && h.sales == g.sales && h.upgrades == g.upgrades[id := h.upgrades[id]] && h.logs == g.logs[id := LogsOf(g, id) + [log]]
            && h.upgrades[id].targetId == g.upgrades[id].targetId
            && h.upgrades[id].available == g.upgrades[id].available - (if win then 1 else 0)
            && r.1 == (if win then [Out(from, NAsset(1, g.upgrades[id].targetId))] else [])
            && log.paid == tickets
  {
    UpgradeRowStands(g, id);
    hide LogHashTaken, HasWonUpgrade, WrapU32, RowsOk, InRange;
    win := Wins(g.upgrades[id].winRatio, draw);
    log := Log(g.lastOrderId + 1, grabId, from, tickets, NAsset(if win then 1 else 0, g.upgrades[id].targetId));
  }

  lemma JoinConserves(g: Grab, sha: string -> nat, from: Name, tickets: NAsset, id: nat, grabId: string, draw: nat, now: nat)
    requires from != GRAB_CISUM && RowsOk(g) && JoinUpgradeSpec(g, sha, from, tickets, id, grabId, draw, now).Some?
    ensures var r := JoinUpgradeSpec(g, sha, from, tickets, id, grabId, draw, now).value; Conserves(g, r.0, tickets, r.1)
  {
    JoinKeepsRows(g, sha, from, tickets, id, grabId, draw, now);
    hide JoinUpgradeSpec, GrabDue, RowsOk, PaidIn, Sent;
    var win, log := JoinEffect(g, sha, from, tickets, id, grabId, draw, now);
    var r := JoinUpgradeSpec(g, sha, from, tickets, id, grabId, draw, now).value;
    var middle := g.(upgrades := r.0.upgrades);
    UpgradeRow(g, middle, id);
    LogRow(middle, r.0, id);
    OneLogMore(LogsOf(g, id), log);
    forall n: Nid
      ensures Sent(r.1, n) == if win then Of(1, g.upgrades[id].targetId, n) else 0
    {
      NothingSent(n);
      SentOne(Out(from, NAsset(1, g.upgrades[id].targetId)), n);
    }
  }

  lemma NothingSent(n: Nid)
    ensures Sent([], n) == 0
  {
  }

  lemma UpgradeRowStands(g: Grab, id: nat)
    requires RowsOk(g)
    ensures id in g.upgrades ==> g.upgrades[id].available == g.upgrades[id].total - g.upgrades[id].grabbed
  {
  }

  lemma StockConserves(g: Grab, tickets: NAsset, id: nat)
    requires RowsOk(g)
    ensures AddStockSpec(g, tickets, id).Some? ==> Conserves(g, AddStockSpec(g, tickets, id).value, tickets, [])
    ensures AddUpgradeStockSpec(g, tickets, id).Some? ==> Conserves(g, AddUpgradeStockSpec(g, tickets, id).value, tickets, [])
  {
    hide GrabDue;
    if AddStockSpec(g, tickets, id).Some? {
      SaleRow(g, AddStockSpec(g, tickets, id).value, id);
    }
    if AddUpgradeStockSpec(g, tickets, id).Some? {
      UpgradeRow(g, AddUpgradeStockSpec(g, tickets, id).value, id);
    }
  }

  lemma OnTicketConserves(g: Grab, sha: string -> nat, from: Name, assets: seq<NAsset>, memo: Memo, draw: nat, now: nat)
    requires from != GRAB_CISUM && RowsOk(g) && OnTicketSpec(g, sha, from, assets, memo, draw, now).Some?
    ensures assets != []
    ensures var r := OnTicketSpec(g, sha, from, assets, memo, draw, now).value; Conserves(g, r.0, assets[0], r.1)
  {
    hide JoinUpgradeSpec, AddStockSpec, AddUpgradeStockSpec, Conserves, RowsOk;
    match memo
    case AddToSale(id) => StockConserves(g, assets[0], id);
    case AddToUpgrade(id) => StockConserves(g, assets[0], id);
    case JoinUpgrade(id, grabId) => JoinConserves(g, sha, from, assets[0], id, grabId, draw, now);
    case _ =>
  }

  lemma SubGrabConserves(g: Grab, authorized: bool, kind: RushType, id: nat, tickets: NAsset)
    requires RowsOk(g) && SubGrabSpec(g, authorized, kind, id, tickets).Some?
    ensures Conserves(g, SubGrabSpec(g, authorized, kind, id, tickets).value.0, NAsset(-tickets.amount, tickets.nid), [])
  {
    hide GrabDue;
    var h := SubGrabSpec(g, authorized, kind, id, tickets).value.0;
    if kind.RushSale? {
      SaleRow(g, h, id);
    } else {
      UpgradeRow(g, h, id);
    }
  }

  lemma {:induction false} PaidInSplit(a: seq<Log>, b: seq<Log>, n: Nid)
    ensures PaidIn(a + b, n) == PaidIn(a, n) + PaidIn(b, n)
  {
    if b == [] {
      assert a + b == a;
    } else {
      var init := b[..|b| - 1];
      PaidInSplit(a, init, n);
      assert (a + b)[..|a + b| - 1] == a + init;
    }
  }

  lemma SentLast(outs: seq<Out>, o: Out, n: Nid)
    ensures Sent(outs + [o], n) == Sent(outs, n) + Of(o.asset.amount, o.asset.nid, n)
  {
    assert (outs + [o])[..|outs|] == outs;
  }

  lemma {:induction false} SettlementPaysAll(logs: seq<Log>, n: Nid)
    ensures Sent(SettleAll(logs), n) == PaidIn(logs, n)
  {
    if logs != [] {
      var init, last := logs[..|logs| - 1], logs[|logs| - 1];
      SettlementPaysAll(init, n);
      SentLast(SettleAll(init), Settle(last), n);
    }
  }

  /** What settling a page of logs does to the dues. */
  lemma SettledLogs(g: Grab, middle: Grab, id: nat, k: nat)
    requires k <= |LogsOf(g, id)| && middle == g.(logs := g.logs[id := LogsOf(g, id)[k..]])
    ensures forall n: Nid {:trigger GrabDue(middle, n)} :: GrabDue(middle, n) + Sent(SettleAll(LogsOf(g, id)[..k]), n) == GrabDue(g, n)
  {
    hide GrabDue, SettleAll, LogsOf, Sent, PaidIn;
    var logs := LogsOf(g, id);
    LogRow(g, middle, id);
    assert logs[..k] + logs[k..] == logs;
    forall n: Nid
      ensures GrabDue(middle, n) + Sent(SettleAll(logs[..k]), n) == GrabDue(g, n)
    {
      SettlementPaysAll(logs[..k], n);
      PaidInSplit(logs[..k], logs[k..], n);
    }
  }

  lemma DelUpgradeConserves(g: Grab, authorized: bool, id: nat, now: nat)
    requires RowsOk(g) && DelUpgradeSpec(g, authorized, id, now).Some?
    ensures var r := DelUpgradeSpec(g, authorized, id, now).value; Conserves(g, r.0, NAsset(0, 0), r.1)
  {
    hide GrabDue, SettleAll, Sent;
    var r := DelUpgradeSpec(g, authorized, id, now).value;
    var logs := LogsOf(g, id);
    var k := Min(MAX_UPGRADE, |logs|);
    var middle := g.(logs := g.logs[id := logs[k..]]);
    SettledLogs(g, middle, id, k);
    if id in r.0.upgrades {
      SameRows(middle, r.0);
    } else {
      DropUpgrade(middle, r.0, id);
    }
  }

  lemma DelSaleConserves(g: Grab, authorized: bool, id: nat, forced: bool, now: nat)
    requires RowsOk(g)
    ensures Conserves(g, After(DelSaleSpec(g, authorized, id, forced, now), g), NAsset(0, 0), [])
  {
    hide GrabDue, DelSaleSpec;
    GrabAudit.DelSaleEffect(g, authorized, id, forced, now);
    var h := After(DelSaleSpec(g, authorized, id, forced, now), g);
    assert h.logs == g.logs && h.upgrades == g.upgrades;
    if h.sales == g.sales {
      SameRows(g, h);
    } else {
      DropSale(g, h, id);
    }
    assert RowsOk(h);
    forall n: Nid
      ensures GrabDue(h, n) + Sent([], n) <= GrabDue(g, n) + Of(0, 0, n)
    {
    }
  }

  /** A row of sales that is new and empty, or has kept its ticket and its counters. */
  ghost predicate SaleSetUp(g: Grab, h: Grab, id: nat) {
    && id in h.sales && h.sales == g.sales[id := h.sales[id]]
    && (var t := h.sales[id];
        if id in g.sales then
          var s := g.sales[id];
          t.ticketId == s.ticketId && t.total == s.total && t.available == s.available && t.grabbed == s.grabbed
        else
          t.total == t.available == t.grabbed == 0)
  }

  ghost predicate UpgradeSetUp(g: Grab, h: Grab, id: nat) {
    && id in h.upgrades && h.upgrades == g.upgrades[id := h.upgrades[id]] && h.upgrades[id].pay.amount > 0
    && (var t := h.upgrades[id];
        if id in g.upgrades then
          var s := g.upgrades[id];
          t.targetId == s.targetId && t.total == s.total && t.available == s.available && t.grabbed == s.grabbed
        else
          t.total == t.available == t.grabbed == 0)
  }

  lemma SetUpConserves(g: Grab, h: Grab, id: nat)
    requires RowsOk(g)
    requires h.logs == g.logs && (h.sales == g.sales || h.upgrades == g.upgrades)
    requires h.sales != g.sales ==> SaleSetUp(g, h, id)
    requires h.upgrades != g.upgrades ==> UpgradeSetUp(g, h, id)
    ensures Conserves(g, h, NAsset(0, 0), [])
  {
    hide GrabDue;
    if h.sales != g.sales {
      SaleRow(g, h, id);
    } else if h.upgrades != g.upgrades {
      UpgradeRow(g, h, id);
    } else {
      SameRows(g, h);
    }
  }
}
