/** What the tables of grab.cisum say about a rush sale, and how many clean-up calls a sale or an upgrade needs. */
module GrabAudit {
  import opened Eosio
  import opened TicketLedger
  import opened GrabModel
  import SafeMath

  // ---------- The books of one sale ----------

  function WinsIn(orders: seq<Order>): nat {
    if orders == [] then 0
    else WinsIn(orders[..|orders| - 1]) + if orders[|orders| - 1].tickets > 0 then 1 else 0
  }

  function OrdersBy(orders: seq<Order>, account: Name): nat {
    if orders == [] then 0
    else OrdersBy(orders[..|orders| - 1], account) + if orders[|orders| - 1].account == account then 1 else 0
  }

  ghost predicate OrdersOk(orders: seq<Order>) {
    && (forall i | 0 <= i < |orders| :: orders[i].tickets == 0 || orders[i].tickets == 1)
    && (forall i, j | 0 <= i < j < |orders| :: orders[i].grabId != orders[j].grabId)
    && (forall i, j | 0 <= i < j < |orders| :: orders[i].tickets > 0 ==> orders[j].account != orders[i].account)
  }

  /** Tickets left are those supplied minus those won; the counters match the orders; every user's stat is that user's
      order count, and there is no stat of zero; grab ids are distinct; a user who has won places no further order. */
  ghost predicate BooksOk(sale: Sale, orders: seq<Order>, stats: map<Name, nat>) {
    && sale.available == sale.total - sale.grabbed && sale.available >= 0
    && sale.maxGrabs > 0
    && sale.totalGrabs == WrapU32(|orders|)
    && sale.grabbed == WinsIn(orders)
    && (forall u: Name :: GrabsBy(stats, u) == OrdersBy(orders, u))
    && (forall u | u in stats :: stats[u] > 0)
    && OrdersOk(orders)
  }

  ghost predicate Audited(g: Grab, id: nat) {
    id in g.sales ==> BooksOk(g.sales[id], OrdersOf(g, id), StatsOf(g, id))
  }

  /** Ids in use were handed out by the counter, so a new row starts with empty tables. */
  ghost predicate IdsOk(g: Grab) {
    && (forall id | id in g.sales :: id <= g.lastSaleId)
    && (forall id | id in g.upgrades :: id <= g.lastSaleId)
    && (forall id | id in g.orders :: id <= g.lastSaleId)
    && (forall id | id in g.stats :: id <= g.lastSaleId)
    && (forall id | id in g.logs :: id <= g.lastSaleId)
  }

  /** A user with a winning order has no other: at most one win each. */
  lemma OneWinEach(orders: seq<Order>, i: nat, j: nat)
    requires OrdersOk(orders) && i < |orders| && j < |orders| && i != j
    requires orders[i].tickets > 0 && orders[j].tickets > 0
    ensures orders[i].account != orders[j].account
  {
  }

  // ---------- One order more ----------

  lemma OneMoreOrder(orders: seq<Order>, o: Order)
    ensures WinsIn(orders + [o]) == WinsIn(orders) + if o.tickets > 0 then 1 else 0
    ensures forall u: Name :: OrdersBy(orders + [o], u) == OrdersBy(orders, u) + if o.account == u then 1 else 0
  {
    assert (orders + [o])[..|orders|] == orders;
  }

  lemma FairOrderMore(orders: seq<Order>, sha: string -> nat, o: Order)
    requires OrdersOk(orders) && (o.tickets == 0 || o.tickets == 1)
    requires !OrderHashTaken(sha, orders, o.grabId) && !HasWon(orders, o.account)
    ensures OrdersOk(orders + [o])
  {
    assert forall i | 0 <= i < |orders| :: sha(orders[i].grabId) != sha(o.grabId);
    assert forall i | 0 <= i < |orders| :: orders[i].tickets > 0 ==> orders[i].account != o.account;
  }

  /** The books stand after one more order by an account that has not won, under an unused grab id. */
  lemma OneOrderKeepsBooks(sale: Sale, orders: seq<Order>, stats: map<Name, nat>, sha: string -> nat, o: Order)
    requires BooksOk(sale, orders, stats)
    requires o.tickets == 0 || (o.tickets == 1 && sale.available > 0)
    requires !OrderHashTaken(sha, orders, o.grabId) && !HasWon(orders, o.account)
    requires GrabsBy(stats, o.account) < sale.maxGrabs
    ensures BooksOk(sale.(totalGrabs := WrapU32(sale.totalGrabs + 1), grabbed := sale.grabbed + o.tickets, available := sale.total - (sale.grabbed + o.tickets)),
                    orders + [o], stats[o.account := WrapU32(GrabsBy(stats, o.account) + 1)])
  {
    hide OrdersOk, OrdersBy, WinsIn, OrderHashTaken, HasWon;
    OneMoreOrder(orders, o);
    FairOrderMore(orders, sha, o);
    var after := stats[o.account := WrapU32(GrabsBy(stats, o.account) + 1)];
    forall u: Name
      ensures GrabsBy(after, u) == OrdersBy(orders + [o], u)
    {
      assert GrabsBy(stats, u) == OrdersBy(orders, u);
    }
  }

  lemma PayGrabKeepsBooks(g: Grab, sha: string -> nat, from: Name, bank: Name, quantity: Asset, id: nat, grabId: string, draw: nat, now: nat)
    requires Audited(g, id) && PayGrabSpec(g, sha, from, bank, quantity, id, grabId, draw, now).Some?
    ensures Audited(PayGrabSpec(g, sha, from, bank, quantity, id, grabId, draw, now).value.0, id)
  {
    hide Wins, BooksOk, WrapU32, OrderHashTaken, HasWon;
    var win := Wins(g.sales[id].winRatio, draw);
    var sale, stats := g.sales[id], StatsOf(g, id);
    SaleTakesOrders(sale, OrdersOf(g, id), stats);
    OneOrderKeepsBooks(sale, OrdersOf(g, id), stats, sha, Order(g.lastOrderId + 1, grabId, from, if win then 1 else 0));
  }

  lemma SaleTakesOrders(sale: Sale, orders: seq<Order>, stats: map<Name, nat>)
    requires BooksOk(sale, orders, stats)
    ensures sale.maxGrabs > 0 && sale.available == sale.total - sale.grabbed
  {
  }

  // ---------- Every other action ----------

  /** The tables of sale `id` and its row are as before, up to settings and stock. */
  ghost predicate SaleUntouched(g: Grab, h: Grab, id: nat) {
    && OrdersOf(h, id) == OrdersOf(g, id) && StatsOf(h, id) == StatsOf(g, id)
    && (id in h.sales <==> id in g.sales)
    && (id in g.sales ==>
          && h.sales[id].available - g.sales[id].available == h.sales[id].total - g.sales[id].total
          && h.sales[id].available >= 0
          && h.sales[id].grabbed == g.sales[id].grabbed && h.sales[id].totalGrabs == g.sales[id].totalGrabs
          && h.sales[id].maxGrabs > 0)
  }

  lemma UntouchedKeepsBooks(g: Grab, h: Grab, id: nat)
    requires Audited(g, id) && SaleUntouched(g, h, id)
    ensures Audited(h, id)
  {
  }

  lemma AddSaleKeepsBooks(g: Grab, authorized: bool, ticketExists: bool, sale: Sale, id: nat)
    requires Audited(g, id) && IdsOk(g) && AddSaleSpec(g, authorized, ticketExists, sale).Some?
    ensures Audited(AddSaleSpec(g, authorized, ticketExists, sale).value, id)
  {
    var h := AddSaleSpec(g, authorized, ticketExists, sale).value;
    if id == h.lastSaleId {
      assert OrdersOf(h, id) == [] && StatsOf(h, id) == map[];
    } else {
      UntouchedKeepsBooks(g, h, id);
    }
  }

  lemma SetSaleKeepsBooks(g: Grab, authorized: bool, which: nat, price: Maybe<Asset>, maxGrabs: Maybe<U32>, winRatio: Maybe<U32>,
                          startedAt: Maybe<nat>, endedAt: Maybe<nat>, id: nat)
    requires Audited(g, id)
    ensures Audited(After(SetSaleSpec(g, authorized, which, price, maxGrabs, winRatio, startedAt, endedAt), g), id)
  {
    if id in g.sales {
      UntouchedKeepsBooks(g, After(SetSaleSpec(g, authorized, which, price, maxGrabs, winRatio, startedAt, endedAt), g), id);
    }
  }

  lemma StockKeepsBooks(g: Grab, tickets: NAsset, which: nat, authorized: bool, kind: RushType, id: nat)
    requires Audited(g, id)
    ensures Audited(After(AddStockSpec(g, tickets, which), g), id)
    ensures SubGrabSpec(g, authorized, kind, which, tickets).Some? ==> Audited(SubGrabSpec(g, authorized, kind, which, tickets).value.0, id)
  {
    hide BooksOk;
    if id in g.sales {
      SaleHasStock(g, id);
      StockIn(g, tickets, which, id);
      if SubGrabSpec(g, authorized, kind, which, tickets).Some? {
        StockOut(g, tickets, which, authorized, kind, id);
      }
    }
  }

  lemma SaleHasStock(g: Grab, id: nat)
    requires Audited(g, id) && id in g.sales
    ensures g.sales[id].available == g.sales[id].total - g.sales[id].grabbed >= 0 && g.sales[id].maxGrabs > 0
  {
  }

  lemma StockIn(g: Grab, tickets: NAsset, which: nat, id: nat)
    requires Audited(g, id) && id in g.sales && g.sales[id].available == g.sales[id].total - g.sales[id].grabbed >= 0 && g.sales[id].maxGrabs > 0
    ensures Audited(After(AddStockSpec(g, tickets, which), g), id)
  {
    hide BooksOk, InRange, Audited;
    UntouchedKeepsBooks(g, After(AddStockSpec(g, tickets, which), g), id);
  }

  lemma StockOut(g: Grab, tickets: NAsset, which: nat, authorized: bool, kind: RushType, id: nat)
    requires Audited(g, id) && id in g.sales && g.sales[id].available == g.sales[id].total - g.sales[id].grabbed >= 0 && g.sales[id].maxGrabs > 0
    requires SubGrabSpec(g, authorized, kind, which, tickets).Some?
    ensures Audited(SubGrabSpec(g, authorized, kind, which, tickets).value.0, id)
  {
    hide BooksOk, InRange, Audited;
    UntouchedKeepsBooks(g, SubGrabSpec(g, authorized, kind, which, tickets).value.0, id);
  }

  lemma DelSaleRows(g: Grab, authorized: bool, which: nat, forced: bool, now: nat)
    ensures var h := After(DelSaleSpec(g, authorized, which, forced, now), g);
            && h == g.(orders := h.orders, stats := h.stats, sales := h.sales)
            && (h == g || which in g.sales)
            && (h.sales == g.sales || h.sales == g.sales - {which})
            && (h.orders == g.orders || (which in h.orders && h.orders == g.orders[which := h.orders[which]]))
            && (h.stats == g.stats || (which in h.stats && h.stats == g.stats[which := h.stats[which]]))
  {
    hide DropRows, OrdersOf, StatsOf, Min;
  }

  /** A `delrushsale` call touches the tables of its own sale, and nothing else. */
  lemma DelSaleEffect(g: Grab, authorized: bool, which: nat, forced: bool, now: nat)
    ensures var h := After(DelSaleSpec(g, authorized, which, forced, now), g);
            && h.upgrades == g.upgrades && h.logs == g.logs && h.lastSaleId == g.lastSaleId
            && (h == g || which in g.sales)
            && (h.sales == g.sales || (which in g.sales && h.sales == g.sales - {which}))
            && (forall i | i != which :: OrdersOf(h, i) == OrdersOf(g, i) && StatsOf(h, i) == StatsOf(g, i))
            && (forall i | i in h.orders :: i in g.orders || i == which)
            && (forall i | i in h.stats :: i in g.stats || i == which)
  {
    hide DelSaleSpec;
    DelSaleRows(g, authorized, which, forced, now);
  }

  lemma DelOtherSaleKeepsBooks(g: Grab, authorized: bool, which: nat, forced: bool, now: nat, id: nat)
    requires Audited(g, id) && id != which
    ensures Audited(After(DelSaleSpec(g, authorized, which, forced, now), g), id)
  {
    hide DelSaleSpec, BooksOk, OrdersOf, StatsOf;
    DelSaleEffect(g, authorized, which, forced, now);
  }

  // ---------- Pages ----------

  /** Calls that a table of `n` rows needs when each removes up to `page` rows, and even an empty one needs a look. */
  function Pages(n: nat, page: nat): nat
    requires page > 0
  {
    if n == 0 then 1 else (n + page - 1) / page
  }

  lemma PagesPositive(n: nat, page: nat)
    requires page > 0
    ensures Pages(n, page) >= 1
  {
    if n > 0 {
      SafeMath.QuotientMonotone(page, n + page - 1, page);
    }
  }

  lemma OneRowLess(m: map<Name, nat>, k: Name)
    requires k in m
    ensures |m - {k}| == |m| - 1
  {
    assert (m - {k}).Keys == m.Keys - {k};
    assert |m| == |m.Keys| && |m - {k}| == |(m - {k}).Keys|;
  }

  lemma DropOneSize(m: map<Name, nat>, n: nat)
    requires n > 0
    ensures |DropRows(m, n)| == if |DropRows(m, n - 1)| == 0 then 0 else |DropRows(m, n - 1)| - 1
  {
    hide Lowest;
    var r := DropRows(m, n - 1);
    if r != map[] {
      OneRowLess(r, Lowest(r.Keys));
    }
  }

  lemma {:induction false} DropRowsSize(m: map<Name, nat>, n: nat)
    ensures |DropRows(m, n)| == if |m| <= n then 0 else |m| - n
  {
    hide DropRows;
    if n == 0 {
      DropNone(m);
    } else {
      DropRowsSize(m, n - 1);
      DropOneSize(m, n);
    }
  }

  lemma DropNone(m: map<Name, nat>)
    ensures DropRows(m, 0) == m
  {
  }
}
