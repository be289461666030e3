/** grab.cisum: rush sales and ticket upgrades, as a transition system. Actions queue their outgoing tickets
    as `Out`s, which the chain executes after them. */
module GrabModel {
  import opened Eosio
  import opened TicketLedger

  type U32 = n: nat | n < TWO_32

  const RATIO_BASE: nat := 10_000
  const MAX_CLEAR: nat := 1000
  const MAX_UPGRADE: nat := 100

  datatype Maybe<+T> = Absent | Present(value: T)

  datatype Sale = Sale(
    showId: nat, ticketId: Nid, startedAt: nat, endedAt: nat, price: Asset, maxGrabs: U32, winRatio: U32,
    total: int, available: int, grabbed: int, totalGrabs: U32)

  /** `tickets` is 1 for a winning order, 0 otherwise. */
  datatype Order = Order(id: nat, grabId: string, account: Name, tickets: int)

  datatype Upgrade = Upgrade(
    showId: nat, targetId: Nid, pay: NAsset, startedAt: nat, endedAt: nat, winRatio: U32,
    total: int, available: int, grabbed: int, totalGrabs: U32)

  datatype Log = Log(id: nat, grabId: string, account: Name, paid: NAsset, won: NAsset)

  datatype Out = Out(to: Name, asset: NAsset)

  /** Orders and logs are kept in primary-key order, which is the order of insertion. */
  datatype Grab = Grab(
    lastSaleId: nat, lastOrderId: nat, tokens: map<Symbol, Name>,
    sales: map<nat, Sale>, orders: map<nat, seq<Order>>, stats: map<nat, map<Name, nat>>,
    upgrades: map<nat, Upgrade>, logs: map<nat, seq<Log>>)

  datatype Memo = AddToSale(id: nat) | AddToUpgrade(id: nat) | JoinUpgrade(id: nat, grabId: string) | BackFromGrab(showId: nat) | OtherMemo

  // ---------- Scoped tables ----------

  function OrdersOf(g: Grab, id: nat): seq<Order> { if id in g.orders then g.orders[id] else [] }

  function StatsOf(g: Grab, id: nat): map<Name, nat> { if id in g.stats then g.stats[id] else map[] }

  function LogsOf(g: Grab, id: nat): seq<Log> { if id in g.logs then g.logs[id] else [] }

  function GrabsBy(stats: map<Name, nat>, account: Name): nat { if account in stats then stats[account] else 0 }

  predicate OrderHashTaken(sha: string -> nat, orders: seq<Order>, grabId: string) {
    exists i | 0 <= i < |orders| :: sha(orders[i].grabId) == sha(grabId)
  }

  predicate HasWon(orders: seq<Order>, account: Name) {
    exists i | 0 <= i < |orders| :: orders[i].account == account && orders[i].tickets > 0
  }

  predicate LogHashTaken(sha: string -> nat, logs: seq<Log>, grabId: string) {
    exists i | 0 <= i < |logs| :: sha(logs[i].grabId) == sha(grabId)
  }

  predicate HasWonUpgrade(logs: seq<Log>, account: Name) {
    exists i | 0 <= i < |logs| :: logs[i].account == account && logs[i].won.amount > 0
  }

  // ---------- Set-up ----------

  function AddTokenSpec(g: Grab, authorized: bool, sym: Symbol, bank: Name): Option<Grab> {
    var _ :- Check(authorized && sym.precision <= 8);
    Some(g.(tokens := g.tokens[sym := bank]))
  }

  function AddSaleSpec(g: Grab, authorized: bool, ticketExists: bool, sale: Sale): Option<Grab> {
    var _ :- Check(authorized && sale.ticketId != 0 && sale.startedAt < sale.endedAt);
    var _ :- Check(0 < sale.price.amount <= MAX_AMOUNT && sale.maxGrabs > 0 && sale.winRatio <= RATIO_BASE);
    var _ :- Check(ticketExists && sale.price.sym in g.tokens && g.lastSaleId + 1 !in g.sales);
    var id := g.lastSaleId + 1;
    Some(g.(lastSaleId := id, sales := g.sales[id := sale.(total := 0, available := 0, grabbed := 0, totalGrabs := 0)]))
  }

  predicate TimesOk(startedAt: Maybe<nat>, endedAt: Maybe<nat>, oldStart: nat, oldEnd: nat) {
    if startedAt.Present? && endedAt.Present? then startedAt.value < endedAt.value
    else if startedAt.Present? then startedAt.value < oldEnd
    else if endedAt.Present? then oldStart < endedAt.value
    else true
  }

  function Or<T>(value: Maybe<T>, old_: T): T { if value.Present? then value.value else old_ }

  function SetSaleSpec(g: Grab, authorized: bool, id: nat, price: Maybe<Asset>, maxGrabs: Maybe<U32>, winRatio: Maybe<U32>,
                       startedAt: Maybe<nat>, endedAt: Maybe<nat>): Option<Grab> {
    var _ :- Check(authorized && id in g.sales);
    var sale := g.sales[id];
    var _ :- Check(price.Present? ==> 0 < price.value.amount <= MAX_AMOUNT && price.value.sym in g.tokens);
    var _ :- Check((maxGrabs.Present? ==> maxGrabs.value > 0) && (winRatio.Present? ==> winRatio.value <= RATIO_BASE));
    var _ :- Check(TimesOk(startedAt, endedAt, sale.startedAt, sale.endedAt));
    Some(g.(sales := g.sales[id := sale.(price := Or(price, sale.price), maxGrabs := Or(maxGrabs, sale.maxGrabs),
      winRatio := Or(winRatio, sale.winRatio), startedAt := Or(startedAt, sale.startedAt), endedAt := Or(endedAt, sale.endedAt))]))
  }

  function AddUpgradeSpec(g: Grab, authorized: bool, ticketsExist: bool, upgrade: Upgrade): Option<Grab> {
    var _ :- Check(authorized && upgrade.startedAt < upgrade.endedAt);
    var _ :- Check(0 < upgrade.pay.amount <= MAX_AMOUNT && upgrade.pay.nid != 0 && upgrade.winRatio <= RATIO_BASE);
    var _ :- Check(ticketsExist && upgrade.pay.nid != upgrade.targetId && upgrade.targetId != 0);
    var id := g.lastSaleId + 1;
    var _ :- Check(id !in g.upgrades);
    Some(g.(lastSaleId := id, upgrades := g.upgrades[id := upgrade.(total := 0, available := 0, grabbed := 0, totalGrabs := 0)]))
  }

  function SetUpgradeSpec(g: Grab, authorized: bool, ticketExists: bool, id: nat, pay: Maybe<NAsset>, winRatio: Maybe<U32>,
                          startedAt: Maybe<nat>, endedAt: Maybe<nat>): Option<Grab> {
    var _ :- Check(authorized && id in g.upgrades);
    var up := g.upgrades[id];
    var _ :- Check(pay.Present? ==> 0 < pay.value.amount <= MAX_AMOUNT && pay.value.nid != 0 && pay.value.nid != up.targetId && ticketExists);
    var _ :- Check(winRatio.Present? ==> winRatio.value <= RATIO_BASE);
    var _ :- Check(TimesOk(startedAt, endedAt, up.startedAt, up.endedAt));
    Some(g.(upgrades := g.upgrades[id := up.(pay := Or(pay, up.pay), winRatio := Or(winRatio, up.winRatio),
      startedAt := Or(startedAt, up.startedAt), endedAt := Or(endedAt, up.endedAt))]))
  }

  // ---------- Drawing ----------

  /** `draw` is the 32-bit hash word of `get_random_base`. */
  predicate Wins(winRatio: U32, draw: nat) {
    winRatio > 0 && draw % RATIO_BASE < winRatio
  }

  /** `on_transfer_cisum`: pay the price, take part once. */
  function PayGrabSpec(g: Grab, sha: string -> nat, from: Name, bank: Name, quantity: Asset, id: nat, grabId: string,
                       draw: nat, now: nat): Option<(Grab, seq<Out>)> {
    var _ :- Check(quantity.sym in g.tokens && g.tokens[quantity.sym] == bank);
    var _ :- Check(id in g.sales);
    var sale := g.sales[id];
    var orders := OrdersOf(g, id);
    var stats := StatsOf(g, id);
    var _ :- Check(sale.startedAt <= now <= sale.endedAt && sale.available > 0 && quantity == sale.price);
    var _ :- Check(!OrderHashTaken(sha, orders, grabId));
    var _ :- Check(sale.maxGrabs > 0 ==> GrabsBy(stats, from) < sale.maxGrabs);
    var _ :- Check(!HasWon(orders, from));
    var win := Wins(sale.winRatio, draw);
    var order := Order(g.lastOrderId + 1, grabId, from, if win then 1 else 0);
    var drawn := sale.(totalGrabs := WrapU32(sale.totalGrabs + 1));
    var _ :- Check(win ==> InRange(sale.total - (sale.grabbed + 1)));
    Some((g.(lastOrderId := g.lastOrderId + 1,
             orders := g.orders[id := orders + [order]],
             stats := g.stats[id := stats[from := WrapU32(GrabsBy(stats, from) + 1)]],
             sales := g.sales[id := if win then drawn.(grabbed := sale.grabbed + 1, available := sale.total - (sale.grabbed + 1)) else drawn]),
          if win then [Out(from, NAsset(1, sale.ticketId))] else []))
  }

  // ---------- Tickets coming in ----------

  function AddStockSpec(g: Grab, tickets: NAsset, id: nat): Option<Grab> {
    var _ :- Check(id in g.sales);
    var sale := g.sales[id];
    var _ :- Check(tickets.nid == sale.ticketId && tickets.amount > 0);
    var _ :- Check(InRange(sale.total + tickets.amount) && InRange(sale.total + tickets.amount - sale.grabbed));
    Some(g.(sales := g.sales[id := sale.(total := sale.total + tickets.amount, available := sale.total + tickets.amount - sale.grabbed)]))
  }

  function AddUpgradeStockSpec(g: Grab, tickets: NAsset, id: nat): Option<Grab> {
    var _ :- Check(id in g.upgrades);
    var up := g.upgrades[id];
    var _ :- Check(tickets.nid == up.targetId && tickets.amount > 0);
    var _ :- Check(InRange(up.total + tickets.amount) && InRange(up.total + tickets.amount - up.grabbed));
    Some(g.(upgrades := g.upgrades[id := up.(total := up.total + tickets.amount, available := up.total + tickets.amount - up.grabbed)]))
  }

  function JoinUpgradeSpec(g: Grab, sha: string -> nat, from: Name, tickets: NAsset, id: nat, grabId: string,
                           draw: nat, now: nat): Option<(Grab, seq<Out>)> {
    var _ :- Check(id in g.upgrades);
    var up := g.upgrades[id];
    var logs := LogsOf(g, id);
    var _ :- Check(up.startedAt <= now <= up.endedAt && up.available > 0 && tickets == up.pay);
    var _ :- Check(!LogHashTaken(sha, logs, grabId));
    var _ :- Check(!HasWonUpgrade(logs, from));
    var win := Wins(up.winRatio, draw);
    var won := NAsset(if win then 1 else 0, up.targetId);
    var drawn := up.(totalGrabs := WrapU32(up.totalGrabs + 1));
    var _ :- Check(win ==> InRange(up.total - (up.grabbed + 1)));
    Some((g.(lastOrderId := g.lastOrderId + 1,
             logs := g.logs[id := logs + [Log(g.lastOrderId + 1, grabId, from, tickets, won)]],
             upgrades := g.upgrades[id := if win then drawn.(grabbed := up.grabbed + 1, available := up.total - (up.grabbed + 1)) else drawn]),
          if win then [Out(from, won)] else []))
  }

  /** `on_transfer_ticket`: only the first asset of the transfer is looked at. */
  function OnTicketSpec(g: Grab, sha: string -> nat, from: Name, assets: seq<NAsset>, memo: Memo, draw: nat, now: nat): Option<(Grab, seq<Out>)> {
    var _ :- Check(assets != []);
    match memo
    case AddToSale(id) => var h :- AddStockSpec(g, assets[0], id); Some((h, []))
    case AddToUpgrade(id) => var h :- AddUpgradeStockSpec(g, assets[0], id); Some((h, []))
    case JoinUpgrade(id, grabId) => JoinUpgradeSpec(g, sha, from, assets[0], id, grabId, draw, now)
    case _ => Abort
  }

  // ---------- Tickets going back, and clean-up ----------

  datatype RushType = RushSale | RushUpgrade | OtherType

  /** `subgrab`: the tickets go back to the show; the result names the show of the row. */
  function SubGrabSpec(g: Grab, authorized: bool, kind: RushType, id: nat, tickets: NAsset): Option<(Grab, nat)> {
    var _ :- Check(authorized && tickets.amount > 0);
    match kind
    case RushSale =>
      var _ :- Check(id in g.sales);
      var sale := g.sales[id];
      var _ :- Check(tickets.nid == sale.ticketId && tickets.amount <= sale.available);
      var _ :- Check(InRange(sale.total - tickets.amount) && InRange(sale.available - tickets.amount));
      Some((g.(sales := g.sales[id := sale.(total := sale.total - tickets.amount, available := sale.available - tickets.amount)]), sale.showId))
    case RushUpgrade =>
      var _ :- Check(id in g.upgrades);
      var up := g.upgrades[id];
      var _ :- Check(tickets.nid == up.targetId && tickets.amount <= up.available);
      var _ :- Check(InRange(up.total - tickets.amount) && InRange(up.available - tickets.amount));
      Some((g.(upgrades := g.upgrades[id := up.(total := up.total - tickets.amount, available := up.available - tickets.amount)]), up.showId))
    case OtherType => Abort
  }

  lemma LowestExists(keys: set<Name>) returns (low: Name)
    requires keys != {}
    ensures low in keys && forall j | j in keys :: low <= j
    decreases |keys|
  {
    low :| low in keys;
    var rest := keys - {low};
    assert forall j | j in keys :: j == low || j in rest;
    if rest != {} {
      var m := LowestExists(rest);
      low := if m < low then m else low;
    }
  }

  /** The first key of a table. */
  function Lowest(keys: set<Name>): (k: Name)
    requires keys != {}
    ensures k in keys && forall j | j in keys :: k <= j
  {
    assert exists k :: k in keys && forall j | j in keys :: k <= j by {
      var low := LowestExists(keys);
    }
    var k :| k in keys && forall j | j in keys :: k <= j;
    k
  }

  /** A table without its first `n` rows. */
  function DropRows(m: map<Name, nat>, n: nat): map<Name, nat> {
    if n == 0 then m
    else
      var r := DropRows(m, n - 1);
      if r == map[] then r else r - {Lowest(r.Keys)}
  }

  function Min(a: nat, b: nat): nat { if a < b then a else b }

  /** `delrushsale`: at most one page of orders, then at most one page of stats, then the row. */
  function DelSaleSpec(g: Grab, authorized: bool, id: nat, forced: bool, now: nat): Option<Grab> {
    var _ :- Check(authorized && id in g.sales);
    var active := g.sales[id].startedAt <= now <= g.sales[id].endedAt;
    var _ :- Check(forced || !active);
    var orders := OrdersOf(g, id);
    var h := g.(orders := g.orders[id := orders[Min(MAX_CLEAR, |orders|)..]]);
    if |orders| > MAX_CLEAR then Some(h)
    else
      var stats := DropRows(StatsOf(g, id), MAX_CLEAR);
      var k := h.(stats := g.stats[id := stats]);
      Some(if stats != map[] then k else k.(sales := g.sales - {id}))
  }

  /** The ticket paid goes to the burn account if the upgrade was won, and back to the payer otherwise. */
  function Settle(log: Log): Out {
    Out(if log.won.amount > 0 then OOOO else log.account, log.paid)
  }

  function SettleAll(logs: seq<Log>): (outs: seq<Out>)
    ensures |outs| == |logs| && forall i | 0 <= i < |logs| :: outs[i] == Settle(logs[i])
  {
    if logs == [] then [] else SettleAll(logs[..|logs| - 1]) + [Settle(logs[|logs| - 1])]
  }

  /** `delupgrade`: settle one page of logs; when none is left, erase the row. */
  function DelUpgradeSpec(g: Grab, authorized: bool, id: nat, now: nat): Option<(Grab, seq<Out>)> {
    var _ :- Check(authorized && id in g.upgrades && now > g.upgrades[id].endedAt);
    var logs := LogsOf(g, id);
    var n := Min(MAX_UPGRADE, |logs|);
    var h := g.(logs := g.logs[id := logs[n..]]);
    Some((if n < |logs| then h else h.(upgrades := g.upgrades - {id}), SettleAll(logs[..n])))
  }
}
