/** The books of every rush sale balance in every run, up to the first call that starts to delete that sale. */
module TicketAudit {
  import opened Eosio
  import opened TicketLedger
  import opened GrabModel
  import opened GrabAudit
  import opened TicketWorld
  import S = ShowModel

  ghost predicate Books(g: Grab, id: nat) {
    IdsOk(g) && Audited(g, id)
  }

  lemma UpgradeTablesKeepBooks(g: Grab, h: Grab, id: nat)
    requires Books(g, id)
    requires h.sales == g.sales && h.orders == g.orders && h.stats == g.stats && h.lastSaleId >= g.lastSaleId
    requires forall i | i in h.upgrades || i in h.logs :: i <= h.lastSaleId
    ensures Books(h, id)
  {
    hide BooksOk;
  }

  lemma OnTicketKeepsBooks(g: Grab, sha: string -> nat, from: Name, assets: seq<NAsset>, memo: Memo, draw: nat, now: nat, id: nat)
    requires Books(g, id) && OnTicketSpec(g, sha, from, assets, memo, draw, now).Some?
    ensures Books(OnTicketSpec(g, sha, from, assets, memo, draw, now).value.0, id)
  {
    hide Audited, Wins, LogHashTaken, HasWonUpgrade, WrapU32;
    var h := OnTicketSpec(g, sha, from, assets, memo, draw, now).value.0;
    match memo
    case AddToSale(which) => StockKeepsBooks(g, assets[0], which, true, OtherType, id);
    case AddToUpgrade(which) => UpgradeTablesKeepBooks(g, h, id);
    case JoinUpgrade(which, grabId) => UpgradeTablesKeepBooks(g, h, id);
    case _ =>
  }

  lemma SendKeepsBooks(w: World, env: Env, from: Name, to: Name, assets: seq<NAsset>, memo: Memo, id: nat)
    requires Books(w.grab, id)
    ensures Books(After(Send(w, env, from, to, assets, memo), w).grab, id)
  {
    hide Books, OnTicketSpec, Dispatch, MoveAll;
    if Send(w, env, from, to, assets, memo).Some? && to == GRAB_CISUM {
      OnTicketKeepsBooks(w.grab, env.sha, from, assets, memo, env.draw, env.now, id);
    }
  }

  lemma IssueTicketKeepsBooks(w: World, env: Env, user: Name, key: S.Key, count: S.U32, memo: Memo, id: nat)
    requires Books(w.grab, id)
    ensures Books(After(IssueTicketSpec(w, env, user, key, count, memo), w).grab, id)
  {
    hide Books, Send;
    if IssueTicketSpec(w, env, user, key, count, memo).Some? {
      var show := S.SellSpec(w.show, key, count, env.now).value;
      SendKeepsBooks(w.(show := show), env, SHOW_CISUM, user, [NAsset(count, key.1)], memo, id);
    }
  }

  lemma {:induction false} IssueEachKeepsBooks(w: World, env: Env, recipients: seq<Name>, key: S.Key, count: S.U32, id: nat)
    requires Books(w.grab, id)
    ensures Books(After(IssueEach(w, env, recipients, key, count), w).grab, id)
  {
    hide IssueTicketSpec, Books;
    if recipients != [] && IssueEach(w, env, recipients, key, count).Some? {
      var init := recipients[..|recipients| - 1];
      IssueEachKeepsBooks(w, env, init, key, count, id);
      IssueTicketKeepsBooks(IssueEach(w, env, init, key, count).value, env, recipients[|recipients| - 1], key, count, OtherMemo, id);
    }
  }

  /** Steps whose code is not grab.cisum's own still reach it through notifications. */
  lemma ForeignStepKeepsBooks(w: World, act: Action, env: Env, id: nat)
    requires Books(w.grab, id)
    ensures Books(After(NftStep(w, act, env), w).grab, id)
    ensures Books(After(ShowStep(w, act, env), w).grab, id)
  {
    hide Books, Send, IssueTicketSpec, IssueEach, BatchChecks;
    match act
    case NftTransfer(from, to, assets, memo) => SendKeepsBooks(w, env, from, to, assets, memo, id);
    case IssueTicket(user, key, count, memo) => IssueTicketKeepsBooks(w, env, user, key, count, memo, id);
    case BatchReward(recipients, key, count) => IssueEachKeepsBooks(w, env, recipients, key, count, id);
    case IssueToGrab(to, showId, q, memo) =>
      if ShowStep(w, act, env).Some? {
        SendKeepsBooks(w.(show := S.LendSpec(w.show, showId, q).value), env, SHOW_CISUM, to, [q], memo, id);
      }
    case _ =>
  }

  lemma PayGrabKeepsAllBooks(w: World, act: Action, env: Env, id: nat)
    requires act.PayGrab? && Books(w.grab, id)
    ensures Books(After(GrabStep(w, act, env), w).grab, id)
  {
    hide Audited, Wins, OrderHashTaken, HasWon, WrapU32, Dispatch;
    if GrabStep(w, act, env).Some? {
      if act.id == id {
        PayGrabKeepsBooks(w.grab, env.sha, act.from, act.bank, act.quantity, id, act.grabId, env.draw, env.now);
      } else {
        OtherSaleKeepsBooks(w.grab, GrabStep(w, act, env).value.grab, id);
      }
    }
  }

  lemma OtherSaleKeepsBooks(g: Grab, h: Grab, id: nat)
    requires Audited(g, id)
    requires (id in h.sales <==> id in g.sales) && (id in g.sales ==> h.sales[id] == g.sales[id])
    requires OrdersOf(h, id) == OrdersOf(g, id) && StatsOf(h, id) == StatsOf(g, id)
    ensures Audited(h, id)
  {
  }

  lemma SubGrabKeepsBooks(w: World, act: Action, env: Env, id: nat)
    requires act.SubGrab? && Books(w.grab, id)
    ensures Books(After(GrabStep(w, act, env), w).grab, id)
  {
    hide Audited, Send;
    if GrabStep(w, act, env).Some? {
      StockKeepsBooks(w.grab, act.tickets, 0, env.allowed, act.kind, id);
      StockKeepsBooks(w.grab, act.tickets, act.id, env.allowed, act.kind, id);
      var done := SubGrabSpec(w.grab, env.allowed, act.kind, act.id, act.tickets).value;
      SendKeepsBooks(w.(grab := done.0), env, GRAB_CISUM, SHOW_CISUM, [act.tickets], BackFromGrab(done.1), id);
    }
  }

  lemma AddSaleKeepsAllBooks(w: World, act: Action, env: Env, id: nat)
    requires act.AddSale? && Books(w.grab, id)
    ensures Books(After(GrabStep(w, act, env), w).grab, id)
  {
    hide Audited;
    if GrabStep(w, act, env).Some? {
      AddSaleKeepsBooks(w.grab, env.allowed, (act.sale.showId, act.sale.ticketId) in w.show.tickets, act.sale, id);
    }
  }

  lemma SetSaleKeepsAllBooks(w: World, act: Action, env: Env, id: nat)
    requires act.SetSale? && Books(w.grab, id)
    ensures Books(After(GrabStep(w, act, env), w).grab, id)
  {
    hide Audited, TimesOk;
    SetSaleKeepsBooks(w.grab, env.allowed, act.id, act.price, act.maxGrabs, act.winRatio, act.startedAt, act.endedAt, id);
  }

  lemma DelSaleKeepsAllBooks(w: World, act: Action, env: Env, id: nat)
    requires act.DelSale? && act.id != id && Books(w.grab, id)
    ensures Books(After(GrabStep(w, act, env), w).grab, id)
  {
    hide Audited, DelSaleSpec, OrdersOf, StatsOf;
    DelSaleEffect(w.grab, env.allowed, act.id, act.forced, env.now);
    DelOtherSaleKeepsBooks(w.grab, env.allowed, act.id, act.forced, env.now, id);
  }

  lemma UpgradeStepKeepsBooks(w: World, act: Action, env: Env, id: nat)
    requires act.AddToken? || act.AddUpgrade? || act.SetUpgrade? || act.DelUpgrade?
    requires Books(w.grab, id)
    ensures Books(After(GrabStep(w, act, env), w).grab, id)
  {
    hide TimesOk, Dispatch, SettleAll, BooksOk;
    if GrabStep(w, act, env).Some? {
      UpgradeTablesKeepBooks(w.grab, GrabStep(w, act, env).value.grab, id);
    }
  }

  lemma StepKeepsBooks(w: World, act: Action, env: Env, id: nat)
    requires Books(w.grab, id) && !(act.DelSale? && act.id == id)
    ensures Books(After(Step(w, act, env), w).grab, id)
  {
    hide Books, NftStep, ShowStep, GrabStep;
    ForeignStepKeepsBooks(w, act, env, id);
    match act
    case PayGrab(_, _, _, _, _) => PayGrabKeepsAllBooks(w, act, env, id);
    case SubGrab(_, _, _) => SubGrabKeepsBooks(w, act, env, id);
    case AddSale(_) => AddSaleKeepsAllBooks(w, act, env, id);
    case SetSale(_, _, _, _, _, _) => SetSaleKeepsAllBooks(w, act, env, id);
    case DelSale(_, _) => DelSaleKeepsAllBooks(w, act, env, id);
    case AddToken(_, _) => UpgradeStepKeepsBooks(w, act, env, id);
    case AddUpgrade(_) => UpgradeStepKeepsBooks(w, act, env, id);
    case SetUpgrade(_, _, _, _, _) => UpgradeStepKeepsBooks(w, act, env, id);
    case DelUpgrade(_) => UpgradeStepKeepsBooks(w, act, env, id);
    case _ =>
  }

  /** Over every run of the three contracts in which nobody calls `delrushsale` on sale `id`, its books balance: tickets left
      are those supplied less one per winning order, the counters are the order counts, grab ids are distinct, and nobody
      orders again after winning. */
  lemma {:induction false} RunKeepsBooks(trace: seq<Event>, id: nat)
    requires forall i | 0 <= i < |trace| :: !(trace[i].act.DelSale? && trace[i].act.id == id)
    ensures Audited(Run(Empty(), trace).grab, id)
    ensures IdsOk(Run(Empty(), trace).grab)
  {
    hide Audited, IdsOk, Step;
    if trace == [] {
      EmptyBooks(id);
    } else {
      var init, last := trace[..|trace| - 1], trace[|trace| - 1];
      RunKeepsBooks(init, id);
      StepKeepsBooks(Run(Empty(), init), last.act, last.env, id);
    }
  }

  lemma EmptyBooks(id: nat)
    ensures Books(Empty().grab, id)
  {
  }

  // ---------- The first deletion call ----------

  function Accounts(orders: seq<Order>): set<Name> {
    if orders == [] then {} else Accounts(orders[..|orders| - 1]) + {orders[|orders| - 1].account}
  }

  lemma {:induction false} FewAccounts(orders: seq<Order>)
    ensures |Accounts(orders)| <= |orders|
    ensures forall u: Name :: OrdersBy(orders, u) > 0 ==> u in Accounts(orders)
  {
    if orders != [] {
      FewAccounts(orders[..|orders| - 1]);
    }
  }

  /** There are no more users with stats than orders. */
  lemma FewerStatsThanOrders(sale: Sale, orders: seq<Order>, stats: map<Name, nat>)
    requires BooksOk(sale, orders, stats)
    ensures |stats| <= |orders|
  {
    FewAccounts(orders);
    assert stats.Keys <= Accounts(orders) by {
      forall u | u in stats
        ensures u in Accounts(orders)
      {
        assert GrabsBy(stats, u) == OrdersBy(orders, u);
      }
    }
    SubsetSize(stats.Keys, Accounts(orders));
    assert |stats| == |stats.Keys|;
  }

  lemma {:induction false} SubsetSize(a: set<Name>, b: set<Name>)
    requires a <= b
    ensures |a| <= |b|
    decreases |a|
  {
    if u :| u in a {
      SubsetSize(a - {u}, b - {u});
    }
  }

  /** The row goes with the first call exactly when orders and stats fit one page each. */
  lemma FirstCall(g: Grab, authorized: bool, id: nat, forced: bool, now: nat)
    requires id in g.sales && DelSaleSpec(g, authorized, id, forced, now).Some?
    ensures var h := DelSaleSpec(g, authorized, id, forced, now).value;
            && (id !in h.sales <==> |OrdersOf(g, id)| <= MAX_CLEAR && |StatsOf(g, id)| <= MAX_CLEAR)
            && (id in h.sales ==> h.sales[id] == g.sales[id])
            && OrdersOf(h, id) == OrdersOf(g, id)[Min(MAX_CLEAR, |OrdersOf(g, id)|)..]
  {
    hide DropRows;
    DropRowsSize(StatsOf(g, id), MAX_CLEAR);
    var stats := DropRows(StatsOf(g, id), MAX_CLEAR);
    assert stats == map[] <==> |stats| == 0;
  }

  lemma FewerOrdersUnbalance(sale: Sale, orders: seq<Order>, stats: map<Name, nat>, left: seq<Order>, others: map<Name, nat>)
    requires BooksOk(sale, orders, stats) && |orders| > MAX_CLEAR && |left| == |orders| - MAX_CLEAR
    ensures !BooksOk(sale, left, others)
  {
    assert WrapU32(|orders|) != WrapU32(|orders| - MAX_CLEAR);
  }

  lemma OneCallKeepsBooksIff(g: Grab, authorized: bool, id: nat, forced: bool, now: nat)
    requires Audited(g, id) && DelSaleSpec(g, authorized, id, forced, now).Some?
    ensures Audited(DelSaleSpec(g, authorized, id, forced, now).value, id) <==> |OrdersOf(g, id)| <= MAX_CLEAR
  {
    SaleStands(g, authorized, id, forced, now);
    FirstCall(g, authorized, id, forced, now);
    hide DelSaleSpec, BooksOk, OrdersOf, StatsOf;
    FewerStatsThanOrders(g.sales[id], OrdersOf(g, id), StatsOf(g, id));
    var h := DelSaleSpec(g, authorized, id, forced, now).value;
    if |OrdersOf(g, id)| > MAX_CLEAR {
      FewerOrdersUnbalance(g.sales[id], OrdersOf(g, id), StatsOf(g, id), OrdersOf(h, id), StatsOf(h, id));
    }
  }

  lemma SaleStands(g: Grab, authorized: bool, id: nat, forced: bool, now: nat)
    requires DelSaleSpec(g, authorized, id, forced, now).Some?
    ensures id in g.sales
  {
  }

  /** In every reachable state, the first `delrushsale` call for a sale keeps its books balanced if and only if there are at most 1000
      orders: the call then erases the row. With more, it removes orders that the row's counters still count. */
  lemma DelSaleKeepsBooksIff(trace: seq<Event>, id: nat, forced: bool, env: Env)
    requires forall i | 0 <= i < |trace| :: !(trace[i].act.DelSale? && trace[i].act.id == id)
    ensures var w := Run(Empty(), trace); var r := Step(w, DelSale(id, forced), env);
            r.Some? ==>
              && id in w.grab.sales
              && (Audited(r.value.grab, id) <==> |OrdersOf(w.grab, id)| <= MAX_CLEAR)
              && (id !in r.value.grab.sales <==> |OrdersOf(w.grab, id)| <= MAX_CLEAR)
  {
    hide Run, Audited, DelSaleSpec, IdsOk;
    RunKeepsBooks(trace, id);
    var w := Run(Empty(), trace);
    if Step(w, DelSale(id, forced), env).Some? {
      SaleStands(w.grab, env.allowed, id, forced, env.now);
      FirstCall(w.grab, env.allowed, id, forced, env.now);
      OneCallKeepsBooksIff(w.grab, env.allowed, id, forced, env.now);
      BooksOfSale(w.grab, id);
    }
  }

  lemma BooksOfSale(g: Grab, id: nat)
    requires Audited(g, id) && id in g.sales
    ensures |StatsOf(g, id)| <= |OrdersOf(g, id)|
  {
    FewerStatsThanOrders(g.sales[id], OrdersOf(g, id), StatsOf(g, id));
  }
}
