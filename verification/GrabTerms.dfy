/** The terms of a rush sale: what a paid grab needs and does, and that a sale takes in its price for every order. */
module GrabTerms {
  import opened Eosio
  import opened TicketLedger
  import opened GrabModel
  import opened GrabAudit
  import opened TicketWorld
  import TicketAudit
  import TicketRuns
  import TicketDelivery
  import TicketSettings
  import TicketPayouts
  import SaleClearing
  import S = ShowModel

  // ---------- One grab ----------

  /** A grab wins with the chance of the sale, in ten-thousandths. */
  predicate Lucky(sale: Sale, draw: nat) { draw % 10_000 < sale.winRatio }

  /** What a grab needs of a buyer who has grabbed `used` times before: a listed token from its own bank, the exact price, an open sale
      with stock, a grab id not used before, a grab left, and no ticket won yet. */
  ghost predicate MayGrab(g: Grab, act: Action, env: Env, used: nat)
    requires act.PayGrab?
  {
    && act.from != GRAB_CISUM
    && act.quantity.sym in g.tokens && g.tokens[act.quantity.sym] == act.bank
    && act.id in g.sales
    && var sale := g.sales[act.id]; var orders := OrdersOf(g, act.id);
    && sale.startedAt <= env.now <= sale.endedAt
    && sale.available > 0
    && act.quantity.amount == sale.price.amount && act.quantity.sym == sale.price.sym
    && (forall i | 0 <= i < |orders| :: env.sha(orders[i].grabId) != env.sha(act.grabId))
    && used < sale.maxGrabs
    && (forall i | 0 <= i < |orders| :: orders[i].account == act.from ==> orders[i].tickets <= 0)
  }

  /** The tables after a grab: one more order, counted for the buyer and the sale, and one ticket less if it won. */
  ghost function WithGrab(g: Grab, act: Action, env: Env): Grab
    requires act.PayGrab? && act.id in g.sales
  {
    var sale, stats := g.sales[act.id], StatsOf(g, act.id);
    var won := if Lucky(sale, env.draw) then 1 else 0;
    g.(lastOrderId := g.lastOrderId + 1,
       orders := g.orders[act.id := OrdersOf(g, act.id) + [Order(g.lastOrderId + 1, act.grabId, act.from, won)]],
       stats := g.stats[act.id := stats[act.from := ((if act.from in stats then stats[act.from] else 0) + 1) % TWO_32]],
       sales := g.sales[act.id := sale.(totalGrabs := (sale.totalGrabs + 1) % TWO_32, grabbed := sale.grabbed + won, available := sale.available - won)])
  }

  ghost function Prize(g: Grab, act: Action, env: Env): seq<Out>
    requires act.PayGrab? && act.id in g.sales
  {
    if Lucky(g.sales[act.id], env.draw) then [Out(act.from, NAsset(1, g.sales[act.id].ticketId))] else []
  }

  lemma GrabOutcome(g: Grab, act: Action, env: Env)
    requires act.PayGrab? && act.from != GRAB_CISUM
    requires act.id in g.sales ==>
               g.sales[act.id].available == g.sales[act.id].total - g.sales[act.id].grabbed <= MAX_AMOUNT && g.sales[act.id].maxGrabs > 0
    ensures PayGrabSpec(g, env.sha, act.from, act.bank, act.quantity, act.id, act.grabId, env.draw, env.now)
            == if MayGrab(g, act, env, GrabsBy(StatsOf(g, act.id), act.from)) then Some((WithGrab(g, act, env), Prize(g, act, env))) else Abort
  {
    var r := PayGrabSpec(g, env.sha, act.from, act.bank, act.quantity, act.id, act.grabId, env.draw, env.now);
    if r.Some? {
      assert r.value.0.sales == WithGrab(g, act, env).sales;
    }
  }

  lemma StockInRange(trace: seq<Event>, id: nat)
    ensures var g := Run(Empty(), trace).grab;
            id in g.sales ==> g.sales[id].available == g.sales[id].total - g.sales[id].grabbed <= MAX_AMOUNT
  {
    hide Run;
    TicketRuns.RunKeepsEscrowed(trace);
    TicketRuns.StockIsBackedBySupply(trace, id);
  }

  lemma StepOfGrab(w: World, act: Action, env: Env)
    requires act.PayGrab? && act.id in w.grab.sales && SupplyOk(w.nft)
    requires PayGrabSpec(w.grab, env.sha, act.from, act.bank, act.quantity, act.id, act.grabId, env.draw, env.now)
             == Some((WithGrab(w.grab, act, env), Prize(w.grab, act, env)))
    requires Step(w, act, env).Some?
    ensures var t := Step(w, act, env).value; var sale := w.grab.sales[act.id];
            && t.grab == WithGrab(w.grab, act, env) && t.show == w.show
            && forall o: Name, n: Nid | o != GRAB_CISUM ::
                 Held(t.nft, o, n) == Held(w.nft, o, n) + if Lucky(sale, env.draw) && o == act.from && n == sale.ticketId then 1 else 0
  {
    hide PayGrabSpec, WithGrab, Held, SupplyOk, Dispatch, Lucky;
    var sale := w.grab.sales[act.id];
    TicketPayouts.DispatchPays(w.nft, Prize(w.grab, act, env), env.allowed);
    forall o: Name, n: Nid
      ensures TicketPayouts.Received(Prize(w.grab, act, env), o, n) == if Lucky(sale, env.draw) && o == act.from && n == sale.ticketId then 1 else 0
    {
      TicketPayouts.ReceivedOne(Out(act.from, NAsset(1, sale.ticketId)), o, n);
    }
  }

  /** In every reachable world a paid grab commits if and only if `MayGrab` holds of it; it then adds one order, and the buyer has one
      ticket more exactly when the draw is below the chance of the sale. */
  lemma PayGrabTerms(trace: seq<Event>, act: Action, env: Env)
    requires act.PayGrab? && env.allowed
    ensures var w := Run(Empty(), trace); var stats := StatsOf(w.grab, act.id);
            && (Step(w, act, env).Some? <==> MayGrab(w.grab, act, env, if act.from in stats then stats[act.from] else 0))
            && (Step(w, act, env).Some? ==>
                  var t := Step(w, act, env).value; var sale := w.grab.sales[act.id];
                  && t.grab == WithGrab(w.grab, act, env) && t.show == w.show
                  && forall o: Name, n: Nid | o != GRAB_CISUM ::
                       Held(t.nft, o, n) == Held(w.nft, o, n) + if Lucky(sale, env.draw) && o == act.from && n == sale.ticketId then 1 else 0)
  {
    hide Run, PayGrabSpec, Step, WithGrab, Held, SupplyOk, Prize;
    var w := Run(Empty(), trace);
    StockInRange(trace, act.id);
    TicketSettings.RunKeepsSettings(trace);
    TicketRuns.RunKeepsEscrowed(trace);
    TicketDelivery.GrabPrizeNeverFails(trace, act, env);
    if act.from != GRAB_CISUM {
      GrabOutcome(w.grab, act, env);
      if Step(w, act, env).Some? {
        StepOfGrab(w, act, env);
      }
    }
  }

  /** While nobody has started to delete the sale, the grabs counted for a buyer are that buyer's orders, so those decide. */
  lemma GrabsLeftAreOrders(trace: seq<Event>, act: Action, env: Env)
    requires act.PayGrab? && env.allowed
    requires forall i | 0 <= i < |trace| :: !(trace[i].act.DelSale? && trace[i].act.id == act.id)
    ensures var w := Run(Empty(), trace);
            Step(w, act, env).Some? <==>
              MayGrab(w.grab, act, env, OrdersBy(OrdersOf(w.grab, act.id), act.from))
  {
    hide Run, Step, OrdersBy;
    var w := Run(Empty(), trace);
    PayGrabTerms(trace, act, env);
    TicketAudit.RunKeepsBooks(trace, act.id);
    if act.id in w.grab.sales {
      BooksCount(w.grab, act.id, act.from);
    }
  }

  lemma BooksCount(g: Grab, id: nat, u: Name)
    requires Audited(g, id) && id in g.sales
    ensures OrdersBy(OrdersOf(g, id), u) == (var stats := StatsOf(g, id); if u in stats then stats[u] else 0)
  {
    assert GrabsBy(StatsOf(g, id), u) == OrdersBy(OrdersOf(g, id), u);
  }

  // ---------- What a sale takes in ----------

  /** Units of `sym` paid for sale `id` by the grabs of a run that committed. */
  ghost function TakenIn(w: World, trace: seq<Event>, id: nat, sym: Symbol): int {
    if trace == [] then 0
    else
      var init, last := trace[..|trace| - 1], trace[|trace| - 1];
      TakenIn(w, init, id, sym)
      + if last.act.PayGrab? && last.act.id == id && last.act.quantity.sym == sym && Step(Run(w, init), last.act, last.env).Some?
        then last.act.quantity.amount else 0
  }

  /** The price of sale `id` stays, and its tables are not deleted. */
  predicate PriceStands(act: Action, id: nat, price: Asset) {
    && !(act.DelSale? && act.id == id)
    && (act.SetSale? && act.id == id && act.price.Present? ==> act.price.value == price)
  }

  /** What all actions but a grab of the sale keep of it while its price stands. */
  ghost predicate SaleKept(g: Grab, h: Grab, id: nat) {
    && OrdersOf(h, id) == OrdersOf(g, id)
    && id in h.sales && id in g.sales && h.sales[id].price == g.sales[id].price && h.sales[id].ticketId == g.sales[id].ticketId
  }

  lemma NothingDone(g: Grab, id: nat)
    requires id in g.sales
    ensures SaleKept(g, g, id)
  {
  }

  lemma OnTicketKeepsSale(g: Grab, sha: string -> nat, from: Name, assets: seq<NAsset>, memo: Memo, draw: nat, now: nat, id: nat)
    requires id in g.sales && OnTicketSpec(g, sha, from, assets, memo, draw, now).Some?
    ensures SaleKept(g, OnTicketSpec(g, sha, from, assets, memo, draw, now).value.0, id)
  {
    hide Wins, LogHashTaken, HasWonUpgrade, WrapU32, InRange;
  }

  lemma SendKeepsSale(w: World, env: Env, from: Name, to: Name, assets: seq<NAsset>, memo: Memo, id: nat)
    requires id in w.grab.sales
    ensures SaleKept(w.grab, After(Send(w, env, from, to, assets, memo), w).grab, id)
  {
    hide OnTicketSpec, Dispatch, MoveAll;
    if Send(w, env, from, to, assets, memo).Some? && to == GRAB_CISUM {
      OnTicketKeepsSale(w.grab, env.sha, from, assets, memo, env.draw, env.now, id);
    }
  }

  lemma IssueTicketKeepsSale(w: World, env: Env, user: Name, key: S.Key, count: S.U32, memo: Memo, id: nat)
    requires id in w.grab.sales
    ensures SaleKept(w.grab, After(IssueTicketSpec(w, env, user, key, count, memo), w).grab, id)
  {
    hide Send;
    if IssueTicketSpec(w, env, user, key, count, memo).Some? {
      SendKeepsSale(w.(show := S.SellSpec(w.show, key, count, env.now).value), env, SHOW_CISUM, user, [NAsset(count, key.1)], memo, id);
    }
  }

  lemma {:induction false} IssueEachKeepsSale(w: World, env: Env, recipients: seq<Name>, key: S.Key, count: S.U32, id: nat)
    requires id in w.grab.sales
    ensures SaleKept(w.grab, After(IssueEach(w, env, recipients, key, count), w).grab, id)
  {
    hide IssueTicketSpec;
    if recipients != [] && IssueEach(w, env, recipients, key, count).Some? {
      var init := recipients[..|recipients| - 1];
      IssueEachKeepsSale(w, env, init, key, count, id);
      IssueTicketKeepsSale(IssueEach(w, env, init, key, count).value, env, recipients[|recipients| - 1], key, count, OtherMemo, id);
    }
  }

  lemma NftStepKeepsSale(w: World, act: Action, env: Env, id: nat)
    requires id in w.grab.sales
    ensures SaleKept(w.grab, After(NftStep(w, act, env), w).grab, id)
  {
    hide Send, SaleKept;
    NothingDone(w.grab, id);
    if act.NftTransfer? {
      SendKeepsSale(w, env, act.from, act.to, act.assets, act.memo, id);
    }
  }

  lemma ShowStepKeepsSale(w: World, act: Action, env: Env, id: nat)
    requires id in w.grab.sales
    ensures SaleKept(w.grab, After(ShowStep(w, act, env), w).grab, id)
  {
    hide Send, IssueTicketSpec, IssueEach, BatchChecks, SaleKept;
    NothingDone(w.grab, id);
    match act
    case IssueTicket(user, key, count, memo) => IssueTicketKeepsSale(w, env, user, key, count, memo, id);
    case BatchReward(recipients, key, count) => IssueEachKeepsSale(w, env, recipients, key, count, id);
    case IssueToGrab(to, showId, q, memo) =>
      if ShowStep(w, act, env).Some? {
        SendKeepsSale(w.(show := S.LendSpec(w.show, showId, q).value), env, SHOW_CISUM, to, [q], memo, id);
      }
    case _ =>
  }

  lemma SubGrabKeepsSale(w: World, act: Action, env: Env, id: nat)
    requires act.SubGrab? && id in w.grab.sales
    ensures SaleKept(w.grab, After(GrabStep(w, act, env), w).grab, id)
  {
    hide Send, InRange;
    if GrabStep(w, act, env).Some? {
      var done := SubGrabSpec(w.grab, env.allowed, act.kind, act.id, act.tickets).value;
      SendKeepsSale(w.(grab := done.0), env, GRAB_CISUM, SHOW_CISUM, [act.tickets], BackFromGrab(done.1), id);
    }
  }

  lemma OtherGrabKeepsSale(w: World, act: Action, env: Env, id: nat)
    requires (act.PayGrab? || act.DelSale?) && act.id != id && id in w.grab.sales
    ensures SaleKept(w.grab, After(GrabStep(w, act, env), w).grab, id)
  {
    hide Dispatch, DelSaleSpec, Wins, OrderHashTaken, HasWon, WrapU32, InRange;
    if act.DelSale? {
      DelSaleEffect(w.grab, env.allowed, act.id, act.forced, env.now);
    }
  }

  lemma SetUpKeepsSale(w: World, act: Action, env: Env, id: nat)
    requires act.AddToken? || act.AddSale? || act.SetSale? || act.AddUpgrade? || act.SetUpgrade? || act.DelUpgrade?
    requires id in w.grab.sales && PriceStands(act, id, w.grab.sales[id].price)
    ensures SaleKept(w.grab, After(GrabStep(w, act, env), w).grab, id)
  {
    hide Dispatch, SettleAll, TimesOk, InRange, RATIO_BASE;
  }

  lemma StepKeepsSale(w: World, act: Action, env: Env, id: nat)
    requires id in w.grab.sales && PriceStands(act, id, w.grab.sales[id].price) && !(act.PayGrab? && act.id == id)
    ensures SaleKept(w.grab, After(Step(w, act, env), w).grab, id)
  {
    hide Send, Dispatch, SubGrabSpec, AddTokenSpec, AddSaleSpec, SetSaleSpec, AddUpgradeSpec, SetUpgradeSpec, PayGrabSpec, DelSaleSpec, DelUpgradeSpec,
         NftStep, ShowStep, OrdersOf;
    NftStepKeepsSale(w, act, env, id);
    ShowStepKeepsSale(w, act, env, id);
    if act.SubGrab? {
      SubGrabKeepsSale(w, act, env, id);
    } else if act.PayGrab? || act.DelSale? {
      OtherGrabKeepsSale(w, act, env, id);
    } else if act.AddToken? || act.AddSale? || act.SetSale? || act.AddUpgrade? || act.SetUpgrade? || act.DelUpgrade? {
      SetUpKeepsSale(w, act, env, id);
    }
  }

  /** A grab of the sale that commits pays its price for one order. */
  lemma GrabPaysPrice(w: World, act: Action, env: Env)
    requires act.PayGrab?
    ensures Step(w, act, env).Some? ==>
              var g, h := w.grab, Step(w, act, env).value.grab;
              && act.id in g.sales && act.id in h.sales && h.sales[act.id].price == g.sales[act.id].price
              && act.quantity == g.sales[act.id].price && |OrdersOf(h, act.id)| == |OrdersOf(g, act.id)| + 1
  {
    hide Dispatch, Wins, OrderHashTaken, HasWon, WrapU32, InRange;
  }

  /** While the price of a sale stands and it is not deleted, whatever else happens, what is paid for it over a run is its price times
      the orders added, and nothing is paid in any other token. */
  lemma {:induction false} SaleTakesPricePerOrder(w: World, trace: seq<Event>, id: nat, sym: Symbol)
    requires id in w.grab.sales
    requires forall i | 0 <= i < |trace| :: PriceStands(trace[i].act, id, w.grab.sales[id].price)
    ensures var price := w.grab.sales[id].price; var t := Run(w, trace).grab;
            && id in t.sales && t.sales[id].price == price && |OrdersOf(t, id)| >= |OrdersOf(w.grab, id)|
            && TakenIn(w, trace, id, sym) == if sym == price.sym then price.amount * (|OrdersOf(t, id)| - |OrdersOf(w.grab, id)|) else 0
  {
    hide Step, OrdersOf, PriceStands;
    if trace != [] {
      var init, last := trace[..|trace| - 1], trace[|trace| - 1];
      SaleTakesPricePerOrder(w, init, id, sym);
      var before := Run(w, init);
      if last.act.PayGrab? && last.act.id == id {
        GrabPaysPrice(before, last.act, last.env);
        OnceMore(w.grab.sales[id].price.amount, |OrdersOf(before.grab, id)| - |OrdersOf(w.grab, id)|);
      } else {
        assert PriceStands(trace[|trace| - 1].act, id, w.grab.sales[id].price);
        StepKeepsSale(before, last.act, last.env, id);
      }
    }
  }

  lemma OnceMore(p: int, n: int)
    ensures p * (n + 1) == p * n + p
  {
  }
}
