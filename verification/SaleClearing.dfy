/** How many `delrushsale` calls a rush sale needs, over runs of all three contracts with anything but new grabs in between. */
module SaleClearing {
  import opened Eosio
  import opened TicketLedger
  import opened GrabModel
  import opened GrabAudit
  import opened TicketWorld
  import TicketClearing
  import SafeMath
  import S = ShowModel

  // ---------- What leaves the tables of a sale alone ----------

  ghost predicate Quiet(g: Grab, h: Grab, id: nat) {
    && OrdersOf(h, id) == OrdersOf(g, id) && StatsOf(h, id) == StatsOf(g, id)
    && (id in h.sales <==> id in g.sales)
    && h.lastSaleId >= g.lastSaleId
  }

  lemma Untouched(g: Grab, id: nat)
    ensures Quiet(g, g, id)
  {
  }

  lemma OnTicketIsQuiet(g: Grab, sha: string -> nat, from: Name, assets: seq<NAsset>, memo: Memo, draw: nat, now: nat, id: nat)
    requires OnTicketSpec(g, sha, from, assets, memo, draw, now).Some?
    ensures Quiet(g, OnTicketSpec(g, sha, from, assets, memo, draw, now).value.0, id)
  {
    hide Wins, LogHashTaken, HasWonUpgrade, WrapU32, InRange;
  }

  lemma SendIsQuiet(w: World, env: Env, from: Name, to: Name, assets: seq<NAsset>, memo: Memo, id: nat)
    ensures Quiet(w.grab, After(Send(w, env, from, to, assets, memo), w).grab, id)
  {
    hide OnTicketSpec, Dispatch, MoveAll;
    if Send(w, env, from, to, assets, memo).Some? && to == GRAB_CISUM {
      OnTicketIsQuiet(w.grab, env.sha, from, assets, memo, env.draw, env.now, id);
    }
  }

  lemma IssueTicketIsQuiet(w: World, env: Env, user: Name, key: S.Key, count: S.U32, memo: Memo, id: nat)
    ensures Quiet(w.grab, After(IssueTicketSpec(w, env, user, key, count, memo), w).grab, id)
  {
    hide Send;
    if IssueTicketSpec(w, env, user, key, count, memo).Some? {
      SendIsQuiet(w.(show := S.SellSpec(w.show, key, count, env.now).value), env, SHOW_CISUM, user, [NAsset(count, key.1)], memo, id);
    }
  }

  lemma {:induction false} IssueEachIsQuiet(w: World, env: Env, recipients: seq<Name>, key: S.Key, count: S.U32, id: nat)
    ensures Quiet(w.grab, After(IssueEach(w, env, recipients, key, count), w).grab, id)
  {
    hide IssueTicketSpec;
    if recipients != [] && IssueEach(w, env, recipients, key, count).Some? {
      var init := recipients[..|recipients| - 1];
      IssueEachIsQuiet(w, env, init, key, count, id);
      IssueTicketIsQuiet(IssueEach(w, env, init, key, count).value, env, recipients[|recipients| - 1], key, count, OtherMemo, id);
    }
  }

  lemma ForeignStepIsQuiet(w: World, act: Action, env: Env, id: nat)
    ensures Quiet(w.grab, After(NftStep(w, act, env), w).grab, id)
    ensures Quiet(w.grab, After(ShowStep(w, act, env), w).grab, id)
  {
    hide Quiet, Send, IssueTicketSpec, IssueEach, BatchChecks;
    Untouched(w.grab, id);
    match act
    case NftTransfer(from, to, assets, memo) => SendIsQuiet(w, env, from, to, assets, memo, id);
    case IssueTicket(user, key, count, memo) => IssueTicketIsQuiet(w, env, user, key, count, memo, id);
    case BatchReward(recipients, key, count) => IssueEachIsQuiet(w, env, recipients, key, count, id);
    case IssueToGrab(to, showId, q, memo) =>
      if ShowStep(w, act, env).Some? {
        SendIsQuiet(w.(show := S.LendSpec(w.show, showId, q).value), env, SHOW_CISUM, to, [q], memo, id);
      }
    case _ =>
  }

  lemma SubGrabIsQuiet(w: World, act: Action, env: Env, id: nat)
    requires act.SubGrab?
    ensures Quiet(w.grab, After(GrabStep(w, act, env), w).grab, id)
  {
    hide Send;
    if GrabStep(w, act, env).Some? {
      var done := SubGrabSpec(w.grab, env.allowed, act.kind, act.id, act.tickets).value;
      SendIsQuiet(w.(grab := done.0), env, GRAB_CISUM, SHOW_CISUM, [act.tickets], BackFromGrab(done.1), id);
    }
  }

  lemma OtherSaleIsQuiet(w: World, act: Action, env: Env, id: nat)
    requires (act.PayGrab? || act.DelSale?) && act.id != id
    ensures Quiet(w.grab, After(GrabStep(w, act, env), w).grab, id)
  {
    hide Dispatch, DelSaleSpec, Wins, OrderHashTaken, HasWon, WrapU32, InRange;
    if act.DelSale? {
      DelSaleEffect(w.grab, env.allowed, act.id, act.forced, env.now);
    }
  }

  lemma SetUpIsQuiet(w: World, act: Action, env: Env, id: nat)
    requires act.AddToken? || act.AddSale? || act.SetSale? || act.AddUpgrade? || act.SetUpgrade? || act.DelUpgrade?
    requires id <= w.grab.lastSaleId
    ensures Quiet(w.grab, After(GrabStep(w, act, env), w).grab, id)
  {
    hide Dispatch, SettleAll, TimesOk, InRange, RATIO_BASE;
  }

  lemma GrabStepIsQuiet(w: World, act: Action, env: Env, id: nat)
    requires id <= w.grab.lastSaleId && !((act.PayGrab? || act.DelSale?) && act.id == id)
    ensures Quiet(w.grab, After(GrabStep(w, act, env), w).grab, id)
  {
    hide Quiet, Send, Dispatch, SubGrabSpec, AddTokenSpec, AddSaleSpec, SetSaleSpec, AddUpgradeSpec, SetUpgradeSpec, PayGrabSpec, DelSaleSpec, DelUpgradeSpec;
    Untouched(w.grab, id);
    if act.SubGrab? {
      SubGrabIsQuiet(w, act, env, id);
    } else if act.PayGrab? || act.DelSale? {
      OtherSaleIsQuiet(w, act, env, id);
    } else if act.AddToken? || act.AddSale? || act.SetSale? || act.AddUpgrade? || act.SetUpgrade? || act.DelUpgrade? {
      SetUpIsQuiet(w, act, env, id);
    }
  }

  lemma StepIsQuiet(w: World, act: Action, env: Env, id: nat)
    requires id <= w.grab.lastSaleId && !((act.PayGrab? || act.DelSale?) && act.id == id)
    ensures Quiet(w.grab, After(Step(w, act, env), w).grab, id)
  {
    hide Quiet, NftStep, ShowStep, GrabStep;
    ForeignStepIsQuiet(w, act, env, id);
    GrabStepIsQuiet(w, act, env, id);
  }

  // ---------- Calls ----------

  /** An authorized `delrushsale` of a sale that is there, and either forced or outside the sale's window as it then is. */
  predicate IsCall(g: Grab, e: Event, id: nat) {
    && e.act.DelSale? && e.act.id == id && e.env.allowed && id in g.sales
    && (e.act.forced || !(g.sales[id].startedAt <= e.env.now <= g.sales[id].endedAt))
  }

  ghost function Calls(w: World, trace: seq<Event>, id: nat): nat {
    if trace == [] then 0
    else
      var init, last := trace[..|trace| - 1], trace[|trace| - 1];
      Calls(w, init, id) + if IsCall(Run(w, init).grab, last, id) then 1 else 0
  }

  /** No grab of the sale commits. */
  ghost predicate NoGrabs(w: World, trace: seq<Event>, id: nat) {
    if trace == [] then true
    else
      var init, last := trace[..|trace| - 1], trace[|trace| - 1];
      NoGrabs(w, init, id) && !(last.act.PayGrab? && last.act.id == id && Step(Run(w, init), last.act, last.env).Some?)
  }

  /** Exactly such calls commit, and only while the row is there. */
  lemma CallsCommit(w: World, e: Event, id: nat)
    requires e.act.DelSale? && e.act.id == id
    ensures Step(w, e.act, e.env).Some? <==> IsCall(w.grab, e, id)
  {
    hide DropRows;
  }

  lemma {:induction false} DropTwice(m: map<Name, nat>, a: nat, b: nat)
    ensures DropRows(DropRows(m, a), b) == DropRows(m, a + b)
  {
    hide Lowest;
    if b > 0 {
      DropTwice(m, a, b - 1);
    }
  }

  /** What one call does. */
  lemma CallEffect(w: World, e: Event, id: nat)
    requires e.act.DelSale? && e.act.id == id && Step(w, e.act, e.env).Some?
    ensures var g := w.grab; var h := Step(w, e.act, e.env).value.grab;
            && id in g.sales && h.lastSaleId == g.lastSaleId
            && OrdersOf(h, id) == OrdersOf(g, id)[Min(MAX_CLEAR, |OrdersOf(g, id)|)..]
            && (if |OrdersOf(g, id)| > MAX_CLEAR then StatsOf(h, id) == StatsOf(g, id) && id in h.sales
                else StatsOf(h, id) == DropRows(StatsOf(g, id), MAX_CLEAR) && (id in h.sales <==> |StatsOf(g, id)| > MAX_CLEAR))
  {
    hide DropRows;
    DropRowsSize(StatsOf(w.grab, id), MAX_CLEAR);
    var stats := DropRows(StatsOf(w.grab, id), MAX_CLEAR);
    assert stats == map[] <==> |stats| == 0;
  }

  // ---------- Pages ----------

  function StatPages(orders: nat, calls: nat): nat {
    if calls < Pages(orders, MAX_CLEAR) then 0 else calls - Pages(orders, MAX_CLEAR) + 1
  }

  lemma PagesAre(n: nat, calls: nat)
    ensures Pages(n, MAX_CLEAR) >= 1
    ensures calls < Pages(n, MAX_CLEAR) <==> calls == 0 || MAX_CLEAR * calls < n
  {
    PagesPositive(n, MAX_CLEAR);
    if n > 0 {
      SafeMath.QuotientBounds(n + MAX_CLEAR - 1, MAX_CLEAR);
    }
  }

  /** After `n` calls: the first 1000 * n orders are gone; the call that removes the last of them is the first to remove stats, 1000
      at a time in key order; and the row is there as long as `n` is below the page count of both together. */
  ghost predicate Paged(g: Grab, h: Grab, id: nat, n: nat) {
    var orders, stats := OrdersOf(g, id), StatsOf(g, id);
    && OrdersOf(h, id) == orders[Min(MAX_CLEAR * n, |orders|)..]
    && StatsOf(h, id) == DropRows(stats, MAX_CLEAR * StatPages(|orders|, n))
    && (id in h.sales <==> n < Pages(|orders|, MAX_CLEAR) + Pages(|stats|, MAX_CLEAR) - 1)
    && id <= h.lastSaleId
  }

  lemma CutAgain(orders: seq<Order>, k: nat, page: nat)
    requires k + page <= |orders|
    ensures orders[k..][page..] == orders[k + page..]
  {
  }

  lemma NextPage(g: Grab, h: Grab, t: Grab, id: nat, n: nat)
    requires Paged(g, h, id, n) && id in h.sales && t.lastSaleId == h.lastSaleId
    requires OrdersOf(t, id) == OrdersOf(h, id)[Min(MAX_CLEAR, |OrdersOf(h, id)|)..]
    requires if |OrdersOf(h, id)| > MAX_CLEAR then StatsOf(t, id) == StatsOf(h, id) && id in t.sales
             else StatsOf(t, id) == DropRows(StatsOf(h, id), MAX_CLEAR) && (id in t.sales <==> |StatsOf(h, id)| > MAX_CLEAR)
    ensures Paged(g, t, id, n + 1)
  {
    hide Pages, DropRows, OrdersOf, StatsOf;
    var orders, stats := OrdersOf(g, id), StatsOf(g, id);
    var k := StatPages(|orders|, n);
    PagesAre(|orders|, n);
    PagesAre(|orders|, n + 1);
    PagesAre(|stats|, k + 1);
    CutAgain(orders, Min(MAX_CLEAR * n, |orders|), Min(MAX_CLEAR, |OrdersOf(h, id)|));
    DropTwice(stats, MAX_CLEAR * k, MAX_CLEAR);
    DropRowsSize(stats, MAX_CLEAR * k);
  }

  lemma StartPaged(g: Grab, id: nat)
    requires id in g.sales && IdsOk(g)
    ensures Paged(g, g, id, 0)
  {
    hide Pages, DropRows;
    PagesAre(|OrdersOf(g, id)|, 0);
    PagesAre(|StatsOf(g, id)|, 0);
    DropNone(StatsOf(g, id));
  }

  lemma QuietKeepsPaged(g: Grab, h: Grab, t: Grab, id: nat, n: nat)
    requires Paged(g, h, id, n) && Quiet(h, t, id)
    ensures Paged(g, t, id, n)
  {
  }

  lemma OneCall(w: World, g: Grab, e: Event, id: nat, n: nat)
    requires Paged(g, w.grab, id, n) && e.act.DelSale? && e.act.id == id
    ensures Paged(g, After(Step(w, e.act, e.env), w).grab, id, n + if IsCall(w.grab, e, id) then 1 else 0)
  {
    hide Step, Paged, IsCall, OrdersOf, StatsOf, DropRows;
    CallsCommit(w, e, id);
    if Step(w, e.act, e.env).Some? {
      CallEffect(w, e, id);
      NextPage(g, w.grab, Step(w, e.act, e.env).value.grab, id, n);
    }
  }

  lemma OneOther(w: World, g: Grab, e: Event, id: nat, n: nat)
    requires Paged(g, w.grab, id, n) && !(e.act.DelSale? && e.act.id == id)
    requires !(e.act.PayGrab? && e.act.id == id && Step(w, e.act, e.env).Some?)
    ensures Paged(g, After(Step(w, e.act, e.env), w).grab, id, n) && !IsCall(w.grab, e, id)
  {
    IdBelow(g, w.grab, id, n);
    hide Step, Paged, Quiet;
    if !(e.act.PayGrab? && e.act.id == id) {
      StepIsQuiet(w, e.act, e.env, id);
      QuietKeepsPaged(g, w.grab, After(Step(w, e.act, e.env), w).grab, id, n);
    }
  }

  lemma IdBelow(g: Grab, h: Grab, id: nat, n: nat)
    requires Paged(g, h, id, n)
    ensures id <= h.lastSaleId
  {
  }

  /** Take any reachable state with a sale that has n orders and m stats, and any further run, each transaction at its own time, in
      which no grab of it commits. The authorized calls that are forced, or made outside the sale's window as it then is, remove first
      the orders and then the stats, 1000 a call; the row is erased by call number
      max(1, ceil(n / 1000)) + max(1, ceil(m / 1000)) - 1 and by no earlier one. */
  lemma {:induction false} SaleClearsInPages(past: seq<Event>, trace: seq<Event>, id: nat)
    requires id in Run(Empty(), past).grab.sales
    requires NoGrabs(Run(Empty(), past), trace, id)
    ensures var w := Run(Empty(), past); Paged(w.grab, Run(w, trace).grab, id, Calls(w, trace, id))
  {
    hide Step, IdsOk, Paged, IsCall;
    var w := Run(Empty(), past);
    if trace == [] {
      TicketClearing.IdsHandedOut(past);
      StartPaged(w.grab, id);
    } else {
      var init, last := trace[..|trace| - 1], trace[|trace| - 1];
      SaleClearsInPages(past, init, id);
      if last.act.DelSale? && last.act.id == id {
        OneCall(Run(w, init), w.grab, last, id, Calls(w, init, id));
      } else {
        OneOther(Run(w, init), w.grab, last, id, Calls(w, init, id));
      }
    }
  }
}
