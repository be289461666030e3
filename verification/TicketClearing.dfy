/** How many clean-up calls an upgrade needs, over runs of all three contracts with anything else going on in between. */
module TicketClearing {
  import opened Eosio
  import opened TicketLedger
  import opened GrabModel
  import opened GrabAudit
  import opened TicketWorld
  import TicketDelivery
  import UpgradeAudit
  import SafeMath
  import S = ShowModel

  // ---------- What leaves an ended upgrade alone ----------

  /** The logs of upgrade `id`, whether it exists, and when it ends. */
  ghost predicate Quiet(g: Grab, h: Grab, id: nat) {
    && LogsOf(h, id) == LogsOf(g, id)
    && (id in h.upgrades <==> id in g.upgrades)
    && (id in g.upgrades ==> h.upgrades[id].endedAt == g.upgrades[id].endedAt)
    && h.lastSaleId >= g.lastSaleId
  }

  ghost predicate Over(g: Grab, id: nat, now: nat) {
    id in g.upgrades ==> now > g.upgrades[id].endedAt
  }

  lemma OnTicketIsQuiet(g: Grab, sha: string -> nat, from: Name, assets: seq<NAsset>, memo: Memo, draw: nat, now: nat, id: nat)
    requires Over(g, id, now) && OnTicketSpec(g, sha, from, assets, memo, draw, now).Some?
    ensures Quiet(g, OnTicketSpec(g, sha, from, assets, memo, draw, now).value.0, id)
  {
    hide Wins, LogHashTaken, HasWonUpgrade, WrapU32, InRange;
  }

  lemma SendIsQuiet(w: World, env: Env, from: Name, to: Name, assets: seq<NAsset>, memo: Memo, id: nat)
    requires Over(w.grab, id, env.now)
    ensures Quiet(w.grab, After(Send(w, env, from, to, assets, memo), w).grab, id)
  {
    hide OnTicketSpec, Dispatch, MoveAll;
    if Send(w, env, from, to, assets, memo).Some? && to == GRAB_CISUM {
      OnTicketIsQuiet(w.grab, env.sha, from, assets, memo, env.draw, env.now, id);
    }
  }

  lemma IssueTicketIsQuiet(w: World, env: Env, user: Name, key: S.Key, count: S.U32, memo: Memo, id: nat)
    requires Over(w.grab, id, env.now)
    ensures Quiet(w.grab, After(IssueTicketSpec(w, env, user, key, count, memo), w).grab, id)
  {
    hide Send;
    if IssueTicketSpec(w, env, user, key, count, memo).Some? {
      SendIsQuiet(w.(show := S.SellSpec(w.show, key, count, env.now).value), env, SHOW_CISUM, user, [NAsset(count, key.1)], memo, id);
    }
  }

  lemma {:induction false} IssueEachIsQuiet(w: World, env: Env, recipients: seq<Name>, key: S.Key, count: S.U32, id: nat)
    requires Over(w.grab, id, env.now)
    ensures Quiet(w.grab, After(IssueEach(w, env, recipients, key, count), w).grab, id)
  {
    hide IssueTicketSpec;
    if recipients != [] && IssueEach(w, env, recipients, key, count).Some? {
      var init := recipients[..|recipients| - 1];
      IssueEachIsQuiet(w, env, init, key, count, id);
      IssueTicketIsQuiet(IssueEach(w, env, init, key, count).value, env, recipients[|recipients| - 1], key, count, OtherMemo, id);
    }
  }

  lemma ForeignStepIsQuiet(w: World, act: Action, env: Env, id: nat)
    requires Over(w.grab, id, env.now)
    ensures Quiet(w.grab, After(NftStep(w, act, env), w).grab, id)
    ensures Quiet(w.grab, After(ShowStep(w, act, env), w).grab, id)
  {
    hide Quiet, Send, IssueTicketSpec, IssueEach, BatchChecks;
    Untouched(w.grab, id);
    match act
    case NftTransfer(from, to, assets, memo) => SendIsQuiet(w, env, from, to, assets, memo, id);
    case IssueTicket(user, key, count, memo) => IssueTicketIsQuiet(w, env, user, key, count, memo, id);
    case BatchReward(recipients, key, count) => IssueEachIsQuiet(w, env, recipients, key, count, id);
    case IssueToGrab(to, showId, q, memo) =>
      if ShowStep(w, act, env).Some? {
        SendIsQuiet(w.(show := S.LendSpec(w.show, showId, q).value), env, SHOW_CISUM, to, [q], memo, id);
      }
    case _ =>
  }

  lemma Untouched(g: Grab, id: nat)
    ensures Quiet(g, g, id)
  {
  }

  lemma SubGrabIsQuiet(w: World, act: Action, env: Env, id: nat)
    requires act.SubGrab? && Over(w.grab, id, env.now)
    ensures Quiet(w.grab, After(GrabStep(w, act, env), w).grab, id)
  {
    hide Send;
    if GrabStep(w, act, env).Some? {
      var done := SubGrabSpec(w.grab, env.allowed, act.kind, act.id, act.tickets).value;
      SendIsQuiet(w.(grab := done.0), env, GRAB_CISUM, SHOW_CISUM, [act.tickets], BackFromGrab(done.1), id);
    }
  }

  lemma SameTables(g: Grab, h: Grab, id: nat)
    requires h.upgrades == g.upgrades && h.logs == g.logs && h.lastSaleId >= g.lastSaleId
    ensures Quiet(g, h, id)
  {
  }

  lemma SaleStepIsQuiet(w: World, act: Action, env: Env, id: nat)
    requires act.AddToken? || act.AddSale? || act.SetSale? || act.PayGrab? || act.DelSale?
    ensures Quiet(w.grab, After(GrabStep(w, act, env), w).grab, id)
  {
    hide Quiet, Dispatch, DelSaleSpec, TimesOk, Wins, OrderHashTaken, HasWon, WrapU32, InRange;
    if act.DelSale? {
      DelSaleEffect(w.grab, env.allowed, act.id, act.forced, env.now);
    }
    SameTables(w.grab, After(GrabStep(w, act, env), w).grab, id);
  }

  lemma UpgradeStepIsQuiet(w: World, act: Action, env: Env, id: nat)
    requires act.AddUpgrade? || ((act.DelUpgrade? || act.SetUpgrade?) && act.id != id)
    requires id <= w.grab.lastSaleId
    ensures Quiet(w.grab, After(GrabStep(w, act, env), w).grab, id)
  {
    hide Dispatch, SettleAll, TimesOk;
  }

  lemma GrabStepIsQuiet(w: World, act: Action, env: Env, id: nat)
    requires Over(w.grab, id, env.now) && id <= w.grab.lastSaleId
    requires !((act.DelUpgrade? || act.SetUpgrade?) && act.id == id)
    ensures Quiet(w.grab, After(GrabStep(w, act, env), w).grab, id)
  {
    hide Quiet, Send, Dispatch, SubGrabSpec, AddTokenSpec, AddSaleSpec, SetSaleSpec, AddUpgradeSpec, SetUpgradeSpec, PayGrabSpec, DelSaleSpec, DelUpgradeSpec;
    Untouched(w.grab, id);
    if act.SubGrab? {
      SubGrabIsQuiet(w, act, env, id);
    } else if act.AddToken? || act.AddSale? || act.SetSale? || act.PayGrab? || act.DelSale? {
      SaleStepIsQuiet(w, act, env, id);
    } else if act.AddUpgrade? || act.SetUpgrade? || act.DelUpgrade? {
      UpgradeStepIsQuiet(w, act, env, id);
    }
  }

  lemma StepIsQuiet(w: World, act: Action, env: Env, id: nat)
    requires Over(w.grab, id, env.now) && id <= w.grab.lastSaleId
    requires !((act.DelUpgrade? || act.SetUpgrade?) && act.id == id)
    ensures Quiet(w.grab, After(Step(w, act, env), w).grab, id)
  {
    hide Quiet, NftStep, ShowStep, GrabStep;
    ForeignStepIsQuiet(w, act, env, id);
    GrabStepIsQuiet(w, act, env, id);
  }

  // ---------- Calls ----------

  lemma {:induction false} IdsHandedOut(trace: seq<Event>)
    ensures IdsOk(Run(Empty(), trace).grab)
  {
    hide IdsOk, Step;
    if trace == [] {
      UpgradeAudit.EmptyUpgrade(0);
    } else {
      IdsHandedOut(trace[..|trace| - 1]);
      UpgradeAudit.NeverDeleted(Run(Empty(), trace[..|trace| - 1]), trace[|trace| - 1].act, trace[|trace| - 1].env);
    }
  }

  predicate IsCall(e: Event, id: nat) { e.act.DelUpgrade? && e.act.id == id && e.env.allowed }

  /** Authorized clean-up calls for upgrade `id`. */
  function Calls(trace: seq<Event>, id: nat): nat {
    if trace == [] then 0
    else Calls(trace[..|trace| - 1], id) + if IsCall(trace[|trace| - 1], id) then 1 else 0
  }

  /** The logs that the committed calls settle, call by call. */
  ghost function Settled(w: World, trace: seq<Event>, id: nat): seq<Log> {
    if trace == [] then []
    else
      var init, last := trace[..|trace| - 1], trace[|trace| - 1];
      var before := Run(w, init);
      Settled(w, init, id) +
      if last.act == DelUpgrade(id) && Step(before, last.act, last.env).Some? then LogsOf(before.grab, id)[..Min(MAX_UPGRADE, |LogsOf(before.grab, id)|)]
      else []
  }

  lemma PagesAre(n: nat, calls: nat)
    ensures calls < Pages(n, MAX_UPGRADE) <==> calls == 0 || MAX_UPGRADE * calls < n
  {
    if n > 0 {
      SafeMath.QuotientBounds(n + MAX_UPGRADE - 1, MAX_UPGRADE);
    }
  }

  /** After `n` calls the first 100 * n logs are settled, and the row is there as long as `n` is below the page count. */
  ghost predicate Paged(g: Grab, h: Grab, id: nat, n: nat, settled: seq<Log>)
    requires id in g.upgrades
  {
    var logs := LogsOf(g, id);
    var k := Min(MAX_UPGRADE * n, |logs|);
    && settled == logs[..k] && LogsOf(h, id) == logs[k..]
    && (id in h.upgrades <==> n < Pages(|logs|, MAX_UPGRADE))
    && (id in h.upgrades ==> h.upgrades[id].endedAt == g.upgrades[id].endedAt)
    && id <= h.lastSaleId
  }

  lemma CallEffect(w: World, id: nat, env: Env)
    requires Step(w, DelUpgrade(id), env).Some?
    ensures var t := Step(w, DelUpgrade(id), env).value.grab; var here := LogsOf(w.grab, id);
            && env.allowed && id in w.grab.upgrades
            && LogsOf(t, id) == here[Min(MAX_UPGRADE, |here|)..]
            && (id in t.upgrades <==> |here| > MAX_UPGRADE)
            && (id in t.upgrades ==> t.upgrades[id].endedAt == w.grab.upgrades[id].endedAt)
            && t.lastSaleId == w.grab.lastSaleId
  {
    hide SettleAll, Dispatch;
  }

  lemma NextPage(g: Grab, h: Grab, t: Grab, id: nat, n: nat, settled: seq<Log>)
    requires id in g.upgrades && Paged(g, h, id, n, settled) && id in h.upgrades
    requires var here := LogsOf(h, id);
             && LogsOf(t, id) == here[Min(MAX_UPGRADE, |here|)..]
             && (id in t.upgrades <==> |here| > MAX_UPGRADE)
             && (id in t.upgrades ==> t.upgrades[id].endedAt == h.upgrades[id].endedAt)
             && t.lastSaleId == h.lastSaleId
    ensures Paged(g, t, id, n + 1, settled + LogsOf(h, id)[..Min(MAX_UPGRADE, |LogsOf(h, id)|)])
  {
    hide Pages, LogsOf;
    var logs := LogsOf(g, id);
    PagesAre(|logs|, n);
    PagesAre(|logs|, n + 1);
    CutAgain(logs, Min(MAX_UPGRADE * n, |logs|), Min(MAX_UPGRADE, |LogsOf(h, id)|));
  }

  lemma NoPageLeft(g: Grab, h: Grab, id: nat, n: nat, settled: seq<Log>)
    requires id in g.upgrades && Paged(g, h, id, n, settled) && id !in h.upgrades
    ensures Paged(g, h, id, n + 1, settled)
  {
    hide Pages;
    PagesAre(|LogsOf(g, id)|, n);
    PagesAre(|LogsOf(g, id)|, n + 1);
  }

  lemma OneCall(w: World, g: Grab, id: nat, n: nat, settled: seq<Log>, env: Env)
    requires id in g.upgrades && Paged(g, w.grab, id, n, settled)
    requires Step(w, DelUpgrade(id), env).Some? <==> env.allowed && id in w.grab.upgrades && env.now > w.grab.upgrades[id].endedAt
    requires env.now > g.upgrades[id].endedAt
    ensures var here := LogsOf(w.grab, id);
            var more := if Step(w, DelUpgrade(id), env).Some? then here[..Min(MAX_UPGRADE, |here|)] else [];
            Paged(g, After(Step(w, DelUpgrade(id), env), w).grab, id, n + if env.allowed then 1 else 0, settled + more)
  {
    hide Step, Paged, LogsOf;
    Standing(g, w.grab, id, n, settled);
    if Step(w, DelUpgrade(id), env).Some? {
      CallEffect(w, id, env);
      NextPage(g, w.grab, Step(w, DelUpgrade(id), env).value.grab, id, n, settled);
    } else {
      assert settled + [] == settled;
      if env.allowed {
        NoPageLeft(g, w.grab, id, n, settled);
      }
    }
  }

  lemma CutAgain(logs: seq<Log>, k: nat, page: nat)
    requires k + page <= |logs|
    ensures logs[..k] + logs[k..][..page] == logs[..k + page] && logs[k..][page..] == logs[k + page..]
  {
  }

  lemma QuietKeepsPaged(g: Grab, h: Grab, t: Grab, id: nat, n: nat, settled: seq<Log>)
    requires id in g.upgrades && Paged(g, h, id, n, settled) && Quiet(h, t, id)
    ensures Paged(g, t, id, n, settled)
  {
  }

  lemma StartPaged(g: Grab, id: nat)
    requires id in g.upgrades && IdsOk(g)
    ensures Paged(g, g, id, 0, [])
  {
    hide Pages;
    PagesAre(|LogsOf(g, id)|, 0);
    assert LogsOf(g, id)[..0] == [] && LogsOf(g, id)[0..] == LogsOf(g, id);
  }

  lemma RunOneMore(w: World, trace: seq<Event>, e: Event)
    ensures Run(w, trace + [e]) == After(Step(Run(w, trace), e.act, e.env), Run(w, trace))
  {
    assert (trace + [e])[..|trace|] == trace;
  }

  lemma {:induction false} RunsCompose(w: World, a: seq<Event>, b: seq<Event>)
    ensures Run(Run(w, a), b) == Run(w, a + b)
  {
    hide Step;
    if b == [] {
      assert a + b == a;
    } else {
      var init, last := b[..|b| - 1], b[|b| - 1];
      RunsCompose(w, a, init);
      assert a + b == (a + init) + [last];
      RunOneMore(w, a + init, last);
    }
  }

  /** Take any reachable state with an upgrade that has n logs, and any further run after its end time, each transaction at its own
      time, in which `setupgrade` does not touch it. The authorized clean-up calls among them settle the logs in order, 100 a call,
      each exactly once; the row is erased by call number max(1, ceil(n / 100)) and by no earlier one. */
  lemma {:induction false} UpgradeClearsInPages(past: seq<Event>, trace: seq<Event>, id: nat)
    requires id in Run(Empty(), past).grab.upgrades
    requires forall i | 0 <= i < |trace| :: trace[i].env.now > Run(Empty(), past).grab.upgrades[id].endedAt
    requires forall i | 0 <= i < |trace| :: !(trace[i].act.SetUpgrade? && trace[i].act.id == id)
    ensures var w := Run(Empty(), past);
            Paged(w.grab, Run(w, trace).grab, id, Calls(trace, id), Settled(w, trace, id))
  {
    hide Step, IdsOk, Paged, Quiet;
    var w := Run(Empty(), past);
    if trace == [] {
      IdsHandedOut(past);
      StartPaged(w.grab, id);
    } else {
      var init, last := trace[..|trace| - 1], trace[|trace| - 1];
      UpgradeClearsInPages(past, init, id);
      var before := Run(w, init);
      RunsCompose(Empty(), past, init);
      Standing(w.grab, before.grab, id, Calls(init, id), Settled(w, init, id));
      assert !(trace[|trace| - 1].act.SetUpgrade? && trace[|trace| - 1].act.id == id);
      if last.act == DelUpgrade(id) {
        TicketDelivery.ClearingCommitsIff(past + init, id, last.env);
        OneCall(before, w.grab, id, Calls(init, id), Settled(w, init, id), last.env);
      } else {
        StepIsQuiet(before, last.act, last.env, id);
        QuietKeepsPaged(w.grab, before.grab, Run(w, trace).grab, id, Calls(init, id), Settled(w, init, id));
        assert Settled(w, init, id) + [] == Settled(w, init, id);
      }
    }
  }

  lemma Standing(g: Grab, h: Grab, id: nat, n: nat, settled: seq<Log>)
    requires id in g.upgrades && Paged(g, h, id, n, settled)
    ensures id <= h.lastSaleId && (id in h.upgrades ==> h.upgrades[id].endedAt == g.upgrades[id].endedAt)
  {
  }
}
