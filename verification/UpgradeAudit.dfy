/** The books of every ticket upgrade balance in every run, up to the first clean-up call for that upgrade. */
module UpgradeAudit {
  import opened Eosio
  import opened TicketLedger
  import opened GrabModel
  import opened GrabAudit
  import opened TicketWorld
  import TicketAudit
  import S = ShowModel

  function WinsOf(logs: seq<Log>): nat {
    if logs == [] then 0
    else WinsOf(logs[..|logs| - 1]) + if logs[|logs| - 1].won.amount > 0 then 1 else 0
  }

  /** A log won one target ticket or none, grab ids are distinct, and a winner joins no more. */
  ghost predicate LogsFair(target: Nid, logs: seq<Log>) {
    && (forall i | 0 <= i < |logs| :: logs[i].won == NAsset(0, target) || logs[i].won == NAsset(1, target))
    && (forall i, j | 0 <= i < j < |logs| :: logs[i].grabId != logs[j].grabId)
    && (forall i, j | 0 <= i < j < |logs| :: logs[i].won.amount > 0 ==> logs[j].account != logs[i].account)
  }

  ghost predicate UpgradeBooks(up: Upgrade, logs: seq<Log>) {
    && up.available == up.total - up.grabbed && up.available >= 0
    && up.totalGrabs == WrapU32(|logs|)
    && up.grabbed == WinsOf(logs)
    && LogsFair(up.targetId, logs)
  }

  ghost predicate UpgradeAudited(g: Grab, id: nat) {
    id in g.upgrades ==> UpgradeBooks(g.upgrades[id], LogsOf(g, id))
  }

  /** Row, stock and logs of upgrade `id` as before, up to settings and stock coming in or going out. */
  ghost predicate UpgradeUntouched(g: Grab, h: Grab, id: nat) {
    && LogsOf(h, id) == LogsOf(g, id)
    && (id in h.upgrades <==> id in g.upgrades)
    && (id in g.upgrades ==>
          var u, v := g.upgrades[id], h.upgrades[id];
          && v.available - u.available == v.total - u.total && v.available >= 0
          && v.grabbed == u.grabbed && v.totalGrabs == u.totalGrabs && v.targetId == u.targetId)
  }

  lemma UntouchedKeepsUpgrade(g: Grab, h: Grab, id: nat)
    requires UpgradeAudited(g, id) && UpgradeUntouched(g, h, id)
    ensures UpgradeAudited(h, id)
  {
  }

  lemma OneMoreLog(up: Upgrade, logs: seq<Log>, sha: string -> nat, log: Log)
    requires UpgradeBooks(up, logs)
    requires log.won == NAsset(0, up.targetId) || (log.won == NAsset(1, up.targetId) && up.available > 0)
    requires !LogHashTaken(sha, logs, log.grabId) && !HasWonUpgrade(logs, log.account)
    ensures var n := log.won.amount;
            UpgradeBooks(up.(totalGrabs := WrapU32(up.totalGrabs + 1), grabbed := up.grabbed + n, available := up.total - (up.grabbed + n)), logs + [log])
  {
    assert (logs + [log])[..|logs|] == logs;
    assert forall i | 0 <= i < |logs| :: sha(logs[i].grabId) != sha(log.grabId);
    assert forall i | 0 <= i < |logs| :: logs[i].won.amount > 0 ==> logs[i].account != log.account;
  }

  lemma JoinKeepsUpgrade(g: Grab, sha: string -> nat, from: Name, tickets: NAsset, which: nat, grabId: string, draw: nat, now: nat, id: nat)
    requires UpgradeAudited(g, id) && JoinUpgradeSpec(g, sha, from, tickets, which, grabId, draw, now).Some?
    ensures UpgradeAudited(JoinUpgradeSpec(g, sha, from, tickets, which, grabId, draw, now).value.0, id)
  {
    hide Wins, LogHashTaken, HasWonUpgrade, UpgradeBooks, WrapU32;
    var h := JoinUpgradeSpec(g, sha, from, tickets, which, grabId, draw, now).value.0;
    if which == id {
      var up := g.upgrades[id];
      var win := Wins(up.winRatio, draw);
      StockLeft(up, LogsOf(g, id));
      OneMoreLog(up, LogsOf(g, id), sha, Log(g.lastOrderId + 1, grabId, from, tickets, NAsset(if win then 1 else 0, up.targetId)));
    }
  }

  lemma StockLeft(up: Upgrade, logs: seq<Log>)
    requires UpgradeBooks(up, logs)
    ensures up.available == up.total - up.grabbed
  {
  }

  lemma OnTicketKeepsUpgrade(g: Grab, sha: string -> nat, from: Name, assets: seq<NAsset>, memo: Memo, draw: nat, now: nat, id: nat)
    requires UpgradeAudited(g, id) && OnTicketSpec(g, sha, from, assets, memo, draw, now).Some?
    ensures UpgradeAudited(OnTicketSpec(g, sha, from, assets, memo, draw, now).value.0, id)
  {
    hide JoinUpgradeSpec, LogsFair, WinsOf;
    var h := OnTicketSpec(g, sha, from, assets, memo, draw, now).value.0;
    match memo
    case JoinUpgrade(which, grabId) => JoinKeepsUpgrade(g, sha, from, assets[0], which, grabId, draw, now, id);
    case AddToSale(_) => UntouchedKeepsUpgrade(g, h, id);
    case AddToUpgrade(_) => UntouchedKeepsUpgrade(g, h, id);
    case _ =>
  }

  lemma SendKeepsUpgrade(w: World, env: Env, from: Name, to: Name, assets: seq<NAsset>, memo: Memo, id: nat)
    requires UpgradeAudited(w.grab, id)
    ensures UpgradeAudited(After(Send(w, env, from, to, assets, memo), w).grab, id)
  {
    hide UpgradeAudited, OnTicketSpec, Dispatch, MoveAll;
    if Send(w, env, from, to, assets, memo).Some? && to == GRAB_CISUM {
      OnTicketKeepsUpgrade(w.grab, env.sha, from, assets, memo, env.draw, env.now, id);
    }
  }

  lemma IssueTicketKeepsUpgrade(w: World, env: Env, user: Name, key: S.Key, count: S.U32, memo: Memo, id: nat)
    requires UpgradeAudited(w.grab, id)
    ensures UpgradeAudited(After(IssueTicketSpec(w, env, user, key, count, memo), w).grab, id)
  {
    hide UpgradeAudited, Send;
    if IssueTicketSpec(w, env, user, key, count, memo).Some? {
      var show := S.SellSpec(w.show, key, count, env.now).value;
      SendKeepsUpgrade(w.(show := show), env, SHOW_CISUM, user, [NAsset(count, key.1)], memo, id);
    }
  }

  lemma {:induction false} IssueEachKeepsUpgrade(w: World, env: Env, recipients: seq<Name>, key: S.Key, count: S.U32, id: nat)
    requires UpgradeAudited(w.grab, id)
    ensures UpgradeAudited(After(IssueEach(w, env, recipients, key, count), w).grab, id)
  {
    hide IssueTicketSpec, UpgradeAudited;
    if recipients != [] && IssueEach(w, env, recipients, key, count).Some? {
      var init := recipients[..|recipients| - 1];
      IssueEachKeepsUpgrade(w, env, init, key, count, id);
      IssueTicketKeepsUpgrade(IssueEach(w, env, init, key, count).value, env, recipients[|recipients| - 1], key, count, OtherMemo, id);
    }
  }

  lemma ForeignStepKeepsUpgrade(w: World, act: Action, env: Env, id: nat)
    requires UpgradeAudited(w.grab, id)
    ensures UpgradeAudited(After(NftStep(w, act, env), w).grab, id)
    ensures UpgradeAudited(After(ShowStep(w, act, env), w).grab, id)
  {
    hide UpgradeAudited, Send, IssueTicketSpec, IssueEach, BatchChecks;
    match act
    case NftTransfer(from, to, assets, memo) => SendKeepsUpgrade(w, env, from, to, assets, memo, id);
    case IssueTicket(user, key, count, memo) => IssueTicketKeepsUpgrade(w, env, user, key, count, memo, id);
    case BatchReward(recipients, key, count) => IssueEachKeepsUpgrade(w, env, recipients, key, count, id);
    case IssueToGrab(to, showId, q, memo) =>
      if ShowStep(w, act, env).Some? {
        SendKeepsUpgrade(w.(show := S.LendSpec(w.show, showId, q).value), env, SHOW_CISUM, to, [q], memo, id);
      }
    case _ =>
  }

  lemma AddUpgradeKeepsUpgrade(g: Grab, authorized: bool, exist: bool, up: Upgrade, id: nat)
    requires IdsOk(g) && UpgradeAudited(g, id) && AddUpgradeSpec(g, authorized, exist, up).Some?
    ensures UpgradeAudited(AddUpgradeSpec(g, authorized, exist, up).value, id)
  {
    var h := AddUpgradeSpec(g, authorized, exist, up).value;
    if id == h.lastSaleId {
      assert LogsOf(h, id) == [];
    }
  }

  lemma SubGrabKeepsUpgrade(w: World, act: Action, env: Env, id: nat)
    requires act.SubGrab? && UpgradeAudited(w.grab, id)
    ensures UpgradeAudited(After(GrabStep(w, act, env), w).grab, id)
  {
    hide LogsFair, WinsOf, Send;
    if GrabStep(w, act, env).Some? {
      var done := SubGrabSpec(w.grab, env.allowed, act.kind, act.id, act.tickets).value;
      UntouchedKeepsUpgrade(w.grab, done.0, id);
      hide UpgradeAudited;
      SendKeepsUpgrade(w.(grab := done.0), env, GRAB_CISUM, SHOW_CISUM, [act.tickets], BackFromGrab(done.1), id);
    }
  }

  lemma SameTables(g: Grab, h: Grab, id: nat)
    requires UpgradeAudited(g, id) && h.upgrades == g.upgrades && h.logs == g.logs
    ensures UpgradeAudited(h, id)
  {
  }

  lemma SaleStepKeepsUpgrade(w: World, act: Action, env: Env, id: nat)
    requires act.AddToken? || act.AddSale? || act.SetSale? || act.PayGrab? || act.DelSale?
    requires UpgradeAudited(w.grab, id)
    ensures UpgradeAudited(After(GrabStep(w, act, env), w).grab, id)
  {
    hide UpgradeAudited, Dispatch, DelSaleSpec, TimesOk, Wins, OrderHashTaken, HasWon, WrapU32, InRange;
    if act.DelSale? {
      DelSaleEffect(w.grab, env.allowed, act.id, act.forced, env.now);
    }
    if GrabStep(w, act, env).Some? {
      SameTables(w.grab, GrabStep(w, act, env).value.grab, id);
    }
  }

  lemma OtherStepKeepsUpgrade(w: World, act: Action, env: Env, id: nat)
    requires act.SetUpgrade? || (act.DelUpgrade? && act.id != id)
    requires UpgradeAudited(w.grab, id)
    ensures UpgradeAudited(After(GrabStep(w, act, env), w).grab, id)
  {
    hide LogsFair, WinsOf, Dispatch, SettleAll, TimesOk;
    if GrabStep(w, act, env).Some? {
      UntouchedKeepsUpgrade(w.grab, GrabStep(w, act, env).value.grab, id);
    }
  }

  lemma StepKeepsUpgrade(w: World, act: Action, env: Env, id: nat)
    requires IdsOk(w.grab) && UpgradeAudited(w.grab, id) && !(act.DelUpgrade? && act.id == id)
    ensures UpgradeAudited(After(Step(w, act, env), w).grab, id)
  {
    hide UpgradeAudited, NftStep, ShowStep, IdsOk, SubGrabSpec, PayGrabSpec, AddUpgradeSpec, DelSaleSpec, DelUpgradeSpec, Send, Dispatch;
    ForeignStepKeepsUpgrade(w, act, env, id);
    if act.SubGrab? {
      SubGrabKeepsUpgrade(w, act, env, id);
    } else if act.AddUpgrade? {
      if GrabStep(w, act, env).Some? {
        var up := act.upgrade;
        AddUpgradeKeepsUpgrade(w.grab, env.allowed,
                               (up.showId, up.targetId) in w.show.tickets && (up.showId, up.pay.nid) in w.show.tickets, up, id);
      }
    } else if act.AddToken? || act.AddSale? || act.SetSale? || act.PayGrab? || act.DelSale? {
      SaleStepKeepsUpgrade(w, act, env, id);
    } else if act.SetUpgrade? || act.DelUpgrade? {
      OtherStepKeepsUpgrade(w, act, env, id);
    }
  }

  lemma NeverDeleted(w: World, act: Action, env: Env)
    requires IdsOk(w.grab)
    ensures IdsOk(After(Step(w, act, env), w).grab)
  {
    hide Step, BooksOk;
    var id := w.grab.lastSaleId + 1;
    var other := if act.DelSale? && act.id == id then id + 1 else id;
    TicketAudit.StepKeepsBooks(w, act, env, other);
  }

  /** Over every run without a clean-up call for upgrade `id`: tickets left are those supplied less one per winning log, the
      counters are the log counts, grab ids are distinct, every log won one target ticket or none, and nobody joins again after
      winning. */
  lemma {:induction false} RunKeepsUpgrade(trace: seq<Event>, id: nat)
    requires forall i | 0 <= i < |trace| :: !(trace[i].act.DelUpgrade? && trace[i].act.id == id)
    ensures UpgradeAudited(Run(Empty(), trace).grab, id) && IdsOk(Run(Empty(), trace).grab)
  {
    hide UpgradeAudited, IdsOk, Step;
    if trace == [] {
      EmptyUpgrade(id);
    } else {
      var init, last := trace[..|trace| - 1], trace[|trace| - 1];
      RunKeepsUpgrade(init, id);
      StepKeepsUpgrade(Run(Empty(), init), last.act, last.env, id);
      NeverDeleted(Run(Empty(), init), last.act, last.env);
    }
  }

  lemma EmptyUpgrade(id: nat)
    ensures UpgradeAudited(Empty().grab, id) && IdsOk(Empty().grab)
  {
  }
}
