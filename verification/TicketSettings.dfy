/** What the settings of sales and upgrades can be in any run, and that nothing is set up, moved or cleared without permission. */
module TicketSettings {
  import opened Eosio
  import opened TicketLedger
  import opened GrabModel
  import opened GrabAudit
  import opened TicketWorld
  import S = ShowModel

  /** A sale is for a ticket, opens before it closes, asks a positive price in a listed token, lets everyone grab at least once, and wins
      with a chance of at most one. */
  ghost predicate SaleOk(tokens: map<Symbol, Name>, sale: Sale) {
    && sale.ticketId != 0
    && sale.startedAt < sale.endedAt
    && 0 < sale.price.amount <= MAX_AMOUNT && sale.price.sym in tokens
    && sale.maxGrabs > 0 && sale.winRatio <= 10_000
  }

  /** An upgrade pays a positive number of one ticket for another kind, in a window, with a chance of at most one. */
  ghost predicate UpgradeOk(up: Upgrade) {
    && up.startedAt < up.endedAt
    && 0 < up.pay.amount <= MAX_AMOUNT
    && up.pay.nid != 0 && up.targetId != 0 && up.pay.nid != up.targetId
    && up.winRatio <= 10_000
  }

  ghost predicate SettingsOk(g: Grab) {
    && (forall id | id in g.sales :: SaleOk(g.tokens, g.sales[id]))
    && (forall id | id in g.upgrades :: UpgradeOk(g.upgrades[id]))
    && (forall sym | sym in g.tokens :: sym.precision <= 8)
  }

  lemma OnTicketKeepsSettings(g: Grab, sha: string -> nat, from: Name, assets: seq<NAsset>, memo: Memo, draw: nat, now: nat)
    requires SettingsOk(g) && OnTicketSpec(g, sha, from, assets, memo, draw, now).Some?
    ensures SettingsOk(OnTicketSpec(g, sha, from, assets, memo, draw, now).value.0)
  {
    hide Wins, LogHashTaken, HasWonUpgrade, WrapU32, InRange;
  }

  lemma SendKeepsSettings(w: World, env: Env, from: Name, to: Name, assets: seq<NAsset>, memo: Memo)
    requires SettingsOk(w.grab)
    ensures SettingsOk(After(Send(w, env, from, to, assets, memo), w).grab)
  {
    hide OnTicketSpec, Dispatch, MoveAll, SettingsOk;
    if Send(w, env, from, to, assets, memo).Some? && to == GRAB_CISUM {
      OnTicketKeepsSettings(w.grab, env.sha, from, assets, memo, env.draw, env.now);
    }
  }

  lemma IssueTicketKeepsSettings(w: World, env: Env, user: Name, key: S.Key, count: S.U32, memo: Memo)
    requires SettingsOk(w.grab)
    ensures SettingsOk(After(IssueTicketSpec(w, env, user, key, count, memo), w).grab)
  {
    hide Send, SettingsOk;
    if IssueTicketSpec(w, env, user, key, count, memo).Some? {
      SendKeepsSettings(w.(show := S.SellSpec(w.show, key, count, env.now).value), env, SHOW_CISUM, user, [NAsset(count, key.1)], memo);
    }
  }

  lemma {:induction false} IssueEachKeepsSettings(w: World, env: Env, recipients: seq<Name>, key: S.Key, count: S.U32)
    requires SettingsOk(w.grab)
    ensures SettingsOk(After(IssueEach(w, env, recipients, key, count), w).grab)
  {
    hide IssueTicketSpec, SettingsOk;
    if recipients != [] && IssueEach(w, env, recipients, key, count).Some? {
      var init := recipients[..|recipients| - 1];
      IssueEachKeepsSettings(w, env, init, key, count);
      IssueTicketKeepsSettings(IssueEach(w, env, init, key, count).value, env, recipients[|recipients| - 1], key, count, OtherMemo);
    }
  }

  lemma ForeignStepKeepsSettings(w: World, act: Action, env: Env)
    requires SettingsOk(w.grab)
    ensures SettingsOk(After(NftStep(w, act, env), w).grab)
    ensures SettingsOk(After(ShowStep(w, act, env), w).grab)
  {
    hide Send, IssueTicketSpec, IssueEach, BatchChecks, SettingsOk;
    match act
    case NftTransfer(from, to, assets, memo) => SendKeepsSettings(w, env, from, to, assets, memo);
    case IssueTicket(user, key, count, memo) => IssueTicketKeepsSettings(w, env, user, key, count, memo);
    case BatchReward(recipients, key, count) => IssueEachKeepsSettings(w, env, recipients, key, count);
    case IssueToGrab(to, showId, q, memo) =>
      if ShowStep(w, act, env).Some? {
        SendKeepsSettings(w.(show := S.LendSpec(w.show, showId, q).value), env, SHOW_CISUM, to, [q], memo);
      }
    case _ =>
  }

  lemma SubGrabKeepsSettings(w: World, act: Action, env: Env)
    requires act.SubGrab? && SettingsOk(w.grab)
    ensures SettingsOk(After(GrabStep(w, act, env), w).grab)
  {
    hide Send, InRange;
    if GrabStep(w, act, env).Some? {
      var done := SubGrabSpec(w.grab, env.allowed, act.kind, act.id, act.tickets).value;
      SendKeepsSettings(w.(grab := done.0), env, GRAB_CISUM, SHOW_CISUM, [act.tickets], BackFromGrab(done.1));
    }
  }

  lemma PayGrabKeepsSettings(w: World, act: Action, env: Env)
    requires act.PayGrab? && SettingsOk(w.grab)
    ensures SettingsOk(After(GrabStep(w, act, env), w).grab)
  {
    hide Dispatch, Wins, OrderHashTaken, HasWon, WrapU32, InRange;
  }

  lemma DelSaleKeepsSettings(w: World, act: Action, env: Env)
    requires act.DelSale? && SettingsOk(w.grab)
    ensures SettingsOk(After(GrabStep(w, act, env), w).grab)
  {
    hide DelSaleSpec;
    DelSaleRows(w.grab, env.allowed, act.id, act.forced, env.now);
  }

  lemma SaleSetUpKeepsSettings(w: World, act: Action, env: Env)
    requires (act.AddToken? || act.AddSale? || act.SetSale?) && SettingsOk(w.grab)
    ensures SettingsOk(After(GrabStep(w, act, env), w).grab)
  {
  }

  lemma UpgradeSetUpKeepsSettings(w: World, act: Action, env: Env)
    requires (act.AddUpgrade? || act.SetUpgrade? || act.DelUpgrade?) && SettingsOk(w.grab)
    ensures SettingsOk(After(GrabStep(w, act, env), w).grab)
  {
    hide Dispatch, SettleAll;
  }

  lemma StepKeepsSettings(w: World, act: Action, env: Env)
    requires SettingsOk(w.grab)
    ensures SettingsOk(After(Step(w, act, env), w).grab)
  {
    hide NftStep, ShowStep, GrabStep, SettingsOk;
    ForeignStepKeepsSettings(w, act, env);
    match act
    case PayGrab(_, _, _, _, _) => PayGrabKeepsSettings(w, act, env);
    case SubGrab(_, _, _) => SubGrabKeepsSettings(w, act, env);
    case DelSale(_, _) => DelSaleKeepsSettings(w, act, env);
    case AddToken(_, _) => SaleSetUpKeepsSettings(w, act, env);
    case AddSale(_) => SaleSetUpKeepsSettings(w, act, env);
    case SetSale(_, _, _, _, _, _) => SaleSetUpKeepsSettings(w, act, env);
    case AddUpgrade(_) => UpgradeSetUpKeepsSettings(w, act, env);
    case SetUpgrade(_, _, _, _, _) => UpgradeSetUpKeepsSettings(w, act, env);
    case DelUpgrade(_) => UpgradeSetUpKeepsSettings(w, act, env);
    case _ =>
  }

  /** In every reachable world all sales and upgrades have such settings, however they were added and changed. */
  lemma {:induction false} RunKeepsSettings(trace: seq<Event>)
    ensures SettingsOk(Run(Empty(), trace).grab)
  {
    hide Step;
    if trace != [] {
      var init, last := trace[..|trace| - 1], trace[|trace| - 1];
      RunKeepsSettings(init);
      StepKeepsSettings(Run(Empty(), init), last.act, last.env);
    }
  }

  // ---------- Setting up ----------

  function Given<T>(value: Maybe<T>, else_: T): T {
    match value
    case Absent => else_
    case Present(v) => v
  }

  /** A sale is added if and only if that is authorized, its ticket exists and its settings are in order; it gets the next number and
      starts empty. */
  lemma AddSaleTerms(g: Grab, authorized: bool, ticketExists: bool, sale: Sale)
    requires IdsOk(g)
    ensures var id := g.lastSaleId + 1;
            AddSaleSpec(g, authorized, ticketExists, sale)
            == if authorized && ticketExists && SaleOk(g.tokens, sale)
               then Some(g.(lastSaleId := id, sales := g.sales[id := sale.(total := 0, available := 0, grabbed := 0, totalGrabs := 0)]))
               else Abort
  {
  }

  /** A change of settings commits if and only if it is authorized and leaves the sale in order; what is not given stays as it was, and
      so do stock, counters and orders. */
  lemma SetSaleTerms(g: Grab, authorized: bool, id: nat, price: Maybe<Asset>, maxGrabs: Maybe<U32>, winRatio: Maybe<U32>,
                     startedAt: Maybe<nat>, endedAt: Maybe<nat>)
    requires SettingsOk(g)
    ensures var r := SetSaleSpec(g, authorized, id, price, maxGrabs, winRatio, startedAt, endedAt);
            if id !in g.sales then r.Abort?
            else
              var sale := g.sales[id];
              var changed := sale.(price := Given(price, sale.price), maxGrabs := Given(maxGrabs, sale.maxGrabs), winRatio := Given(winRatio, sale.winRatio),
                                   startedAt := Given(startedAt, sale.startedAt), endedAt := Given(endedAt, sale.endedAt));
              r == if authorized && SaleOk(g.tokens, changed) then Some(g.(sales := g.sales[id := changed])) else Abort
  {
    if id in g.sales {
      assert SaleOk(g.tokens, g.sales[id]);
    }
  }

  lemma AddUpgradeTerms(g: Grab, authorized: bool, ticketsExist: bool, up: Upgrade)
    requires IdsOk(g)
    ensures var id := g.lastSaleId + 1;
            AddUpgradeSpec(g, authorized, ticketsExist, up)
            == if authorized && ticketsExist && UpgradeOk(up)
               then Some(g.(lastSaleId := id, upgrades := g.upgrades[id := up.(total := 0, available := 0, grabbed := 0, totalGrabs := 0)]))
               else Abort
  {
  }

  /** The same for an upgrade, whose new payment must be a ticket that exists. */
  lemma SetUpgradeTerms(g: Grab, authorized: bool, ticketExists: bool, id: nat, pay: Maybe<NAsset>, winRatio: Maybe<U32>,
                        startedAt: Maybe<nat>, endedAt: Maybe<nat>)
    requires SettingsOk(g)
    ensures var r := SetUpgradeSpec(g, authorized, ticketExists, id, pay, winRatio, startedAt, endedAt);
            if id !in g.upgrades then r.Abort?
            else
              var up := g.upgrades[id];
              var changed := up.(pay := Given(pay, up.pay), winRatio := Given(winRatio, up.winRatio),
                                 startedAt := Given(startedAt, up.startedAt), endedAt := Given(endedAt, up.endedAt));
              r == if authorized && (pay.Present? ==> ticketExists) && UpgradeOk(changed) then Some(g.(upgrades := g.upgrades[id := changed])) else Abort
  {
    if id in g.upgrades {
      assert UpgradeOk(g.upgrades[id]);
    }
  }

  // ---------- Permissions ----------

  /** Without permission nothing happens but a grab that wins nothing: its payment is another token's transfer. */
  lemma NothingUnauthorized(w: World, act: Action, env: Env)
    requires !env.allowed && Step(w, act, env).Some?
    ensures act.PayGrab?
    ensures Step(w, act, env).value.nft == w.nft && Step(w, act, env).value.show == w.show
  {
    hide MoveAll, SettleAll, DropRows;
  }
}
