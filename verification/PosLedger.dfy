/** What every run of pos.cisum keeps: the plan totals against the accounts, and the interest pools
    against the refuels. */
module PosLedger {
  import opened Eosio
  import opened Sums
  import opened PosModel

  ghost function DepositsIn(accounts: map<(Name, U64), SaveAccount>, planId: U64): map<(Name, U64), int> {
    map k | k in accounts :: if accounts[k].planId == planId then accounts[k].deposit.amount else 0
  }

  /** The principal of all open accounts of one plan. */
  ghost function TotalDeposits(s: State, planId: U64): int {
    Sum(DepositsIn(s.accounts, planId))
  }

  ghost predicate AccountBacked(s: State, account: SaveAccount) {
    && account.planId in s.plans
    && 0 < account.deposit.amount <= MAX_AMOUNT
    && account.deposit.sym == s.plans[account.planId].depositAvailable.sym
  }

  ghost predicate PoolOk(plan: Plan) {
    && plan.interestAvailable.sym == plan.conf.interestToken.sym
    && plan.interestAvailable.amount >= 0
    && plan.interestRedeemed.amount >= 0
  }

  /** Every open account sits in an existing plan, and each plan's total is the sum of its accounts. */
  ghost predicate Ledger(s: State) {
    && (forall k | k in s.accounts :: AccountBacked(s, s.accounts[k]))
    && (forall p | p in s.plans :: PoolOk(s.plans[p]))
    && (forall p {:trigger TotalDeposits(s, p)} | p in s.plans :: s.plans[p].depositAvailable.amount == TotalDeposits(s, p))
  }

  // ---------- One account at a time ----------

  /** Replacing an account by one with the same plan and principal changes no total. */
  lemma SamePrincipal(s: State, t: State, k: (Name, U64))
    requires k in s.accounts && k in t.accounts
    requires t.accounts == s.accounts[k := t.accounts[k]]
    requires t.accounts[k].planId == s.accounts[k].planId && t.accounts[k].deposit == s.accounts[k].deposit
    ensures forall p: U64 :: TotalDeposits(t, p) == TotalDeposits(s, p)
  {
    forall p: U64
      ensures TotalDeposits(t, p) == TotalDeposits(s, p)
    {
      assert DepositsIn(t.accounts, p) == DepositsIn(s.accounts, p);
    }
  }

  lemma SameAccounts(s: State, t: State)
    requires t.accounts == s.accounts
    ensures forall p: U64 {:trigger TotalDeposits(t, p)} :: TotalDeposits(t, p) == TotalDeposits(s, p)
  {
  }

  lemma OpenAccount(s: State, t: State, k: (Name, U64), a: SaveAccount)
    requires k !in s.accounts && t.accounts == s.accounts[k := a]
    ensures forall p: U64 :: TotalDeposits(t, p) == TotalDeposits(s, p) + (if p == a.planId then a.deposit.amount else 0)
  {
    forall p: U64
      ensures TotalDeposits(t, p) == TotalDeposits(s, p) + (if p == a.planId then a.deposit.amount else 0)
    {
      var v := if p == a.planId then a.deposit.amount else 0;
      assert DepositsIn(t.accounts, p) == DepositsIn(s.accounts, p)[k := v];
      SumSet(DepositsIn(s.accounts, p), k, v);
    }
  }

  lemma CloseAccount(s: State, t: State, k: (Name, U64))
    requires k in s.accounts && t.accounts == s.accounts - {k}
    ensures forall p: U64 :: TotalDeposits(t, p) == TotalDeposits(s, p) - (if p == s.accounts[k].planId then s.accounts[k].deposit.amount else 0)
  {
    forall p: U64
      ensures TotalDeposits(t, p) == TotalDeposits(s, p) - (if p == s.accounts[k].planId then s.accounts[k].deposit.amount else 0)
    {
      assert DepositsIn(t.accounts, p) == DepositsIn(s.accounts, p) - {k};
      SumRemove(DepositsIn(s.accounts, p), k);
    }
  }

  /** The principal of a plan without accounts is zero, and positive as soon as it has one. */
  lemma TotalIsZeroIffEmpty(s: State, planId: U64)
    requires forall k | k in s.accounts :: s.accounts[k].deposit.amount > 0
    ensures TotalDeposits(s, planId) == 0 <==> forall k | k in s.accounts :: s.accounts[k].planId != planId
    ensures TotalDeposits(s, planId) >= 0
  {
    var m := DepositsIn(s.accounts, planId);
    SumNonNegative(m);
    if k :| k in s.accounts && s.accounts[k].planId == planId {
      assert m[k] > 0;
    } else {
      SumZero(m);
    }
  }

  // ---------- What a committed action changes ----------

  /** `t` differs from `s` in one plan, whose settings and symbols stay. */
  ghost predicate OnePlanMoved(s: State, t: State, planId: U64, deposits: int, pool: int, paid: int) {
    && planId in s.plans && planId in t.plans
    && t.plans == s.plans[planId := t.plans[planId]]
    && var p := s.plans[planId]; var q := t.plans[planId];
    && q.conf == p.conf
    && q.depositAvailable == Asset(p.depositAvailable.amount + deposits, p.depositAvailable.sym)
    && q.interestAvailable == Asset(p.interestAvailable.amount + pool, p.interestAvailable.sym)
    && q.interestAvailable.amount >= 0
    && q.interestRedeemed.amount == p.interestRedeemed.amount + paid
    && t.principal == s.principal
  }

  lemma WithdrawEffect(s: State, signer: Name, owner: Name, saveId: U64, now: U32)
    requires WithdrawSpec(s, signer, owner, saveId, now).Some?
    requires Ledger(s)
    ensures var t := WithdrawSpec(s, signer, owner, saveId, now).value;
            var k := (owner, saveId);
            && k in s.accounts && t.accounts == s.accounts - {k}
            && var a := s.accounts[k];
            && OnePlanMoved(s, t, a.planId, -a.deposit.amount, 0, 0)
  {
    hide Penalty, Premature, Pay;
  }

  lemma CollectEffect(s: State, signer: Name, owner: Name, saveId: U64, now: U32)
    requires CollectSpec(s, signer, owner, saveId, now).Some?
    requires Ledger(s)
    ensures var t := CollectSpec(s, signer, owner, saveId, now).value;
            var k := (owner, saveId);
            && k in s.accounts && k in t.accounts && t.accounts == s.accounts[k := t.accounts[k]]
            && var a := s.accounts[k]; var due := t.accounts[k].interestCollected.amount - a.interestCollected.amount;
            && t.accounts[k] == a.(interestCollected := t.accounts[k].interestCollected, lastCollectedAt := now)
            && due > 0
            && OnePlanMoved(s, t, a.planId, 0, -due, due)
            && Pay(s.purse, s.plans[a.planId].conf.interestToken, owner, due) == Some(t.purse)
  {
    hide TermInterest, Pay;
  }

  lemma RefuelEffect(s: State, planId: U64, quant: Asset, bank: Name)
    requires Refuel(s, planId, quant, bank).Some?
    requires Ledger(s) && quant.amount > 0
    ensures var t := Refuel(s, planId, quant, bank).value;
            && t.accounts == s.accounts && t.purse == s.purse
            && OnePlanMoved(s, t, planId, 0, quant.amount, 0)
            && s.plans[planId].conf.interestToken == Token(quant.sym, bank)
  {
  }

  /** A deposit opens account `a`, pays out its MUSIC reward, and on a nestpont plan pays `points` from the pool. */
  ghost predicate Deposited(s: State, t: State, from: Name, quant: Asset, planId: U64, now: U32,
                            a: SaveAccount, points: nat, rewarded: Purse) {
    && planId in s.plans
    && Opened(s.plans[planId].conf, planId, quant, now) == Some(a)
    && (from, t.lastSaveId) !in s.accounts && t.accounts == s.accounts[(from, t.lastSaveId) := a]
    && quant.sym == s.plans[planId].depositAvailable.sym
    && OnePlanMoved(s, t, planId, quant.amount, 0 - points, points)
    && (if a.musicReward.amount > 0 then Pay(s.purse, Token(MUSIC, SING_TOKEN), from, a.musicReward.amount) == Some(rewarded) else rewarded == s.purse)
    && (if points > 0 then Pay(rewarded, s.plans[planId].conf.interestToken, from, points) == Some(t.purse) else t.purse == rewarded)
  }

  lemma DepositEffect(s: State, from: Name, quant: Asset, planId: U64, now: U32) returns (a: SaveAccount, points: nat, rewarded: Purse)
    requires Deposit(s, from, quant, planId, now).Some?
    requires Ledger(s)
    ensures Deposited(s, Deposit(s, from, quant, planId, now).value, from, quant, planId, now, a, points, rewarded)
  {
    hide Opened, Points, Pay;
    var plan := s.plans[planId];
    a := Opened(plan.conf, planId, quant, now).value;
    rewarded := if a.musicReward.amount > 0 then Pay(s.purse, Token(MUSIC, SING_TOKEN), from, a.musicReward.amount).value else s.purse;
    points := if plan.conf.pool.NestPont? then Points(a.deposit, plan.conf.interestToken.sym.precision, a.rate, plan.conf.termDays).value else 0;
  }

  lemma OpenedBasics(conf: PlanConf, planId: U64, quant: Asset, now: U32)
    requires Opened(conf, planId, quant, now).Some?
    ensures Opened(conf, planId, quant, now).value.planId == planId && Opened(conf, planId, quant, now).value.deposit == quant
  {
    hide InterestRate, MusicReward, TermInterest, TermSeconds;
  }

  // ---------- One step at a time ----------

  /** The ledger holds again when only one plan moved, by what its accounts moved. */
  lemma OnePlanKeepsLedger(s: State, t: State, planId: U64, deposits: int, pool: int, paid: nat)
    requires Ledger(s) && OnePlanMoved(s, t, planId, deposits, pool, paid)
    requires forall k | k in t.accounts ::
               && AccountBacked(s, t.accounts[k])
    requires forall p: U64 {:trigger TotalDeposits(t, p)} :: TotalDeposits(t, p) == TotalDeposits(s, p) + if p == planId then deposits else 0
    ensures Ledger(t)
  {
  }

  lemma SetPlanKeepsLedger(s: State, signer: Name, planId: U64, conf: PlanConf, now: U32)
    requires Ledger(s)
    ensures Ledger(After(SetPlanSpec(s, signer, planId, conf, now), s))
  {
    var r := SetPlanSpec(s, signer, planId, conf, now);
    if r.Some? {
      SameAccounts(s, r.value);
      if planId !in s.plans {
        SumZero(DepositsIn(s.accounts, planId));
      }
    }
  }

  lemma WithdrawKeepsLedger(s: State, signer: Name, owner: Name, saveId: U64, now: U32)
    requires Ledger(s)
    ensures Ledger(After(WithdrawSpec(s, signer, owner, saveId, now), s))
  {
    hide WithdrawSpec;
    var r := WithdrawSpec(s, signer, owner, saveId, now);
    if r.Some? {
      WithdrawEffect(s, signer, owner, saveId, now);
      var a := s.accounts[(owner, saveId)];
      CloseAccount(s, r.value, (owner, saveId));
      OnePlanKeepsLedger(s, r.value, a.planId, -a.deposit.amount, 0, 0);
    }
  }

  lemma CollectKeepsLedger(s: State, signer: Name, owner: Name, saveId: U64, now: U32)
    requires Ledger(s)
    ensures Ledger(After(CollectSpec(s, signer, owner, saveId, now), s))
  {
    hide CollectSpec;
    var r := CollectSpec(s, signer, owner, saveId, now);
    if r.Some? {
      var k := (owner, saveId);
      CollectEffect(s, signer, owner, saveId, now);
      SamePrincipal(s, r.value, k);
      var due := r.value.accounts[k].interestCollected.amount - s.accounts[k].interestCollected.amount;
      OnePlanKeepsLedger(s, r.value, s.accounts[k].planId, 0, -due, due);
    }
  }

  lemma DepositKeepsLedger(s: State, from: Name, quant: Asset, planId: U64, now: U32)
    requires Ledger(s) && 0 < quant.amount <= MAX_AMOUNT
    ensures Ledger(After(Deposit(s, from, quant, planId, now), s))
  {
    hide Deposit, Opened;
    var r := Deposit(s, from, quant, planId, now);
    if r.Some? {
      var a, points, _ := DepositEffect(s, from, quant, planId, now);
      OpenedBasics(s.plans[planId].conf, planId, quant, now);
      OpenAccount(s, r.value, (from, r.value.lastSaveId), a);
      var spent: int := points;
      OnePlanKeepsLedger(s, r.value, planId, quant.amount, -spent, points);
    }
  }

  lemma RefuelKeepsLedger(s: State, planId: U64, quant: Asset, bank: Name)
    requires Ledger(s) && quant.amount > 0
    ensures Ledger(After(Refuel(s, planId, quant, bank), s))
  {
    hide Refuel;
    var r := Refuel(s, planId, quant, bank);
    if r.Some? {
      RefuelEffect(s, planId, quant, bank);
      SameAccounts(s, r.value);
      OnePlanKeepsLedger(s, r.value, planId, 0, quant.amount, 0);
    }
  }

  ghost function Credited(s: State, bank: Name, quant: Asset): State
    requires quant.amount >= 0
  {
    var token := Token(quant.sym, bank);
    s.(purse := Credit(s.purse, token, quant.amount))
  }

  lemma CreditKeepsLedger(s: State, bank: Name, quant: Asset)
    requires Ledger(s) && quant.amount >= 0
    ensures Ledger(Credited(s, bank, quant))
  {
    SameAccounts(s, Credited(s, bank, quant));
  }

  lemma MusicKeepsLedger(s: State, from: Name, quant: Asset, saveId: U64)
    requires Ledger(s)
    ensures Ledger(After(ReturnMusic(s, from, quant, saveId), s))
    ensures Ledger(After(FillTreasury(s, quant), s))
  {
    if ReturnMusic(s, from, quant, saveId).Some? {
      SamePrincipal(s, ReturnMusic(s, from, quant, saveId).value, (from, saveId));
    }
    SameAccounts(s, After(FillTreasury(s, quant), s));
  }

  lemma TransferInKeepsLedger(s: State, from: Name, bank: Name, quant: Asset, memo: Memo, now: U32)
    requires Ledger(s)
    ensures Ledger(After(TransferInSpec(s, from, bank, quant, memo, now), s))
  {
    hide Deposit, Refuel, ReturnMusic, FillTreasury, Ledger;
    if TransferInSpec(s, from, bank, quant, memo, now).Some? {
      var c := Credited(s, bank, quant);
      CreditKeepsLedger(s, bank, quant);
      match memo
      case Empty => DepositKeepsLedger(c, from, quant, 1, now);
      case DepositTo(planId) => DepositKeepsLedger(c, from, quant, planId, now);
      case RefuelPlan(planId) => RefuelKeepsLedger(c, planId, quant, bank);
      case ReturnFor(saveId) => MusicKeepsLedger(c, from, quant, saveId);
      case RefuelTreasury => MusicKeepsLedger(c, from, quant, 0);
      case OtherMemo =>
    }
  }

  /** Every action but `delplan` keeps the ledger, a repeated `init` included. */
  lemma StepKeepsLedger(s: State, act: Action, now: U32)
    requires Ledger(s) && !act.DelPlan?
    ensures Ledger(After(Step(s, act, now), s))
  {
    match act
    case Init(signer, principal, minDeposit) =>
      SameAccounts(s, After(Step(s, act, now), s));
    case SetPlan(signer, planId, conf) => SetPlanKeepsLedger(s, signer, planId, conf, now);
    case Withdraw(signer, owner, saveId) => WithdrawKeepsLedger(s, signer, owner, saveId, now);
    case CollectInt(signer, owner, saveId) => CollectKeepsLedger(s, signer, owner, saveId, now);
    case TransferIn(from, bank, quant, memo) => TransferInKeepsLedger(s, from, bank, quant, memo, now);
  }

  /** Over every run without `delplan`, each plan's `deposit_available` is the sum of its open accounts. */
  lemma {:induction false} RunKeepsLedger(s: State, trace: seq<Event>)
    requires Ledger(s)
    requires forall e | e in trace :: !e.act.DelPlan?
    ensures Ledger(Run(s, trace))
  {
    if trace != [] {
      var last := trace[|trace| - 1];
      RunKeepsLedger(s, trace[..|trace| - 1]);
      StepKeepsLedger(Run(s, trace[..|trace| - 1]), last.act, last.now);
    }
  }

  /** From the first transaction on. */
  lemma ReachableBalances(p: Token, minDeposit: Asset, trace: seq<Event>)
    requires forall e | e in trace :: !e.act.DelPlan?
    ensures Ledger(Run(Fresh(p, minDeposit), trace))
  {
    FreshBalances(p, minDeposit);
    RunKeepsLedger(Fresh(p, minDeposit), trace);
  }

  lemma FreshBalances(p: Token, minDeposit: Asset)
    ensures Ledger(Fresh(p, minDeposit))
  {
  }

  /** `delplan` keeps the ledger exactly when the plan's deposit total is zero. */
  lemma DelPlanKeepsLedgerIff(s: State, signer: Name, planId: U64)
    requires Ledger(s) && DelPlanSpec(s, signer, planId).Some?
    ensures Ledger(DelPlanSpec(s, signer, planId).value) <==> s.plans[planId].depositAvailable.amount == 0
  {
    var t := DelPlanSpec(s, signer, planId).value;
    SameAccounts(s, t);
    TotalIsZeroIffEmpty(s, planId);
    if k :| k in s.accounts && s.accounts[k].planId == planId {
      assert !AccountBacked(t, t.accounts[k]);
    } else {
      forall k | k in t.accounts
        ensures AccountBacked(t, t.accounts[k])
      {
        assert AccountBacked(s, s.accounts[k]);
      }
    }
  }

  // ---------- Refuels ----------

  /** What a committed action adds to the interest pool of a plan. */
  ghost function Refuelled(s: State, e: Event, planId: U64): int {
    if Step(s, e.act, e.now).Some? && e.act.TransferIn? && e.act.memo == RefuelPlan(planId)
       && e.act.bank in {SING_TOKEN, CISUM_TOKEN}
    then e.act.quant.amount else 0
  }

  ghost function TotalRefuelled(s: State, trace: seq<Event>, planId: U64): int {
    if trace == [] then 0
    else
      var init := trace[..|trace| - 1];
      TotalRefuelled(s, init, planId) + Refuelled(Run(s, init), trace[|trace| - 1], planId)
  }

  /** Interest still in the pool plus interest paid out. */
  ghost function PoolTotal(s: State, planId: U64): int {
    if planId in s.plans then s.plans[planId].interestAvailable.amount + s.plans[planId].interestRedeemed.amount else 0
  }

  lemma TransferMovesPoolByRefuel(s: State, e: Event, planId: U64)
    requires Ledger(s) && e.act.TransferIn?
    ensures PoolTotal(After(Step(s, e.act, e.now), s), planId) == PoolTotal(s, planId) + Refuelled(s, e, planId)
  {
    hide Deposit, Refuel, Ledger;
    var act := e.act;
    if Step(s, act, e.now).Some? {
      var c := Credited(s, act.bank, act.quant);
      CreditKeepsLedger(s, act.bank, act.quant);
      match act.memo
      case Empty => if act.bank == SING_TOKEN { var _, _, _ := DepositEffect(c, act.from, act.quant, 1, e.now); }
      case DepositTo(p) => if act.bank == SING_TOKEN { var _, _, _ := DepositEffect(c, act.from, act.quant, p, e.now); }
      case RefuelPlan(p) => if act.bank in {SING_TOKEN, CISUM_TOKEN} { RefuelEffect(c, p, act.quant, act.bank); }
      case _ =>
    }
  }

  lemma StepMovesPoolByRefuel(s: State, e: Event, planId: U64)
    requires Ledger(s) && !e.act.DelPlan?
    ensures PoolTotal(After(Step(s, e.act, e.now), s), planId) == PoolTotal(s, planId) + Refuelled(s, e, planId)
  {
    hide WithdrawSpec, CollectSpec, TransferInSpec;
    if Step(s, e.act, e.now).Some? {
      match e.act
      case Init(_, _, _) =>
      case SetPlan(_, _, _) =>
      case Withdraw(signer, owner, saveId) => WithdrawEffect(s, signer, owner, saveId, e.now);
      case CollectInt(signer, owner, saveId) => CollectEffect(s, signer, owner, saveId, e.now);
      case TransferIn(_, _, _, _) => TransferMovesPoolByRefuel(s, e, planId);
    }
  }

  /** Over every run without `delplan`, `interest_available + interest_redeemed` moves by the plan's refuels
      and by nothing else: no payment and no change of settings creates or loses interest. */
  lemma {:induction false} PoolIsAllRefuels(s: State, trace: seq<Event>, planId: U64)
    requires Ledger(s)
    requires forall e | e in trace :: !e.act.DelPlan?
    ensures PoolTotal(Run(s, trace), planId) == PoolTotal(s, planId) + TotalRefuelled(s, trace, planId)
  {
    if trace != [] {
      var init := trace[..|trace| - 1];
      PoolIsAllRefuels(s, init, planId);
      RunKeepsLedger(s, init);
      StepMovesPoolByRefuel(Run(s, init), trace[|trace| - 1], planId);
    }
  }
}
