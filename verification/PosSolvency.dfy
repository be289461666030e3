/** Whether pos.cisum can always pay: its balance of the principal token against everything it owes in that
    token. The answer depends on the choice of principal token alone, and exactly how is proved here. */
module PosSolvency {
  import opened Eosio
  import opened Sums
  import opened PosModel
  import opened PosLedger

  /** What one plan owes in token `p`: its principal, and its interest pool when that is set to be paid in `p`. */
  ghost function PlanOwes(plan: Plan, p: Token): int {
    plan.depositAvailable.amount + if plan.conf.interestToken == p then plan.interestAvailable.amount else 0
  }

  ghost function OwedByPlan(s: State): map<U64, int> {
    map id | id in s.plans :: PlanOwes(s.plans[id], s.principal)
  }

  ghost function Owed(s: State): int { Sum(OwedByPlan(s)) }

  ghost predicate Solvent(s: State) {
    Balance(s.purse, s.principal) >= Owed(s)
  }

  /** The principal token is not one that leaves or enters the contract on another account's behalf: MUSIC rewards
      are paid in MUSIC, and CISUM pools are filled through cisum.token whatever bank the plan later names. */
  predicate GoodPrincipal(p: Token) {
    p != Token(MUSIC, SING_TOKEN) && (p.sym == CISUM ==> p.bank == CISUM_TOKEN)
  }

  // ---------- A liability that settings cannot move ----------

  /** As `PlanOwes`, counting every pool kept in the principal's symbol. */
  ghost function PlanOwesMost(plan: Plan, p: Token): int {
    plan.depositAvailable.amount + if plan.interestAvailable.sym == p.sym then plan.interestAvailable.amount else 0
  }

  ghost function Debts(s: State, p: Token): map<U64, int> {
    map id | id in s.plans :: PlanOwesMost(s.plans[id], p)
  }

  ghost predicate Covered(s: State, p: Token) {
    && s.principal == p
    && Balance(s.purse, p) >= Sum(Debts(s, p))
    && (forall id | id in s.plans :: s.plans[id].depositAvailable.sym == p.sym)
  }

  lemma CoveredIsSolvent(s: State, p: Token)
    requires Ledger(s) && Covered(s, p)
    ensures Solvent(s)
  {
    forall id | id in s.plans
      ensures OwedByPlan(s)[id] <= Debts(s, p)[id]
    {
      assert PoolOk(s.plans[id]);
    }
    SumMonotone(OwedByPlan(s), Debts(s, p));
  }

  lemma DebtMoves(s: State, t: State, p: Token, id: U64, deposits: int, pool: int, paid: int)
    requires OnePlanMoved(s, t, id, deposits, pool, paid)
    ensures Sum(Debts(t, p)) == Sum(Debts(s, p)) + deposits + if s.plans[id].interestAvailable.sym == p.sym then pool else 0
  {
    assert Debts(t, p) == Debts(s, p)[id := PlanOwesMost(t.plans[id], p)];
    SumSet(Debts(s, p), id, PlanOwesMost(t.plans[id], p));
  }

  lemma SameDebts(s: State, t: State, p: Token)
    requires t.plans == s.plans
    ensures Debts(t, p) == Debts(s, p)
  {
  }

  // ---------- One step at a time ----------

  lemma SetPlanEffect(s: State, p: Token, signer: Name, planId: U64, conf: PlanConf, now: U32) returns (plan: Plan)
    requires Ledger(s) && s.principal == p && SetPlanSpec(s, signer, planId, conf, now).Some?
    ensures var t := SetPlanSpec(s, signer, planId, conf, now).value;
            t == s.(plans := s.plans[planId := plan])
    ensures plan.depositAvailable.sym == p.sym
    ensures PlanOwesMost(plan, p) == if planId in s.plans then PlanOwesMost(s.plans[planId], p) else 0
  {
    plan := SetPlanSpec(s, signer, planId, conf, now).value.plans[planId];
    if planId in s.plans {
      assert PoolOk(s.plans[planId]);
    }
  }

  lemma SetPlanKeepsCovered(s: State, p: Token, signer: Name, planId: U64, conf: PlanConf, now: U32)
    requires Ledger(s) && Covered(s, p)
    ensures Covered(After(SetPlanSpec(s, signer, planId, conf, now), s), p)
  {
    hide SetPlanSpec, Ledger, PlanOwesMost;
    var r := SetPlanSpec(s, signer, planId, conf, now);
    if r.Some? {
      var plan := SetPlanEffect(s, p, signer, planId, conf, now);
      assert Debts(r.value, p) == Debts(s, p)[planId := PlanOwesMost(plan, p)];
      SumSet(Debts(s, p), planId, PlanOwesMost(plan, p));
    }
  }

  lemma WithdrawKeepsCovered(s: State, p: Token, signer: Name, owner: Name, saveId: U64, now: U32)
    requires Ledger(s) && Covered(s, p)
    ensures Covered(After(WithdrawSpec(s, signer, owner, saveId, now), s), p)
  {
    hide WithdrawSpec, Debts, Ledger;
    var r := WithdrawSpec(s, signer, owner, saveId, now);
    if r.Some? {
      WithdrawEffect(s, signer, owner, saveId, now);
      var a := s.accounts[(owner, saveId)];
      WithdrawPaysDeposit(s, p, signer, owner, saveId, now);
      DebtMoves(s, r.value, p, a.planId, -a.deposit.amount, 0, 0);
    }
  }

  lemma WithdrawPaysDeposit(s: State, p: Token, signer: Name, owner: Name, saveId: U64, now: U32)
    requires Ledger(s) && Covered(s, p) && WithdrawSpec(s, signer, owner, saveId, now).Some?
    requires (owner, saveId) in s.accounts
    ensures Balance(WithdrawSpec(s, signer, owner, saveId, now).value.purse, p) == Balance(s.purse, p) - s.accounts[(owner, saveId)].deposit.amount
  {
    hide Penalty, Premature, Debts;
    assert AccountBacked(s, s.accounts[(owner, saveId)]);
  }

  lemma CollectKeepsCovered(s: State, p: Token, signer: Name, owner: Name, saveId: U64, now: U32)
    requires Ledger(s) && Covered(s, p)
    ensures Covered(After(CollectSpec(s, signer, owner, saveId, now), s), p)
  {
    hide CollectSpec, Debts;
    var r := CollectSpec(s, signer, owner, saveId, now);
    if r.Some? {
      CollectEffect(s, signer, owner, saveId, now);
      var k := (owner, saveId);
      var id := s.accounts[k].planId;
      var due := r.value.accounts[k].interestCollected.amount - s.accounts[k].interestCollected.amount;
      DebtMoves(s, r.value, p, id, 0, -due, due);
      assert PoolOk(s.plans[id]);
    }
  }

  lemma DepositKeepsCovered(s: State, p: Token, from: Name, quant: Asset, planId: U64, now: U32)
    requires Ledger(s) && GoodPrincipal(p) && s.principal == p && quant.amount > 0
    requires forall id | id in s.plans :: s.plans[id].depositAvailable.sym == p.sym
    requires Balance(s.purse, p) >= Sum(Debts(s, p)) + quant.amount
    requires Deposit(s, from, quant, planId, now).Some?
    ensures Covered(Deposit(s, from, quant, planId, now).value, p)
  {
    hide Deposit, Opened, Debts;
    var t := Deposit(s, from, quant, planId, now).value;
    var a, points, rewarded := DepositEffect(s, from, quant, planId, now);
    var spent: int := points;
    DebtMoves(s, t, p, planId, quant.amount, -spent, points);
    assert PoolOk(s.plans[planId]);
  }

  lemma RefuelKeepsCovered(s: State, p: Token, planId: U64, quant: Asset, bank: Name)
    requires Ledger(s) && s.principal == p && quant.amount > 0
    requires forall id | id in s.plans :: s.plans[id].depositAvailable.sym == p.sym
    requires Balance(s.purse, p) >= Sum(Debts(s, p)) + if quant.sym == p.sym then quant.amount else 0
    requires Refuel(s, planId, quant, bank).Some?
    ensures Covered(Refuel(s, planId, quant, bank).value, p)
  {
    hide Refuel, Debts;
    RefuelEffect(s, planId, quant, bank);
    DebtMoves(s, Refuel(s, planId, quant, bank).value, p, planId, 0, quant.amount, 0);
    assert PoolOk(s.plans[planId]);
  }

  lemma TransferInKeepsCovered(s: State, p: Token, from: Name, bank: Name, quant: Asset, memo: Memo, now: U32)
    requires Ledger(s) && GoodPrincipal(p) && Covered(s, p)
    ensures Covered(After(TransferInSpec(s, from, bank, quant, memo, now), s), p)
  {
    hide Deposit, Refuel, Debts, Ledger;
    var r := TransferInSpec(s, from, bank, quant, memo, now);
    if r.Some? {
      var c := Credited(s, bank, quant);
      CreditKeepsLedger(s, bank, quant);
      SameDebts(s, c, p);
      match memo
      case Empty => if bank == SING_TOKEN { DepositKeepsCovered(c, p, from, quant, 1, now); }
      case DepositTo(planId) => if bank == SING_TOKEN { DepositKeepsCovered(c, p, from, quant, planId, now); }
      case RefuelPlan(planId) => if bank in {SING_TOKEN, CISUM_TOKEN} { RefuelKeepsCovered(c, p, planId, quant, bank); }
      case _ => SameDebts(s, r.value, p);
      if bank !in {SING_TOKEN, CISUM_TOKEN} {
        SameDebts(s, r.value, p);
      }
    }
  }

  lemma StepKeepsCovered(s: State, p: Token, act: Action, now: U32)
    requires Ledger(s) && GoodPrincipal(p) && Covered(s, p)
    requires !act.DelPlan? && (act.Init? ==> act.principal == p)
    ensures Covered(After(Step(s, act, now), s), p)
  {
    hide Debts, Ledger, GoodPrincipal, SetPlanSpec, WithdrawSpec, CollectSpec, TransferInSpec;
    match act
    case Init(_, _, _) => SameDebts(s, After(Step(s, act, now), s), p);
    case SetPlan(signer, planId, conf) => SetPlanKeepsCovered(s, p, signer, planId, conf, now);
    case Withdraw(signer, owner, saveId) => WithdrawKeepsCovered(s, p, signer, owner, saveId, now);
    case CollectInt(signer, owner, saveId) => CollectKeepsCovered(s, p, signer, owner, saveId, now);
    case TransferIn(from, bank, quant, memo) => TransferInKeepsCovered(s, p, from, bank, quant, memo, now);
  }

  lemma {:induction false} RunKeepsCovered(s: State, p: Token, trace: seq<Event>)
    requires Ledger(s) && GoodPrincipal(p) && Covered(s, p)
    requires forall e | e in trace :: !e.act.DelPlan? && (e.act.Init? ==> e.act.principal == p)
    ensures Covered(Run(s, trace), p)
  {
    hide Covered, GoodPrincipal;
    if trace != [] {
      var init, last := trace[..|trace| - 1], trace[|trace| - 1];
      RunKeepsCovered(s, p, init);
      RunKeepsLedger(s, init);
      StepKeepsCovered(Run(s, init), p, last.act, last.now);
    }
  }

  // ---------- The exact condition ----------

  /** A history of one deployment: no plan is deleted and the principal token is not replaced. */
  ghost predicate Ordinary(trace: seq<Event>, p: Token) {
    forall e | e in trace :: !e.act.DelPlan? && (e.act.Init? ==> e.act.principal == p)
  }

  lemma FreshIsFine(p: Token, minDeposit: Asset)
    ensures Ledger(Fresh(p, minDeposit)) && Covered(Fresh(p, minDeposit), p)
  {
  }

  /** Every ordinary run is solvent if and only if the principal token is a good one. */
  lemma SolventIffGoodPrincipal(p: Token, minDeposit: Asset)
    requires p.bank != 0 && minDeposit.sym == p.sym && 0 <= minDeposit.amount <= MAX_AMOUNT
    ensures GoodPrincipal(p) <==> forall trace | Ordinary(trace, p) :: Solvent(Run(Fresh(p, minDeposit), trace))
  {
    var s := Fresh(p, minDeposit);
    if GoodPrincipal(p) {
      FreshIsFine(p, minDeposit);
      forall trace | Ordinary(trace, p)
        ensures Solvent(Run(s, trace))
      {
        RunKeepsCovered(s, p, trace);
        RunKeepsLedger(s, trace);
        CoveredIsSolvent(Run(s, trace), p);
      }
    } else if p == Token(MUSIC, SING_TOKEN) {
      var _ := MusicPrincipalFails(minDeposit);
    } else {
      var _ := CisumPrincipalFails(p.bank, minDeposit);
    }
  }

  // ---------- The two ways it fails ----------

  function SomePlan(interestToken: Token, musicRate: U64): PlanConf {
    PlanConf(Demand, CisumApr, Dem1, 30, false, 0, 0, 1, interestToken, musicRate)
  }

  lemma RunOneMore(s: State, trace: seq<Event>, e: Event)
    ensures Run(s, trace + [e]) == After(Step(Run(s, trace), e.act, e.now), Run(s, trace))
  {
    assert (trace + [e])[..|trace|] == trace;
  }

  lemma OnePlanOwed(s: State, id: U64)
    requires s.plans.Keys == {id}
    ensures Owed(s) == PlanOwes(s.plans[id], s.principal)
  {
    SumRemove(OwedByPlan(s), id);
    assert OwedByPlan(s) - {id} == map[];
  }

  /** A fresh contract with plan 1 just set. */
  function WithPlan(p: Token, minDeposit: Asset, conf: PlanConf): State {
    var zero := Asset(0, p.sym);
    var none := Asset(0, conf.interestToken.sym);
    Fresh(p, minDeposit).(plans := map[1 := Plan(conf, zero, zero, none, none, 0)])
  }

  lemma FullReward(quant: Asset)
    requires quant.sym == MUSIC && 0 < quant.amount <= MAX_AMOUNT
    ensures MusicReward(quant, 10_000) == Some(quant)
  {
    var unit := Pow10(8);
    assert unit == 100_000_000;
    var n := quant.amount;
    assert WrapS128(n * unit) == n * unit && TruncDiv(n * unit, unit) == n;
    assert WrapS128(n * 10_000) == n * 10_000 && TruncDiv(n * 10_000, PCT_BOOST) == n;
  }

  /** With every deposit rewarded in full, a first deposit leaves a debt and no tokens. */
  lemma RewardedAway(minDeposit: Asset, quant: Asset)
    requires minDeposit.sym == MUSIC && quant.sym == MUSIC && minDeposit.amount <= quant.amount && 0 < quant.amount <= MAX_AMOUNT
    ensures var p := Token(MUSIC, SING_TOKEN);
            var r := TransferInSpec(WithPlan(p, minDeposit, SomePlan(p, 10_000)), 7, SING_TOKEN, quant, DepositTo(1), 0);
            && r.Some? && r.value.plans.Keys == {1} && r.value.principal == p
            && r.value.plans[1].depositAvailable == quant && r.value.plans[1].interestAvailable.amount == 0
            && Balance(r.value.purse, p) == 0
  {
    hide RawInterest, MusicReward;
    FullReward(quant);
  }

  lemma FirstPlan(p: Token, minDeposit: Asset, conf: PlanConf)
    requires conf.interestToken.bank != 0 && conf == SomePlan(conf.interestToken, conf.musicRate)
    ensures SetPlanSpec(Fresh(p, minDeposit), POS_CISUM, 1, conf, 0) == Some(WithPlan(p, minDeposit, conf))
  {
  }

  /** The states of a run of one, two and three committed transactions. */
  lemma ThreeSteps(s: State, a: Event, b: Event, c: Event)
    ensures Run(s, [a]) == After(Step(s, a.act, a.now), s)
    ensures Run(s, [a, b]) == After(Step(Run(s, [a]), b.act, b.now), Run(s, [a]))
    ensures Run(s, [a, b, c]) == After(Step(Run(s, [a, b]), c.act, c.now), Run(s, [a, b]))
  {
    hide Step;
    RunOneMore(s, [], a);
    RunOneMore(s, [a], b);
    RunOneMore(s, [a, b], c);
    assert [] + [a] == [a] && [a] + [b] == [a, b] && [a, b] + [c] == [a, b, c];
  }

  /** With MUSIC as principal, a plan that rewards every deposit in full hands the deposit itself back. */
  lemma MusicPrincipalFails(minDeposit: Asset) returns (trace: seq<Event>)
    requires minDeposit.sym == MUSIC && 0 <= minDeposit.amount <= MAX_AMOUNT
    ensures Ordinary(trace, Token(MUSIC, SING_TOKEN)) && !Solvent(Run(Fresh(Token(MUSIC, SING_TOKEN), minDeposit), trace))
  {
    hide WithPlan, TransferInSpec, SetPlanSpec, Run;
    var p := Token(MUSIC, SING_TOKEN);
    var s := Fresh(p, minDeposit);
    var conf := SomePlan(p, 10_000);
    var quant := Asset(if minDeposit.amount == 0 then 1 else minDeposit.amount, MUSIC);
    var a := Event(SetPlan(POS_CISUM, 1, conf), 0);
    var b := Event(TransferIn(7, SING_TOKEN, quant, DepositTo(1)), 0);
    FirstPlan(p, minDeposit, conf);
    ThreeSteps(s, a, b, b);
    RewardedAway(minDeposit, quant);
    OnePlanOwed(Run(s, [a, b]), 1);
    trace := [a, b];
  }

  lemma RefuelledOnce(bank: Name, minDeposit: Asset)
    requires bank != CISUM_TOKEN && bank != 0
    ensures var p := Token(CISUM, bank); var first := SomePlan(Token(CISUM, CISUM_TOKEN), 0);
            var r := TransferInSpec(WithPlan(p, minDeposit, first), 7, CISUM_TOKEN, Asset(1, CISUM), RefuelPlan(1), 0);
            && r.Some? && r.value == WithPlan(p, minDeposit, first).(plans := r.value.plans, purse := r.value.purse)
            && r.value.plans == map[1 := WithPlan(p, minDeposit, first).plans[1].(interestAvailable := Asset(1, CISUM))]
            && Balance(r.value.purse, p) == 0
  {
  }

  lemma Relabelled(s: State, plan: Plan, p: Token)
    requires s.plans == map[1 := plan] && s.admin == POS_CISUM && s.principal == p && p.sym == CISUM && p.bank != 0
    requires plan.depositAvailable == plan.depositRedeemed == Asset(0, CISUM) && plan.interestAvailable == Asset(1, CISUM)
    ensures var r := SetPlanSpec(s, POS_CISUM, 1, SomePlan(p, 0), 0);
            r == Some(s.(plans := map[1 := plan.(conf := SomePlan(p, 0))]))
  {
    assert s.plans[1 := plan.(conf := SomePlan(p, 0))] == map[1 := plan.(conf := SomePlan(p, 0))];
  }

  /** With CISUM kept by another bank as principal, a pool filled by cisum.token is re-labelled as principal by `setplan`. */
  lemma CisumPrincipalFails(bank: Name, minDeposit: Asset) returns (trace: seq<Event>)
    requires bank != CISUM_TOKEN && bank != 0
    ensures Ordinary(trace, Token(CISUM, bank)) && !Solvent(Run(Fresh(Token(CISUM, bank), minDeposit), trace))
  {
    hide TransferInSpec, SetPlanSpec, Run;
    var p := Token(CISUM, bank);
    var s := Fresh(p, minDeposit);
    var first, second := SomePlan(Token(CISUM, CISUM_TOKEN), 0), SomePlan(p, 0);
    var a := Event(SetPlan(POS_CISUM, 1, first), 0);
    var b := Event(TransferIn(7, CISUM_TOKEN, Asset(1, CISUM), RefuelPlan(1)), 0);
    var c := Event(SetPlan(POS_CISUM, 1, second), 0);
    FirstPlan(p, minDeposit, first);
    ThreeSteps(s, a, b, c);
    RefuelledOnce(bank, minDeposit);
    var t := Run(s, [a, b]);
    Relabelled(t, t.plans[1], p);
    var u := Run(s, [a, b, c]);
    OnePlanOwed(u, 1);
    assert u.principal == p && Balance(u.purse, p) == 0;
    assert Owed(u) == 1;
    trace := [a, b, c];
  }
}
