/** Whether waiting ever costs the owner of a deposit: exactly when the maximum penalty exceeds 2^64, so that early penalties wrap
    around to small ones. */
module PosWaiting {
  import opened Eosio
  import opened SafeMath
  import opened PosModel
  import opened PosLedger
  import opened PosRedeem
  import PosSolvency

  // ---------- Finding the seconds at which the penalty passes a bound ----------

  lemma {:induction false} Crossing(conf: PlanConf, amount: nat, bound: nat, high: nat) returns (r: nat)
    requires TotalSeconds(conf) > 0 && Uncut(conf, amount, 0) <= bound < Uncut(conf, amount, high)
    ensures 0 < r <= high && Uncut(conf, amount, r - 1) <= bound < Uncut(conf, amount, r)
    decreases high
  {
    hide Uncut, TotalSeconds;
    r := high;
    if Uncut(conf, amount, high - 1) > bound {
      r := Crossing(conf, amount, bound, high - 1);
    }
  }

  /** The rate moves by less than half in any one second. */
  const GENTLE: nat := 4999

  lemma RateStep(maxRate: U64, remaining: nat, total: nat)
    requires total > 0 && maxRate <= GENTLE * total && remaining < total && 10 * maxRate * total < TWO_128
    ensures FineRate(maxRate, remaining + 1, total) <= FineRate(maxRate, remaining, total) + GENTLE
  {
    hide FineRate;
    MulOrder(remaining, total, 10 * maxRate);
    MulOrder(remaining + 1, total, 10 * maxRate);
    FineRateIsRounded(maxRate, remaining, total);
    FineRateIsRounded(maxRate, remaining + 1, total);
    QuotientStep(2 * (maxRate * remaining) + total, 2 * maxRate, 2 * total, GENTLE);
    assert maxRate * (remaining + 1) == maxRate * remaining + maxRate;
  }

  lemma QuotientStep(n: nat, more: nat, d: nat, k: nat)
    requires d > 0 && more <= k * d
    ensures (n + more) / d <= n / d + k
  {
    var q := n / d;
    QuotientBounds(n, d);
    assert (q + 1) * d + k * d == (q + 1 + k) * d;
    BelowMultiple(n + more, d, q + 1 + k);
  }

  lemma BelowMultiple(n: nat, d: nat, q: nat)
    requires d > 0 && n < q * d
    ensures n / d < q
  {
    QuotientBounds(n, d);
    if n / d >= q {
      MulOrder(q, n / d, d);
    }
  }

  /** One second changes the penalty before the cut by less than half the deposit. */
  lemma UncutStep(conf: PlanConf, amount: nat, remaining: nat)
    requires ProductsFit(conf, amount) && 0 < TotalSeconds(conf) && remaining < TotalSeconds(conf)
    requires conf.fineRate <= GENTLE * TotalSeconds(conf) && amount >= PCT_BOOST
    ensures 2 * (Uncut(conf, amount, remaining + 1) - Uncut(conf, amount, remaining)) < amount
  {
    hide FineRate, TotalSeconds;
    var total := TotalSeconds(conf);
    RateStep(conf.fineRate, remaining, total);
    var low, high := FineRate(conf.fineRate, remaining, total), FineRate(conf.fineRate, remaining + 1, total);
    PenaltyGrowsWithRate(amount, high, low + GENTLE);
    PenaltyStep(amount, low);
  }

  lemma PenaltyStep(amount: nat, rate: nat)
    requires amount >= PCT_BOOST
    ensures 2 * (RoundedPenalty(amount, rate + GENTLE) - RoundedPenalty(amount, rate)) < amount
  {
    var n, m := 2 * (amount * rate) + PCT_BOOST, 2 * (amount * (rate + GENTLE)) + PCT_BOOST;
    assert amount * (rate + GENTLE) == amount * rate + amount * GENTLE;
    assert m == n + 2 * (amount * GENTLE);
    QuotientBounds(n, 2 * PCT_BOOST);
    QuotientBounds(m, 2 * PCT_BOOST);
  }

  /** A deposit too small to matter never reaches such a penalty. */
  lemma LargeDeposit(amount: nat, rate: nat)
    requires RoundedPenalty(amount, rate) > TWO_64 && rate < TWO_63
    ensures amount >= PCT_BOOST
  {
    if amount < PCT_BOOST {
      MulOrder(amount, PCT_BOOST, rate);
      QuotientMonotone(2 * (amount * rate) + PCT_BOOST, 2 * (PCT_BOOST * rate) + PCT_BOOST, 2 * PCT_BOOST);
      QuotientMonotone(2 * (PCT_BOOST * rate) + PCT_BOOST, 2 * PCT_BOOST * (rate + 1), 2 * PCT_BOOST);
      QuotientIs(2 * PCT_BOOST * (rate + 1), 2 * PCT_BOOST, rate + 1);
    }
  }

  // ---------- The exact condition ----------

  /** A maximum penalty above 2^64 leaves two moments at which the penalty charged is positive and below the deposit, but higher at
      the later one. */
  lemma WrappedPenaltiesCross(conf: PlanConf, amount: nat) returns (more: nat, less: nat)
    requires amount <= MAX_AMOUNT && ProductsFit(conf, amount) && TotalSeconds(conf) > 0
    requires conf.fineRate <= GENTLE * TotalSeconds(conf)
    requires RoundedPenalty(amount, conf.fineRate) > TWO_64
    ensures 0 < less < more <= TotalSeconds(conf)
    ensures 0 < WrapS64(Uncut(conf, amount, more)) < WrapS64(Uncut(conf, amount, less)) < amount
  {
    hide Uncut, TotalSeconds, RoundedPenalty, ProductsFit;
    var total := TotalSeconds(conf);
    Fits63(conf, amount);
    LargeDeposit(amount, conf.fineRate);
    UncutFallsWithTime(conf, amount, total, total);
    more := Crossing(conf, amount, TWO_64, total);
    UncutStep(conf, amount, more - 1);
    var over := Crossing(conf, amount, amount - 1, total);
    less := over - 1;
    UncutStep(conf, amount, less);
    if less >= more {
      UncutFallsWithTime(conf, amount, less, more);
    }
  }

  lemma Fits63(conf: PlanConf, amount: nat)
    requires ProductsFit(conf, amount)
    ensures conf.fineRate < TWO_63
  {
  }

  lemma OrdinaryTermFits(conf: PlanConf, amount: nat, created: U32)
    requires amount <= MAX_AMOUNT && 0 < conf.termDays && created + conf.termDays * DAY_SECONDS < TWO_32
    requires conf.fineRate <= GENTLE * (conf.termDays * DAY_SECONDS)
    ensures TotalSeconds(conf) == TermSeconds(conf.termDays) == conf.termDays * DAY_SECONDS && ProductsFit(conf, amount)
  {
    var total := conf.termDays * DAY_SECONDS;
    assert WrapS64(total) == total && WrapU64(total) == total;
    MulOrder(total, TWO_32, GENTLE);
    MulOrder(conf.fineRate, GENTLE * TWO_32, total);
    MulOrder(total, TWO_32, GENTLE * TWO_32);
    MulOrder(conf.fineRate, GENTLE * TWO_32, amount);
    MulOrder(amount, MAX_AMOUNT, GENTLE * TWO_32);
    assert 10 * conf.fineRate * total == 10 * (conf.fineRate * total);
    assert 10 * amount * conf.fineRate == 10 * (conf.fineRate * amount);
  }

  /** Waiting never costs the owner: of any two times at which the withdrawal commits, the later redeems at least as much. */
  ghost predicate WaitingIsFree(s: State, signer: Name, owner: Name, saveId: U64)
    requires (owner, saveId) in s.accounts
  {
    forall early: U32, late: U32 |
      && s.accounts[(owner, saveId)].createdAt <= early <= late
      && WithdrawSpec(s, signer, owner, saveId, early).Some? && WithdrawSpec(s, signer, owner, saveId, late).Some? ::
      RedeemedAfter(s, signer, owner, saveId, early) <= RedeemedAfter(s, signer, owner, saveId, late)
  }

  /** For every term that ends on the 32-bit clock and every maximum rate below half per second of the term, waiting is free if and
      only if the maximum penalty is at most 2^64. */
  lemma WaitingIsFreeIff(s: State, signer: Name, owner: Name, saveId: U64)
    requires Ledger(s) && Gates(s, signer, owner, saveId)
    requires var a := s.accounts[(owner, saveId)]; var conf := s.plans[a.planId].conf;
             && conf.kind.Term? && 0 < conf.termDays && a.createdAt + conf.termDays * DAY_SECONDS < TWO_32
             && conf.fineRate <= GENTLE * (conf.termDays * DAY_SECONDS)
    ensures var a := s.accounts[(owner, saveId)];
            WaitingIsFree(s, signer, owner, saveId) <==> RoundedPenalty(a.deposit.amount, s.plans[a.planId].conf.fineRate) <= TWO_64
  {
    hide WithdrawSpec, RoundedPenalty, ProductsFit, RateFits, RedeemedAfter, MusicSettled;
    var a := s.accounts[(owner, saveId)];
    var conf, amount := s.plans[a.planId].conf, a.deposit.amount;
    DepositInRange(s, owner, saveId);
    OrdinaryTermFits(conf, amount, a.createdAt);
    RateFitsToo(conf, amount);
    if RoundedPenalty(amount, conf.fineRate) <= TWO_64 {
      forall early: U32, late: U32 | a.createdAt <= early <= late && WithdrawSpec(s, signer, owner, saveId, early).Some? && WithdrawSpec(s, signer, owner, saveId, late).Some?
        ensures RedeemedAfter(s, signer, owner, saveId, early) <= RedeemedAfter(s, signer, owner, saveId, late)
      {
        LaterRedeemsMore(s, signer, owner, saveId, early, late);
      }
    } else {
      var more, less := WrappedPenaltiesCross(conf, amount);
      WaitingCosts(s, signer, owner, saveId, more, less);
    }
  }

  lemma RateFitsToo(conf: PlanConf, amount: nat)
    requires ProductsFit(conf, amount)
    ensures RateFits(conf)
  {
  }

  lemma DepositInRange(s: State, owner: Name, saveId: U64)
    requires Ledger(s) && (owner, saveId) in s.accounts && AccountBacked(s, s.accounts[(owner, saveId)])
    requires s.plans[s.accounts[(owner, saveId)].planId].depositAvailable.amount <= MAX_AMOUNT
    ensures 0 < s.accounts[(owner, saveId)].deposit.amount <= MAX_AMOUNT
  {
    LargestAccount(s, (owner, saveId));
  }

  /** With `less` seconds to go the owner would get less than with `more`, and both withdrawals commit. */
  lemma WaitingCosts(s: State, signer: Name, owner: Name, saveId: U64, more: nat, less: nat)
    requires Ledger(s) && Gates(s, signer, owner, saveId)
    requires var a := s.accounts[(owner, saveId)]; var conf := s.plans[a.planId].conf;
             && 0 < a.deposit.amount <= MAX_AMOUNT && conf.kind.Term? && ProductsFit(conf, a.deposit.amount)
             && 0 < TotalSeconds(conf) == TermSeconds(conf.termDays) && a.createdAt + TotalSeconds(conf) < TWO_32
             && 0 < less < more <= TotalSeconds(conf)
             && 0 < WrapS64(Uncut(conf, a.deposit.amount, more)) < WrapS64(Uncut(conf, a.deposit.amount, less)) < a.deposit.amount
    ensures var a := s.accounts[(owner, saveId)];
            var ends := a.createdAt + TotalSeconds(s.plans[a.planId].conf);
            && WithdrawSpec(s, signer, owner, saveId, ends - more).Some? && WithdrawSpec(s, signer, owner, saveId, ends - less).Some?
            && RedeemedAfter(s, signer, owner, saveId, ends - less) < RedeemedAfter(s, signer, owner, saveId, ends - more)
    ensures !WaitingIsFree(s, signer, owner, saveId)
  {
    hide WithdrawSpec, ProductsFit, Penalty, TotalSeconds, Uncut, TermSeconds;
    var a := s.accounts[(owner, saveId)];
    var conf := s.plans[a.planId].conf;
    var ends := a.createdAt + TotalSeconds(conf);
    var early: U32, late: U32 := ends - more, ends - less;
    PenaltyAt(conf, a.deposit.amount, a.createdAt, early);
    PenaltyAt(conf, a.deposit.amount, a.createdAt, late);
    EarlyWithdrawIff(s, signer, owner, saveId, early);
    EarlyWithdrawIff(s, signer, owner, saveId, late);
    WithdrawSplitsDeposit(s, signer, owner, saveId, early);
    WithdrawSplitsDeposit(s, signer, owner, saveId, late);
    assert a.createdAt <= early <= late;
  }

  lemma PenaltyAt(conf: PlanConf, amount: nat, created: U32, now: U32)
    requires amount <= MAX_AMOUNT && ProductsFit(conf, amount) && 0 < TotalSeconds(conf) == TermSeconds(conf.termDays)
    requires conf.kind.Term? && created + TotalSeconds(conf) < TWO_32 && created <= now < created + TotalSeconds(conf)
    ensures Premature(conf, created, now)
    ensures Penalty(conf, amount, created, now) == WrapS64(Uncut(conf, amount, created + TotalSeconds(conf) - now))
  {
    hide Penalty, ProductsFit, TotalSeconds, TermSeconds, FineRate, RoundedPenalty;
    PenaltyIsCut(conf, amount, created, now);
  }

  // ---------- Steeper rates ----------

  /** A one-day plan whose rate falls by 400% a second. */
  const STEEP: U64 := 3_456_000_000

  lemma Laps(n: nat, laps: nat, short: nat)
    requires n == laps * TWO_64 - short && short < TWO_63
    ensures WrapS64(n) == 0 - short
  {
    var x := n + TWO_63;
    assert laps * TWO_64 <= x < (laps + 1) * TWO_64;
    QuotientIs(x, TWO_64, laps);
  }

  lemma SteepPenalty(conf: PlanConf, remaining: nat)
    requires conf.fineRate == STEEP && TotalSeconds(conf) == 86_400 && remaining <= 86_400
    ensures Uncut(conf, MAX_AMOUNT, remaining) == 4 * MAX_AMOUNT * remaining
    ensures WrapS64(Uncut(conf, MAX_AMOUNT, remaining)) == 0 - 4 * remaining
  {
    hide FineRate, TotalSeconds, WrapS64;
    FineRateIsRounded(STEEP, remaining, 86_400);
    QuotientIs(2 * (STEEP * remaining) + 86_400, 172_800, 40_000 * remaining);
    var rate := 40_000 * remaining;
    assert 2 * (MAX_AMOUNT * rate) == 4 * MAX_AMOUNT * remaining * (2 * PCT_BOOST);
    QuotientIs(2 * (MAX_AMOUNT * rate) + PCT_BOOST, 2 * PCT_BOOST, 4 * MAX_AMOUNT * remaining);
    Laps(4 * MAX_AMOUNT * remaining, remaining, 4 * remaining);
  }

  /** The bound on the rate is needed: here every early penalty wraps around to a negative one, no early withdrawal commits, and so
      waiting is free although the maximum penalty is far above 2^64. */
  lemma SteepPlansPayNobodyEarly(s: State, signer: Name, owner: Name, saveId: U64)
    requires Ledger(s) && Gates(s, signer, owner, saveId)
    requires var a := s.accounts[(owner, saveId)]; var conf := s.plans[a.planId].conf;
             conf.kind.Term? && conf.termDays == 1 && conf.fineRate == STEEP && a.deposit.amount == MAX_AMOUNT && a.createdAt + 86_400 < TWO_32
    ensures RoundedPenalty(MAX_AMOUNT, STEEP) > TWO_64 && WaitingIsFree(s, signer, owner, saveId)
  {
    hide WithdrawSpec, RoundedPenalty, Ledger, Penalty, Uncut, FineRate, ProductsFit, MusicSettled;
    var a := s.accounts[(owner, saveId)];
    var conf := s.plans[a.planId].conf;
    SteepFits(conf);
    SteepPenalty(conf, 86_400);
    UncutFallsWithTime(conf, MAX_AMOUNT, 86_400, 86_400);
    forall now: U32 | a.createdAt <= now && WithdrawSpec(s, signer, owner, saveId, now).Some?
      ensures !Premature(conf, a.createdAt, now)
    {
      if Premature(conf, a.createdAt, now) {
        PenaltyAt(conf, MAX_AMOUNT, a.createdAt, now);
        SteepPenalty(conf, a.createdAt + 86_400 - now);
        EarlyWithdrawIff(s, signer, owner, saveId, now);
      }
    }
    forall early: U32, late: U32 | a.createdAt <= early <= late && WithdrawSpec(s, signer, owner, saveId, early).Some? && WithdrawSpec(s, signer, owner, saveId, late).Some?
      ensures RedeemedAfter(s, signer, owner, saveId, early) <= RedeemedAfter(s, signer, owner, saveId, late)
    {
      WithdrawSplitsDeposit(s, signer, owner, saveId, early);
      WithdrawSplitsDeposit(s, signer, owner, saveId, late);
    }
  }

  lemma SteepFits(conf: PlanConf)
    requires conf.termDays == 1 && conf.fineRate == STEEP
    ensures TotalSeconds(conf) == TermSeconds(1) == 86_400 && ProductsFit(conf, MAX_AMOUNT)
  {
  }

  // ---------- A run in which waiting costs half the deposit ----------

  const SING := Symbol("SING", 8)

  const BANK := Token(SING, SING_TOKEN)

  /** A one-day plan that fines up to 800%. */
  function HarshPlan(): PlanConf {
    PlanConf(Term, CisumApr, OtherScheme, 1, true, 80_000, 0, 1, BANK, 0)
  }

  lemma HarshPlanIsSet()
    ensures SetPlanSpec(Fresh(BANK, Asset(0, SING)), POS_CISUM, 1, HarshPlan(), 0) == Some(PosSolvency.WithPlan(BANK, Asset(0, SING), HarshPlan()))
  {
  }

  lemma NoReward(quant: Asset)
    requires 0 < quant.amount <= MAX_AMOUNT
    ensures MusicReward(quant, 0) == Some(Asset(0, MUSIC))
  {
  }

  /** The largest deposit there can be, on that plan. */
  lemma LargestDepositOpens()
    ensures var r := TransferInSpec(PosSolvency.WithPlan(BANK, Asset(0, SING), HarshPlan()), 7, SING_TOKEN, Asset(MAX_AMOUNT, SING), Empty, 0);
            && r.Some? && Gates(r.value, 7, 7, 1)
            && r.value.accounts[(7, 1)].createdAt == 0 && r.value.accounts[(7, 1)].deposit.amount == MAX_AMOUNT
            && r.value.accounts[(7, 1)].planId == 1 && r.value.plans[1].conf == HarshPlan()
  {
    hide RawInterest, MusicReward;
    NoReward(Asset(MAX_AMOUNT, SING));
  }

  lemma HarshRates()
    ensures FineRate(80_000, 43_201, 86_400) == 40_001 && FineRate(80_000, 5_400, 86_400) == 5_000
  {
    hide FineRate;
    FineRateIsRounded(80_000, 43_201, 86_400);
    FineRateIsRounded(80_000, 5_400, 86_400);
  }

  lemma HarshPenalties()
    ensures var conf := HarshPlan();
            && TotalSeconds(conf) == TermSeconds(1) == 86_400 && ProductsFit(conf, MAX_AMOUNT)
            && WrapS64(Uncut(conf, MAX_AMOUNT, 43_201)) == 461_168_601_842_735
            && WrapS64(Uncut(conf, MAX_AMOUNT, 5_400)) == 2_305_843_009_213_693_952
  {
    hide FineRate;
    HarshRates();
  }

  /** A run that sets the plan and takes the deposit: redeeming at 43199 seconds costs a ten-thousandth of it, and redeeming at
      81000 seconds, with most of the day gone, costs half. */
  lemma WaitingCostsHalf()
    ensures var s := Run(Fresh(BANK, Asset(0, SING)), [Event(SetPlan(POS_CISUM, 1, HarshPlan()), 0), Event(TransferIn(7, SING_TOKEN, Asset(MAX_AMOUNT, SING), Empty), 0)]);
            && (7, 1) in s.accounts
            && WithdrawSpec(s, 7, 7, 1, 43_199).Some? && WithdrawSpec(s, 7, 7, 1, 81_000).Some?
            && RedeemedAfter(s, 7, 7, 1, 81_000) < RedeemedAfter(s, 7, 7, 1, 43_199)
            && !WaitingIsFree(s, 7, 7, 1)
  {
    hide WithdrawSpec, TransferInSpec, SetPlanSpec, Run, Gates, Ledger, PosSolvency.WithPlan, RedeemedAfter, ProductsFit, Uncut;
    var a, b := Event(SetPlan(POS_CISUM, 1, HarshPlan()), 0), Event(TransferIn(7, SING_TOKEN, Asset(MAX_AMOUNT, SING), Empty), 0);
    var fresh_ := Fresh(BANK, Asset(0, SING));
    HarshPlanIsSet();
    LargestDepositOpens();
    PosSolvency.ThreeSteps(fresh_, a, b, b);
    PosSolvency.FreshIsFine(BANK, Asset(0, SING));
    RunKeepsLedger(fresh_, [a, b]);
    HarshPenalties();
    GatedAccount(Run(fresh_, [a, b]), 7, 7, 1);
    WaitingCosts(Run(fresh_, [a, b]), 7, 7, 1, 43_201, 5_400);
  }

  lemma GatedAccount(s: State, signer: Name, owner: Name, saveId: U64)
    requires Gates(s, signer, owner, saveId)
    ensures (owner, saveId) in s.accounts && s.accounts[(owner, saveId)].planId in s.plans
  {
  }
}
