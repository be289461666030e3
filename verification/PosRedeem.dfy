/** Early redemption: the penalty schedule, and when redeeming early can succeed at all. */
module PosRedeem {
  import opened Eosio
  import opened SafeMath
  import opened PosModel
  import opened PosLedger
  import Sums

  // ---------- The rate ----------

  lemma MulUpAtMost(maxRate: nat, remaining: nat, total: nat)
    requires total > 0 && remaining <= total
    ensures MulUp(maxRate, remaining, total) <= maxRate
  {
    var n := 10 * maxRate * remaining;
    WrapAtMost(n, TWO_128);
    MulOrder(remaining, total, 10 * maxRate);
    QuotientMonotone(WrapU128(n), 10 * maxRate * total, total);
    QuotientIs(10 * maxRate * total, total, 10 * maxRate);
    var q := WrapU128(n) / total;
    QuotientMonotone(0, WrapU128(n), total);
    WrapAtMost(q + 5, TWO_128);
    QuotientMonotone(WrapU128(q + 5), 10 * maxRate + 5, 10);
  }

  /** The safety cap on the rate is never needed, for any settings, 128-bit wrap-around included. */
  lemma CapNeverBinds(maxRate: U64, remaining: nat, total: nat)
    requires total > 0 && remaining <= total
    ensures FineRate(maxRate, remaining, total) == (if maxRate == 0 then 0 else WrapU64(MulUp(maxRate, remaining, total))) <= maxRate
  {
    hide MulUp;
    MulUpAtMost(maxRate, remaining, total);
  }

  /** The rate is max * remaining / total rounded to nearest, halves up, if and only if ten times max * remaining fits 128 bits. */
  lemma FineRateIsRoundedIff(maxRate: U64, remaining: nat, total: nat)
    requires 0 < total < TWO_63 && remaining <= total
    ensures FineRate(maxRate, remaining, total) == (2 * (maxRate * remaining) + total) / (2 * total) <==> 10 * maxRate * remaining < TWO_128
  {
    if 10 * maxRate * remaining < TWO_128 {
      FineRateIsRounded(maxRate, remaining, total);
    } else {
      hide MulUp;
      MulUpAtMost(maxRate, remaining, total);
      MulUpFallsShort(maxRate, remaining, total);
      assert maxRate != 0;
    }
  }

  /** A rate and a term that `setplan` accepts, for which the rate at deposit time is not the maximum rate. */
  lemma WrappedRate()
    ensures var conf := PlanConf(Term, CisumApr, OtherScheme, 0x2000_0000_0000, true, TWO_64 - 1, 0, 1, Token(MUSIC, SING_TOKEN), 0);
            && SetPlanSpec(Fresh(Token(MUSIC, SING_TOKEN), Asset(0, MUSIC)), POS_CISUM, 1, conf, 0).Some?
            && TotalSeconds(conf) == 0x2000_0000_0000 * DAY_SECONDS
            && FineRate(conf.fineRate, TotalSeconds(conf), TotalSeconds(conf)) < conf.fineRate
  {
    hide MulUp;
    var total := 0x2000_0000_0000 * DAY_SECONDS;
    assert WrapS64(total) == total;
    MulUpAtMost(TWO_64 - 1, total, total);
    MulUpFallsShort(TWO_64 - 1, total, total);
    QuotientIs(2 * ((TWO_64 - 1) * total) + total, 2 * total, TWO_64 - 1);
  }

  lemma FineRateIsRounded(maxRate: U64, remaining: nat, total: nat)
    requires 0 < total && remaining <= total && 10 * maxRate * remaining < TWO_128
    ensures FineRate(maxRate, remaining, total) == (2 * (maxRate * remaining) + total) / (2 * total)
    ensures remaining == total ==> FineRate(maxRate, remaining, total) == maxRate
    ensures remaining == 0 ==> FineRate(maxRate, remaining, total) == 0
  {
    hide MulUp;
    MulUpAtMost(maxRate, remaining, total);
    var n := maxRate * remaining;
    SmallQuotient(maxRate, remaining, total);
    MulUpIsRoundHalfUp(maxRate, remaining, total);
    if maxRate == 0 || remaining == 0 {
      QuotientIs(total, 2 * total, 0);
    }
    if remaining == total {
      QuotientIs(2 * n + total, 2 * total, maxRate) by {
        assert maxRate * (2 * total) == 2 * n;
        assert (maxRate + 1) * (2 * total) == 2 * n + 2 * total;
      }
    }
  }

  lemma SmallQuotient(maxRate: U64, remaining: nat, total: nat)
    requires 0 < total && remaining <= total
    ensures 10 * maxRate * remaining / total <= 10 * maxRate < TWO_128 - 5
  {
    MulOrder(remaining, total, 10 * maxRate);
    QuotientMonotone(10 * maxRate * remaining, 10 * maxRate * total, total);
    QuotientIs(10 * maxRate * total, total, 10 * maxRate);
  }

  lemma RateFallsWithTime(maxRate: U64, more: nat, less: nat, total: nat)
    requires 0 < total && less <= more <= total && 10 * maxRate * more < TWO_128
    ensures FineRate(maxRate, less, total) <= FineRate(maxRate, more, total)
  {
    hide FineRate;
    MulOrder(less, more, 10 * maxRate);
    FineRateIsRounded(maxRate, more, total);
    FineRateIsRounded(maxRate, less, total);
    MulOrder(less, more, maxRate);
    QuotientMonotone(2 * (maxRate * less) + total, 2 * (maxRate * more) + total, 2 * total);
  }

  // ---------- The penalty ----------

  function RoundedPenalty(amount: nat, rate: nat): nat { (2 * (amount * rate) + PCT_BOOST) / (2 * PCT_BOOST) }

  /** The term in seconds, as `withdraw` computes it. */
  function TotalSeconds(conf: PlanConf): int { WrapS64(conf.termDays * DAY_SECONDS) }

  /** The rate is a signed 64-bit number, and its product with the term fits 128 bits. */
  predicate RateFits(conf: PlanConf) {
    && conf.fineRate < TWO_63
    && (TotalSeconds(conf) > 0 ==> 10 * conf.fineRate * TotalSeconds(conf) < TWO_128)
  }

  /** So does its product with the deposit. */
  predicate ProductsFit(conf: PlanConf, amount: nat) {
    RateFits(conf) && 10 * amount * conf.fineRate < TWO_128
  }

  lemma SmallPenaltyFits(conf: PlanConf, amount: nat)
    requires RateFits(conf) && RoundedPenalty(amount, conf.fineRate) <= TWO_64
    ensures ProductsFit(conf, amount)
  {
    var n := amount * conf.fineRate;
    QuotientBounds(2 * n + PCT_BOOST, 2 * PCT_BOOST);
    MulOrder(RoundedPenalty(amount, conf.fineRate) + 1, TWO_64 + 1, 2 * PCT_BOOST);
    assert 10 * amount * conf.fineRate == 10 * n;
  }

  lemma PenaltyGrowsWithRate(amount: nat, low: nat, high: nat)
    requires low <= high
    ensures RoundedPenalty(amount, low) <= RoundedPenalty(amount, high)
  {
    MulOrder(low, high, amount);
    QuotientMonotone(2 * (amount * low) + PCT_BOOST, 2 * (amount * high) + PCT_BOOST, 2 * PCT_BOOST);
  }

  lemma SmallUnwrapped(x: nat)
    requires x < TWO_63
    ensures WrapU128(x) == x && WrapS64(x) == x
  {
  }

  /** Charging a rate rounds to nearest, and cuts the result to 64 bits. */
  lemma PenaltyArithmetic(amount: nat, rate: nat)
    requires amount <= MAX_AMOUNT && rate < TWO_63 && 10 * amount * rate < TWO_128
    ensures WrapS64(MulUp(WrapU128(amount), WrapU128(WrapS64(rate)), PCT_BOOST)) == WrapS64(RoundedPenalty(amount, rate))
    ensures rate == 0 ==> WrapS64(RoundedPenalty(amount, rate)) == 0
  {
    hide MulUp, WrapU128;
    SmallUnwrapped(amount);
    SmallUnwrapped(rate);
    assert WrapS64(rate) == rate;
    QuotientMonotone(10 * amount * rate, TWO_128, PCT_BOOST);
    MulUpIsRoundHalfUp(amount, rate, PCT_BOOST);
  }

  lemma RemainingIs(conf: PlanConf, created: U32, now: U32)
    requires TotalSeconds(conf) > 0 && created <= now && now - created <= TotalSeconds(conf)
    ensures RemainingSeconds(conf, created, now) == TotalSeconds(conf) - (now - created)
  {
    assert WrapU32(now - created) == now - created;
  }

  lemma SmallerRateFits(amount: nat, rate: nat, maxRate: nat)
    requires rate <= maxRate && 10 * amount * maxRate < TWO_128
    ensures 10 * amount * rate < TWO_128
  {
    MulOrder(rate, maxRate, 10 * amount);
  }

  /** The penalty is amount * rate / 10000 rounded half up, cut to 64 bits, at the rate for the time that remains. */
  lemma PenaltyIsCut(conf: PlanConf, amount: nat, created: U32, now: U32)
    requires amount <= MAX_AMOUNT && ProductsFit(conf, amount) && TotalSeconds(conf) > 0
    requires created <= now && now - created <= TotalSeconds(conf)
    ensures var total := TotalSeconds(conf);
            Penalty(conf, amount, created, now) == WrapS64(RoundedPenalty(amount, FineRate(conf.fineRate, total - (now - created), total)))
  {
    hide FineRate, MulUp, RoundedPenalty, WrapS64, WrapU128, RemainingSeconds;
    RemainingIs(conf, created, now);
    var total := TotalSeconds(conf);
    var rate := FineRate(conf.fineRate, total - (now - created), total);
    CapNeverBinds(conf.fineRate, total - (now - created), total);
    SmallerRateFits(amount, rate, conf.fineRate);
    PenaltyArithmetic(amount, rate);
  }

  /** The penalty before the cut, with `remaining` seconds to go. */
  function Uncut(conf: PlanConf, amount: nat, remaining: nat): nat
    requires TotalSeconds(conf) > 0
  {
    RoundedPenalty(amount, FineRate(conf.fineRate, remaining, TotalSeconds(conf)))
  }

  /** Before the cut the penalty starts at its maximum and falls with every second. */
  lemma UncutFallsWithTime(conf: PlanConf, amount: nat, more: nat, less: nat)
    requires ProductsFit(conf, amount) && TotalSeconds(conf) > 0 && less <= more <= TotalSeconds(conf)
    ensures Uncut(conf, amount, less) <= Uncut(conf, amount, more) <= RoundedPenalty(amount, conf.fineRate)
    ensures Uncut(conf, amount, TotalSeconds(conf)) == RoundedPenalty(amount, conf.fineRate)
    ensures Uncut(conf, amount, 0) == RoundedPenalty(amount, 0) == 0
  {
    hide FineRate, TotalSeconds;
    var total := TotalSeconds(conf);
    MulOrder(more, total, 10 * conf.fineRate);
    RateFallsWithTime(conf.fineRate, more, less, total);
    RateFallsWithTime(conf.fineRate, total, more, total);
    FineRateIsRounded(conf.fineRate, total, total);
    FineRateIsRounded(conf.fineRate, 0, total);
    PenaltyGrowsWithRate(amount, FineRate(conf.fineRate, less, total), FineRate(conf.fineRate, more, total));
    PenaltyGrowsWithRate(amount, FineRate(conf.fineRate, more, total), conf.fineRate);
  }

  /** The penalty is never negative and never rises with time, if its maximum fits 64 bits; and at deposit time it is that maximum
      if and only if it fits. */
  lemma PenaltyFallsWithTime(conf: PlanConf, amount: nat, created: U32, early: U32, late: U32)
    requires amount <= MAX_AMOUNT && ProductsFit(conf, amount) && TotalSeconds(conf) > 0
    requires created <= early <= late && late - created <= TotalSeconds(conf)
    ensures Penalty(conf, amount, created, created) == RoundedPenalty(amount, conf.fineRate) <==> RoundedPenalty(amount, conf.fineRate) < TWO_63
    ensures RoundedPenalty(amount, conf.fineRate) < TWO_63 ==>
              0 <= Penalty(conf, amount, created, late) <= Penalty(conf, amount, created, early) <= RoundedPenalty(amount, conf.fineRate)
  {
    hide Penalty, FineRate, RoundedPenalty, TotalSeconds, ProductsFit;
    var total := TotalSeconds(conf);
    PenaltyIsCut(conf, amount, created, created);
    PenaltyIsCut(conf, amount, created, early);
    PenaltyIsCut(conf, amount, created, late);
    UncutFallsWithTime(conf, amount, total, total);
    UncutFallsWithTime(conf, amount, total - (early - created), total - (late - created));
  }

  // ---------- The action ----------

  /** The penalty `withdraw` charges at `now`: nothing once the term is over. */
  function Charged(conf: PlanConf, amount: int, created: U32, now: U32): int {
    if Premature(conf, created, now) then Penalty(conf, amount, created, now) else 0
  }

  /** A committed withdrawal pays out the deposit exactly, split between owner and penalty account, and a part of
      it counts as redeemed; an early one charges a positive penalty below the deposit. */
  lemma WithdrawSplitsDeposit(s: State, signer: Name, owner: Name, saveId: U64, now: U32)
    requires Ledger(s) && WithdrawSpec(s, signer, owner, saveId, now).Some?
    requires (owner, saveId) in s.accounts && s.accounts[(owner, saveId)].deposit.sym == s.principal.sym
    ensures var t := WithdrawSpec(s, signer, owner, saveId, now).value;
            var a := s.accounts[(owner, saveId)]; var p := a.planId; var conf := s.plans[p].conf;
            var charged := Charged(conf, a.deposit.amount, a.createdAt, now);
            && p in t.plans
            && t.plans[p].depositRedeemed.amount == s.plans[p].depositRedeemed.amount + (a.deposit.amount - charged)
            && t.purse.held == s.purse.held[s.principal := Balance(s.purse, s.principal) - a.deposit.amount]
            && t.purse.sent == s.purse.sent + (if charged > 0 then [Payment(s.principal, SHARE_CISUM, charged)] else [])
                               + [Payment(s.principal, owner, a.deposit.amount - charged)]
            && (if Premature(conf, a.createdAt, now) then conf.allowAdvance && 0 < charged < a.deposit.amount else charged == 0)
  {
    hide Penalty, Premature;
  }

  /** All that an early withdrawal needs apart from its time and its penalty. */
  ghost predicate Gates(s: State, signer: Name, owner: Name, saveId: U64) {
    && (owner, saveId) in s.accounts
    && var a := s.accounts[(owner, saveId)];
    && (signer == owner || signer == s.admin)
    && AccountBacked(s, a)
    && MusicSettled(a)
    && var plan := s.plans[a.planId];
    && plan.conf.allowAdvance
    && a.deposit.sym == s.principal.sym && plan.depositRedeemed.sym == s.principal.sym
    && plan.depositAvailable.amount <= MAX_AMOUNT
    && plan.depositRedeemed.amount >= 0 && plan.depositRedeemed.amount + a.deposit.amount <= MAX_AMOUNT
    && Balance(s.purse, s.principal) >= a.deposit.amount
    && owner != POS_CISUM
  }

  /** An early withdrawal that passes every other gate commits if and only if its penalty is positive and below the deposit. */
  lemma EarlyWithdrawIff(s: State, signer: Name, owner: Name, saveId: U64, now: U32)
    requires Ledger(s) && Gates(s, signer, owner, saveId)
    requires var a := s.accounts[(owner, saveId)]; Premature(s.plans[a.planId].conf, a.createdAt, now)
    ensures var a := s.accounts[(owner, saveId)];
            WithdrawSpec(s, signer, owner, saveId, now).Some? <==>
              0 < Penalty(s.plans[a.planId].conf, a.deposit.amount, a.createdAt, now) < a.deposit.amount
  {
    hide Penalty, Premature, MusicSettled;
    var a := s.accounts[(owner, saveId)];
    assert POS_CISUM != SHARE_CISUM;
    LargestAccount(s, (owner, saveId));
  }

  lemma LargestAccount(s: State, k: (Name, U64))
    requires Ledger(s) && k in s.accounts
    ensures s.accounts[k].deposit.amount <= s.plans[s.accounts[k].planId].depositAvailable.amount
  {
    var p := s.accounts[k].planId;
    var m := DepositsIn(s.accounts, p);
    assert AccountBacked(s, s.accounts[k]);
    forall l | l in m
      ensures m[l] >= 0
    {
      assert AccountBacked(s, s.accounts[l]);
    }
    Sums.SumNonNegative(m);
    assert m[k] == s.accounts[k].deposit.amount;
    assert TotalDeposits(s, p) == Sums.Sum(m);
  }

  /** A plan that allows early redemption free of charge never lets anyone redeem early: the zero penalty transfer aborts. */
  lemma FreeEarlyRedemptionAborts(s: State, signer: Name, owner: Name, saveId: U64, now: U32)
    requires (owner, saveId) in s.accounts && s.accounts[(owner, saveId)].planId in s.plans
    requires var a := s.accounts[(owner, saveId)]; var conf := s.plans[a.planId].conf;
             conf.fineRate == 0 && Premature(conf, a.createdAt, now)
    ensures WithdrawSpec(s, signer, owner, saveId, now).Abort?
  {
    hide Premature, MulUp;
  }

  /** The time elapsed of a term that has not run out is below the term, on whatever lap of the 32-bit clock it ends. */
  lemma PrematureIsWithinTerm(conf: PlanConf, created: U32, now: U32)
    requires Premature(conf, created, now) && created <= now && TotalSeconds(conf) > 0
    ensures now - created < TotalSeconds(conf)
  {
    var seconds := TermSeconds(conf.termDays);
    assert seconds == TotalSeconds(conf) by {
      SameSeconds(conf.termDays * DAY_SECONDS);
    }
    var ends := created + seconds;
    QuotientBounds(ends, TWO_32);
    QuotientMonotone(0, ends, TWO_32);
  }

  lemma SameSeconds(x: nat)
    ensures WrapS64(x) > 0 ==> WrapS64(x) == WrapU64(x)
  {
  }

  /** Of two charges that a withdrawal can pay, the later is no higher, unless the maximum penalty exceeds 2^64. */
  lemma ChargeFallsWithTime(conf: PlanConf, amount: nat, created: U32, early: U32, late: U32)
    requires amount <= MAX_AMOUNT && RateFits(conf) && RoundedPenalty(amount, conf.fineRate) <= TWO_64
    requires created <= early <= late
    requires Premature(conf, created, early) ==> 0 < Penalty(conf, amount, created, early) < amount
    requires Premature(conf, created, late) ==> 0 < Penalty(conf, amount, created, late) < amount
    ensures Charged(conf, amount, created, late) <= Charged(conf, amount, created, early)
  {
    hide Penalty, FineRate, RoundedPenalty, TotalSeconds, ProductsFit, RateFits, Premature;
    if Premature(conf, created, late) {
      SmallPenaltyFits(conf, amount);
      EarlierIsPremature(conf, created, early, late);
      var total := TotalSeconds(conf);
      NoTermNoPenalty(conf, amount, created, late);
      PrematureIsWithinTerm(conf, created, late);
      PenaltyIsCut(conf, amount, created, early);
      PenaltyIsCut(conf, amount, created, late);
      UncutFallsWithTime(conf, amount, total - (early - created), total - (late - created));
      FirstLap(Uncut(conf, amount, total - (early - created)));
      FirstLap(Uncut(conf, amount, total - (late - created)));
    }
  }

  lemma EarlierIsPremature(conf: PlanConf, created: U32, early: U32, late: U32)
    requires Premature(conf, created, late) && early <= late
    ensures Premature(conf, created, early)
  {
  }

  lemma NoTermNoPenalty(conf: PlanConf, amount: nat, created: U32, now: U32)
    ensures TotalSeconds(conf) <= 0 ==> Penalty(conf, amount, created, now) == 0
  {
  }

  lemma FirstLap(x: nat)
    ensures x <= TWO_64 && WrapS64(x) > 0 ==> WrapS64(x) == x
  {
  }

  /** What has been redeemed from the plan after a withdrawal at `now`. */
  ghost function RedeemedAfter(s: State, signer: Name, owner: Name, saveId: U64, now: U32): int
    requires (owner, saveId) in s.accounts
  {
    var r := WithdrawSpec(s, signer, owner, saveId, now);
    var p := s.accounts[(owner, saveId)].planId;
    if r.Some? && p in r.value.plans then r.value.plans[p].depositRedeemed.amount else 0
  }

  /** At fixed plan settings, of two withdrawals that commit the later one pays the owner at least as much, maturity included, as
      long as the maximum penalty is at most 2^64. */
  lemma LaterRedeemsMore(s: State, signer: Name, owner: Name, saveId: U64, early: U32, late: U32)
    requires Ledger(s) && (owner, saveId) in s.accounts
    requires var a := s.accounts[(owner, saveId)];
             && AccountBacked(s, a) && a.deposit.sym == s.principal.sym && a.deposit.amount <= MAX_AMOUNT
             && var conf := s.plans[a.planId].conf;
             && RateFits(conf) && RoundedPenalty(a.deposit.amount, conf.fineRate) <= TWO_64
             && a.createdAt <= early <= late
    requires WithdrawSpec(s, signer, owner, saveId, early).Some? && WithdrawSpec(s, signer, owner, saveId, late).Some?
    ensures RedeemedAfter(s, signer, owner, saveId, early) <= RedeemedAfter(s, signer, owner, saveId, late)
  {
    hide WithdrawSpec, Ledger, Penalty, Premature, RoundedPenalty, RateFits;
    var a := s.accounts[(owner, saveId)];
    WithdrawSplitsDeposit(s, signer, owner, saveId, early);
    WithdrawSplitsDeposit(s, signer, owner, saveId, late);
    ChargeFallsWithTime(s.plans[a.planId].conf, a.deposit.amount, a.createdAt, early, late);
  }
}
