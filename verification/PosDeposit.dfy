/** What a deposit earns at once: the MUSIC handed out and the points of a nestpont plan, stated on the state before and after. */
module PosDeposit {
  import opened Eosio
  import opened SafeMath
  import opened PosModel
  import opened PosLedger
  import opened PosInterest
  import opened PosCollect
  import opened PosTerms

  lemma {:induction false} PowerAtMost(digits: nat)
    requires digits <= 18
    ensures Pow10(digits) <= 1_000_000_000_000_000_000
  {
    Powers();
    PowerGrows(digits, 18);
  }

  lemma {:induction false} PowerGrows(few: nat, many: nat)
    requires few <= many
    ensures Pow10(few) <= Pow10(many)
  {
    if few < many {
      PowerGrows(few, many - 1);
    }
  }

  /** Changing to `digits` decimals never wraps: an amount times a power of ten fits 128 bits. */
  lemma Rescaled(quant: Asset, digits: nat) returns (scaled: nat)
    requires 0 < quant.amount <= MAX_AMOUNT && quant.sym.precision <= 18 && digits <= 18
    ensures scaled == TruncDiv(WrapS128(quant.amount * Pow10(digits)), Pow10(quant.sym.precision))
    ensures IsFloor(scaled, quant.amount * Pow10(digits), Pow10(quant.sym.precision))
  {
    hide Pow10, IsFloor;
    PowerAtMost(digits);
    var n := quant.amount * Pow10(digits);
    MulOrder(Pow10(digits), 1_000_000_000_000_000_000, quant.amount);
    MulOrder(0, Pow10(digits), quant.amount);
    assert 0 <= n < TWO_127;
    assert WrapS128(n) == n;
    FloorIs(n, Pow10(quant.sym.precision));
    scaled := n / Pow10(quant.sym.precision);
  }

  lemma NestedPoints(n: nat)
    ensures n / 10000 / 365 == n / 3_650_000
  {
    var q := n / 3_650_000;
    QuotientBounds(n, 3_650_000);
    QuotientBounds(n, 10000);
    QuotientIs(n / 10000, 365, q);
  }

  lemma PointsBounds(quant: Asset, digits: nat, rate: nat, days: U64) returns (scaled: nat)
    requires 0 < quant.amount <= MAX_AMOUNT && quant.sym.precision <= 18 && digits <= 18 && days > 0
    ensures IsFloor(scaled, quant.amount * Pow10(digits), Pow10(quant.sym.precision))
    ensures Points(quant, digits, rate, days).Some?
    ensures var p := Points(quant, digits, rate, days).value;
            p < TWO_63 && (IsFloor(p, scaled * rate * days, 3_650_000) <==> scaled * rate * days < 3_650_000 * TWO_63)
  {
    hide IsFloor, Pow10, WrapS128, TruncDiv;
    scaled := Rescaled(quant, digits);
    var n := scaled * rate * days;
    var p := Points(quant, digits, rate, days).value;
    MulOrder(0, rate, scaled);
    MulOrder(0, days, scaled * rate);
    if n < 3_650_000 * TWO_63 {
      MulOrder(1, days, scaled * rate);
      Unwrapped(scaled * rate);
      Unwrapped(n);
      TruncNat(n, 10000);
      QuotientMonotone(0, n, 10000);
      TruncNat(n / 10000, 365);
      NestedPoints(n);
      QuotientMonotone(0, n, 3_650_000);
      QuotientBounds(n, 3_650_000);
      Unwrapped64(n / 3_650_000);
    }
    CutFloorIff(p, n, 3_650_000);
  }

  lemma Unwrapped(n: nat)
    requires n < TWO_127
    ensures WrapS128(n) == n
  {
  }

  lemma TruncNat(n: nat, d: nat)
    requires d > 0
    ensures TruncDiv(n, d) == n / d
  {
  }

  /** The MUSIC that a deposit is rewarded with, whenever the reward is an amount. */
  lemma MusicBounds(quant: Asset, rate: U64) returns (scaled: nat)
    requires 0 < quant.amount <= MAX_AMOUNT && quant.sym.precision <= 18
    ensures IsFloor(scaled, quant.amount * Pow10(8), Pow10(quant.sym.precision))
    ensures var r := MusicReward(quant, rate);
            && (r.Some? ==> r.value.sym == MUSIC && 0 <= r.value.amount <= MAX_AMOUNT
                            && (IsFloor(r.value.amount, scaled * rate, PCT_BOOST) <==> scaled * rate < PCT_BOOST * TWO_63))
            && (scaled * rate < PCT_BOOST * TWO_63 ==> (r.Some? <==> scaled * rate < PCT_BOOST * (MAX_AMOUNT + 1)))
  {
    hide IsFloor, Pow10, WrapS128, TruncDiv;
    scaled := Rescaled(quant, 8);
    var n := scaled * rate;
    var r := MusicReward(quant, rate);
    MulOrder(0, rate, scaled);
    if n < PCT_BOOST * TWO_63 {
      Unwrapped(n);
      TruncNat(n, PCT_BOOST);
      QuotientMonotone(0, n, PCT_BOOST);
      QuotientBounds(n, PCT_BOOST);
      Unwrapped64(n / PCT_BOOST);
    }
    if r.Some? {
      CutFloorIff(r.value.amount, n, PCT_BOOST);
    }
  }

  // ---------- The yearly rate ----------

  /** 0 for a deposit of up to 1000 whole units, 1 for one of up to 2000, 2 above. */
  ghost function Tier(quant: Asset): nat {
    var unit := Pow10(quant.sym.precision);
    if quant.amount <= 1000 * unit then 0 else if quant.amount <= 2000 * unit then 1 else 2
  }

  /** The yearly rates by scheme and tier, in ten-thousandths. */
  ghost function Published(scheme: Scheme): seq<nat>
    ensures |Published(scheme)| == 3
  {
    match scheme
    case Lad1 => [600, 680, 800]
    case Lad2 => [680, 800, 1000]
    case Lad3 => [800, 1000, 1200]
    case Lad11 => [600, 600, 600]
    case Lad21 => [630, 630, 630]
    case Lad31 => [660, 660, 660]
    case Dem2 => [200, 200, 200]
    case Dem3 => [300, 300, 300]
    case _ => [100, 100, 100]
  }

  ghost predicate RateAsPublished(scheme: Scheme, quant: Asset) {
    InterestRate(scheme, quant) == Some(Published(scheme)[Tier(quant)])
  }

  /** Every amount of a token earns the published rate, on every scheme, if and only if the token does not have 16 or 18 decimals: there
      the thresholds, cut to 64 bits, fall among the amounts. */
  lemma PublishedRatesIff(sym: Symbol)
    requires sym.precision <= 18
    ensures (forall scheme: Scheme, amount: nat | amount <= MAX_AMOUNT :: RateAsPublished(scheme, Asset(amount, sym)))
            <==> sym.precision != 16 && sym.precision != 18
  {
    hide WrapS64, Tier, InterestRate;
    if sym.precision == 16 {
      CutThresholds(sym, 1);
      assert !RateAsPublished(Lad1, Asset(1, sym));
    } else if sym.precision == 18 {
      CutThresholds(sym, MAX_AMOUNT);
      assert !RateAsPublished(Lad1, Asset(MAX_AMOUNT, sym));
    } else {
      forall scheme: Scheme, amount: nat | amount <= MAX_AMOUNT
        ensures RateAsPublished(scheme, Asset(amount, sym))
      {
        Thresholds(sym, amount);
        RateByTier(scheme, Asset(amount, sym));
      }
    }
  }

  lemma RateByTier(scheme: Scheme, quant: Asset)
    requires quant.sym.precision <= 18
    requires quant.amount <= WrapS64(1000 * Pow10(quant.sym.precision)) <==> Tier(quant) == 0
    requires quant.amount > WrapS64(1000 * Pow10(quant.sym.precision)) ==>
               (quant.amount <= WrapS64(2000 * Pow10(quant.sym.precision)) <==> Tier(quant) == 1)
    ensures RateAsPublished(scheme, quant)
  {
    hide WrapS64, Pow10;
  }

  lemma Powers()
    ensures Pow10(15) == 1_000_000_000_000_000 && Pow10(16) == 10_000_000_000_000_000
    ensures Pow10(17) == 100_000_000_000_000_000 && Pow10(18) == 1_000_000_000_000_000_000
  {
    assert Pow10(6) == 1_000_000;
    assert Pow10(12) == 1_000_000 * Pow10(6);
    assert Pow10(15) == 1000 * Pow10(12);
    assert Pow10(16) == 10 * Pow10(15) && Pow10(17) == 10 * Pow10(16) && Pow10(18) == 10 * Pow10(17);
  }

  lemma Thresholds(sym: Symbol, amount: nat)
    requires sym.precision <= 15 || sym.precision == 17
    requires amount <= MAX_AMOUNT
    ensures var quant := Asset(amount, sym);
            && (quant.amount <= WrapS64(1000 * Pow10(sym.precision)) <==> Tier(quant) == 0)
            && (quant.amount > WrapS64(1000 * Pow10(sym.precision)) ==>
                  (quant.amount <= WrapS64(2000 * Pow10(sym.precision)) <==> Tier(quant) == 1))
  {
    hide Pow10;
    Powers();
    if sym.precision <= 15 {
      PowerGrows(sym.precision, 15);
    }
  }

  lemma CutThresholds(sym: Symbol, amount: nat)
    requires (sym.precision == 16 && amount == 1) || (sym.precision == 18 && amount == MAX_AMOUNT)
    ensures Tier(Asset(amount, sym)) == 0 && InterestRate(Lad1, Asset(amount, sym)) != Some(600)
  {
    hide Pow10;
    Powers();
  }

  // ---------- What a deposit earns ----------

  /** The interest of a whole term on a cisumapr plan, in the two roundings of the contract; nothing on other plans. */
  ghost predicate TermOf(conf: PlanConf, quant: Asset, rate: nat, term: int, share: nat) {
    if conf.pool.CisumApr? then
      && IsFloor(share, rate * 100 * (conf.termDays * DAY_SECONDS % TWO_64), YEAR_SECONDS)
      && CutFloor(term, share * quant.amount, 1_000_000)
    else term == 0
  }

  /** The MUSIC handed out: the deposit in units of MUSIC times the rate in ten-thousandths. */
  ghost predicate RewardOf(conf: PlanConf, quant: Asset, reward: nat, scaled: nat) {
    && IsFloor(scaled, quant.amount * Pow10(8), Pow10(quant.sym.precision))
    && CutFloor(reward, scaled * conf.musicRate, PCT_BOOST)
  }

  /** The points of a nestpont plan: the deposit in units of the reward token times rate and days, over 10000 and 365; nothing on
      other plans. */
  ghost predicate PointsOf(conf: PlanConf, quant: Asset, rate: nat, points: int, scaled: nat) {
    if conf.pool.NestPont? && conf.termDays > 0 then
      && IsFloor(scaled, quant.amount * Pow10(conf.interestToken.sym.precision), Pow10(quant.sym.precision))
      && CutFloor(points, scaled * rate * conf.termDays, 3_650_000)
    else points == 0
  }

  datatype Earnings = Earnings(rate: U64, term: int, reward: nat, points: int)

  /** What a deposit of `quant` earns on a plan. */
  ghost predicate Earns(conf: PlanConf, quant: Asset, e: Earnings) {
    && InterestRate(conf.scheme, quant) == Some(e.rate)
    && (exists share: nat :: TermOf(conf, quant, e.rate, e.term, share))
    && (exists scaled: nat :: RewardOf(conf, quant, e.reward, scaled))
    && (exists scaled: nat :: PointsOf(conf, quant, e.rate, e.points, scaled))
  }

  // ---------- The deposit ----------

  ghost function NextId(s: State): U64 { (s.lastSaveId + 1) % TWO_64 }

  ghost predicate Accepts(s: State, from: Name, quant: Asset, planId: U64, now: U32, e: Earnings) {
    && planId in s.plans
    && var plan := s.plans[planId]; var conf := plan.conf; var music := Token(MUSIC, SING_TOKEN);
    && quant.sym == s.minDeposit.sym == plan.depositAvailable.sym && quant.amount >= s.minDeposit.amount
    && conf.effectiveFrom <= now <= conf.effectiveTo
    && plan.depositAvailable.amount + quant.amount <= MAX_AMOUNT
    && (conf.pool.CisumApr? ==> conf.termDays * DAY_SECONDS % TWO_64 > 0)
    && e.reward <= MAX_AMOUNT && e.reward <= Balance(s.purse, music)
    && (from, NextId(s)) !in s.accounts
    && (if conf.pool.NestPont? then
          && 0 < e.points <= plan.interestAvailable.amount
          && plan.interestRedeemed.amount + e.points <= MAX_AMOUNT
          && e.points <= Balance(s.purse, conf.interestToken) - (if conf.interestToken == music then e.reward else 0)
        else e.points == 0)
  }

  ghost function Paid(purse: Purse, token: Token, to: Name, amount: nat): Purse
    requires amount <= Balance(purse, token)
  {
    if amount == 0 then purse
    else Purse(purse.held[token := Balance(purse, token) - amount], purse.sent + [Payment(token, to, amount)])
  }

  /** The state after an accepted deposit. */
  ghost function Received(s: State, from: Name, quant: Asset, planId: U64, now: U32, e: Earnings): State
    requires Accepts(s, from, quant, planId, now, e)
  {
    var plan := s.plans[planId];
    var token := plan.conf.interestToken;
    var account := SaveAccount(planId, e.rate, quant, Asset(e.term, token.sym), Asset(0, token.sym),
                               Asset(e.reward, MUSIC), Asset(0, MUSIC), now, (now + plan.conf.termDays * DAY_SECONDS) % TWO_32, now);
    s.(lastSaveId := NextId(s),
       plans := s.plans[planId := plan.(
           depositAvailable := Asset(plan.depositAvailable.amount + quant.amount, plan.depositAvailable.sym),
           interestAvailable := Asset(plan.interestAvailable.amount - e.points, plan.interestAvailable.sym),
           interestRedeemed := Asset(plan.interestRedeemed.amount + e.points, plan.interestRedeemed.sym))],
       accounts := s.accounts[(from, NextId(s)) := account],
       purse := Paid(Paid(s.purse, Token(MUSIC, SING_TOKEN), from, e.reward), token, from, e.points))
  }

  /** `e` is what the contract computes for the deposit. */
  ghost predicate Computed(conf: PlanConf, quant: Asset, e: Earnings) {
    && quant.sym.precision <= 18 && conf.interestToken.sym.precision <= 18
    && InterestRate(conf.scheme, quant) == Some(e.rate)
    && MusicReward(quant, conf.musicRate) == (if e.reward <= MAX_AMOUNT then Some(Asset(e.reward, MUSIC)) else Abort)
    && (if conf.pool.CisumApr? then e.term == RawInterest(e.rate, quant.amount, TermSeconds(conf.termDays)) else e.term == 0)
    && (if conf.pool.NestPont? && conf.termDays > 0
        then Points(quant, conf.interestToken.sym.precision, e.rate, conf.termDays) == Some(e.points) else e.points == 0)
  }

  lemma EarningsOf(conf: PlanConf, quant: Asset) returns (e: Earnings)
    requires 0 < quant.amount <= MAX_AMOUNT && quant.sym.precision <= 18 && conf.interestToken.sym.precision <= 18
    ensures Earns(conf, quant, e)
    ensures Computed(conf, quant, e)
  {
    hide IsFloor, Pow10, RawInterest, Points, MusicReward, WrapS64;
    var rate := RateOf(conf, quant);
    var term, share := TermAmount(conf, quant, rate);
    var reward, scaled := RewardAmount(conf, quant);
    var points, scaledPoints := PointsAmount(conf, quant, rate);
    e := Earnings(rate, term, reward, points);
  }

  lemma RateOf(conf: PlanConf, quant: Asset) returns (rate: U64)
    requires quant.sym.precision <= 18
    ensures InterestRate(conf.scheme, quant) == Some(rate) && rate <= MAX_RATE
  {
    rate := InterestRate(conf.scheme, quant).value;
  }

  lemma TermAmount(conf: PlanConf, quant: Asset, rate: U64) returns (term: int, share: nat)
    requires 0 < quant.amount <= MAX_AMOUNT && rate <= MAX_RATE
    ensures TermOf(conf, quant, rate, term, share)
    ensures term == if conf.pool.CisumApr? then RawInterest(rate, quant.amount, TermSeconds(conf.termDays)) else 0
  {
    hide IsFloor, CutFloor, RawInterest;
    term := if conf.pool.CisumApr? then RawInterest(rate, quant.amount, TermSeconds(conf.termDays)) else 0;
    share := InterestFloor(rate, quant.amount, TermSeconds(conf.termDays));
  }

  lemma RewardAmount(conf: PlanConf, quant: Asset) returns (reward: nat, scaled: nat)
    requires 0 < quant.amount <= MAX_AMOUNT && quant.sym.precision <= 18
    ensures RewardOf(conf, quant, reward, scaled)
    ensures MusicReward(quant, conf.musicRate) == if reward <= MAX_AMOUNT then Some(Asset(reward, MUSIC)) else Abort
  {
    hide IsFloor, Pow10, MusicReward;
    scaled := MusicBounds(quant, conf.musicRate);
    var n := scaled * conf.musicRate;
    var r := MusicReward(quant, conf.musicRate);
    MulOrder(0, conf.musicRate, scaled);
    FloorIs(n, PCT_BOOST);
    if r.Some? {
      reward := r.value.amount;
      if n < PCT_BOOST * TWO_63 {
        FloorUnique(reward, n, PCT_BOOST);
      }
    } else if n < PCT_BOOST * TWO_63 {
      reward := n / PCT_BOOST;
      QuotientBounds(n, PCT_BOOST);
    } else {
      reward := MAX_AMOUNT + 1;
    }
    CutFloorIff(reward, n, PCT_BOOST);
  }

  lemma PointsAmount(conf: PlanConf, quant: Asset, rate: nat) returns (points: int, scaled: nat)
    requires 0 < quant.amount <= MAX_AMOUNT && quant.sym.precision <= 18 && conf.interestToken.sym.precision <= 18
    ensures PointsOf(conf, quant, rate, points, scaled)
    ensures if conf.pool.NestPont? && conf.termDays > 0
            then Points(quant, conf.interestToken.sym.precision, rate, conf.termDays) == Some(points) else points == 0
  {
    hide IsFloor, Pow10, Points;
    points, scaled := 0, 0;
    if conf.pool.NestPont? && conf.termDays > 0 {
      scaled := PointsBounds(quant, conf.interestToken.sym.precision, rate, conf.termDays);
      points := Points(quant, conf.interestToken.sym.precision, rate, conf.termDays).value;
    }
  }

  lemma TermIsOver(created: U32, days: U64)
    ensures TermSeconds(days) == days * DAY_SECONDS % TWO_64
    ensures WrapU32(created + TermSeconds(days)) == (created + days * DAY_SECONDS) % TWO_32
  {
    SameEnd(created, days * DAY_SECONDS);
  }

  lemma DepositCommits(s: State, from: Name, quant: Asset, planId: U64, now: U32, e: Earnings)
    requires Ledger(s) && Tidy(s) && planId in s.plans && from != POS_CISUM && 0 < quant.amount <= MAX_AMOUNT
    requires Computed(s.plans[planId].conf, quant, e)
    ensures Deposit(s, from, quant, planId, now).Some? <==> Accepts(s, from, quant, planId, now, e)
  {
    hide InterestRate, MusicReward, RawInterest, Points, TermSeconds, WrapU32;
    var plan := s.plans[planId];
    TermIsOver(now, plan.conf.termDays);
    assert PoolOk(plan) && PlanTidy(plan);
    Points0(quant, plan.conf, e.rate);
    assert plan.depositAvailable.amount >= 0 by {
      forall k | k in s.accounts
        ensures s.accounts[k].deposit.amount > 0
      {
        assert AccountBacked(s, s.accounts[k]);
      }
      TotalIsZeroIffEmpty(s, planId);
      assert plan.depositAvailable.amount == TotalDeposits(s, planId);
    }
  }

  lemma DepositResult(s: State, from: Name, quant: Asset, planId: U64, now: U32, e: Earnings)
    requires Accepts(s, from, quant, planId, now, e) && Computed(s.plans[planId].conf, quant, e)
    requires Tidy(s)
    ensures var r := Deposit(s, from, quant, planId, now); r.Some? ==> r.value == Received(s, from, quant, planId, now, e)
  {
    hide InterestRate, MusicReward, RawInterest, Points, TermSeconds, WrapU32;
    TermIsOver(now, s.plans[planId].conf.termDays);
    var r := Deposit(s, from, quant, planId, now);
    if r.Some? {
      var t := Received(s, from, quant, planId, now, e);
      assert r.value.plans[planId] == t.plans[planId];
      assert r.value.accounts == t.accounts;
      assert r.value.purse == t.purse;
    }
  }

  lemma Points0(quant: Asset, conf: PlanConf, rate: nat)
    ensures conf.termDays == 0 ==> Points(quant, conf.interestToken.sym.precision, rate, conf.termDays).Abort?
  {
  }

  /** A transfer of the principal token to the contract, by anyone, as a deposit: it commits if and only if the plan accepts it and the
      contract can pay what it earns at once, and then it opens one account, moves one plan and sends at most two payments, both to the
      depositor. Each amount earned is an exact floor if and only if that has 63 bits. */
  lemma DepositTerms(s: State, from: Name, quant: Asset, memo: Memo, planId: U64, now: U32) returns (e: Earnings)
    requires Ledger(s) && Tidy(s) && planId in s.plans && from != POS_CISUM && 0 < quant.amount <= MAX_AMOUNT
    requires s.principal == Token(quant.sym, SING_TOKEN) && quant.sym.precision <= 18
    requires s.plans[planId].conf.interestToken.sym.precision <= 18
    requires memo == DepositTo(planId) || (memo == Empty && planId == 1)
    ensures Earns(s.plans[planId].conf, quant, e)
    ensures var c := Credited(s, SING_TOKEN, quant);
            TransferInSpec(s, from, SING_TOKEN, quant, memo, now)
            == if Accepts(c, from, quant, planId, now, e) then Some(Received(c, from, quant, planId, now, e)) else Abort
  {
    hide Deposit, Accepts, Received, InterestRate, MusicReward, RawInterest, Points, TermSeconds, Earns;
    var c := Credited(s, SING_TOKEN, quant);
    CreditKeepsLedger(s, SING_TOKEN, quant);
    e := EarningsOf(s.plans[planId].conf, quant);
    DepositCommits(c, from, quant, planId, now, e);
    if Accepts(c, from, quant, planId, now, e) {
      DepositResult(c, from, quant, planId, now, e);
    }
  }

  // ---------- Points ----------

  /** The states before and after a committed deposit on a nestpont plan, by a transfer of the principal token. */
  ghost predicate PointsDeposit(s: State, t: State, from: Name, quant: Asset, planId: U64, now: U32) {
    && Ledger(s) && Tidy(s) && planId in s.plans && s.plans[planId].conf.pool.NestPont?
    && quant.sym.precision <= 18 && s.plans[planId].conf.interestToken.sym.precision <= 18
    && quant.sym == s.principal.sym
    && TransferInSpec(s, from, SING_TOKEN, quant, DepositTo(planId), now) == Some(t)
  }

  /** The growth of what the plan has paid out of its pool. */
  ghost function PaidOut(s: State, t: State, planId: U64): int {
    if planId in s.plans && planId in t.plans then t.plans[planId].interestRedeemed.amount - s.plans[planId].interestRedeemed.amount else 0
  }

  /** A deposit of `quant` on a nestpont plan takes from the pool, and pays to the depositor, the deposit in units of the reward token
      times the yearly rate for the days of the term, rounded down; exactly so if and only if that has 63 bits. */
  lemma PointsEarned(s: State, t: State, from: Name, quant: Asset, planId: U64, now: U32) returns (scaled: nat, rate: nat)
    requires PointsDeposit(s, t, from, quant, planId, now)
    ensures (from, t.lastSaveId) in t.accounts && (from, t.lastSaveId) !in s.accounts && t.accounts[(from, t.lastSaveId)].rate == rate
    ensures InterestRate(s.plans[planId].conf.scheme, quant) == Some(rate)
    ensures var conf := s.plans[planId].conf; var R := conf.interestToken.sym.precision; var P := quant.sym.precision;
            var p := PaidOut(s, t, planId);
            && p > 0
            && scaled * Pow10(P) <= quant.amount * Pow10(R) < (scaled + 1) * Pow10(P)
            && (p * 3_650_000 <= scaled * rate * conf.termDays < (p + 1) * 3_650_000 <==> scaled * rate * conf.termDays < 3_650_000 * TWO_63)
            && planId in t.plans
            && t.plans[planId].interestAvailable.amount == s.plans[planId].interestAvailable.amount - p
            && |t.purse.sent| > |s.purse.sent| && t.purse.sent[|t.purse.sent| - 1] == Payment(conf.interestToken, from, p)
  {
    hide Deposit, SingNotice, InterestRate, Pow10, Ledger, Tidy;
    FromElsewhere(s, t, from, quant, planId, now);
    var e := DepositTerms(s, from, quant, DepositTo(planId), planId, now);
    var c := Credited(s, SING_TOKEN, quant);
    assert Accepts(c, from, quant, planId, now, e) && t == Received(c, from, quant, planId, now, e);
    rate := e.rate;
    scaled :| PointsOf(s.plans[planId].conf, quant, e.rate, e.points, scaled);
  }

  lemma FromElsewhere(s: State, t: State, from: Name, quant: Asset, planId: U64, now: U32)
    requires TransferInSpec(s, from, SING_TOKEN, quant, DepositTo(planId), now) == Some(t) && quant.sym == s.principal.sym
    ensures from != POS_CISUM && 0 < quant.amount <= MAX_AMOUNT && s.principal == Token(quant.sym, SING_TOKEN)
  {
    hide Deposit;
  }

  lemma FloorOrder(p: int, m: int, q: int, n: int, d: int)
    requires d > 0 && m <= n && p * d <= m && n < (q + 1) * d
    ensures p <= q
  {
    if q + 1 <= p {
      MulOrder(q + 1, p, d);
    }
  }

  lemma ProductOrder(a: nat, b: nat, c: nat, x: nat, y: nat, z: nat)
    requires a <= x && b <= y && c <= z
    ensures a * b * c <= x * y * z
  {
    MulOrder(a, x, b);
    MulOrder(b, y, x);
    MulOrder(a * b, x * y, c);
    MulOrder(c, z, x * y);
  }

  /** The points fit whenever the deposit at the highest rate, not yet rounded, does. */
  lemma FitsUnrounded(scaled: nat, rate: nat, days: nat, raw: nat, unit: nat)
    requires unit > 0 && scaled * unit <= raw && rate <= MAX_RATE && raw * MAX_RATE * days < unit * (3_650_000 * TWO_63)
    ensures scaled * rate * days < 3_650_000 * TWO_63
  {
    var n := scaled * rate * days;
    ProductOrder(scaled * unit, rate, days, raw, MAX_RATE, days);
    assert n * unit == scaled * unit * rate * days;
    if n >= 3_650_000 * TWO_63 {
      MulOrder(3_650_000 * TWO_63, n, unit);
    }
  }

  /** More points for more: on plans that differ at most in their term, at any two times and in any two states, a larger deposit for
      a longer term earns at least as many points, as long as the larger fits even at the highest rate. */
  lemma MorePointsForMore(s: State, t: State, u: State, v: State, small: Name, large: Name, less: Asset, more: Asset,
                          p: U64, q: U64, one: U32, two: U32)
    requires PointsDeposit(s, t, small, less, p, one) && PointsDeposit(u, v, large, more, q, two)
    requires var a, b := s.plans[p].conf, u.plans[q].conf; a.scheme == b.scheme && a.interestToken.sym == b.interestToken.sym && a.termDays <= b.termDays
    requires less.sym == more.sym && less.amount <= more.amount
    requires var R := Pow10(s.plans[p].conf.interestToken.sym.precision);
             more.amount * R * MAX_RATE * u.plans[q].conf.termDays < Pow10(more.sym.precision) * (3_650_000 * TWO_63)
    ensures PaidOut(s, t, p) <= PaidOut(u, v, q)
  {
    hide Pow10, PaidOut, InterestRate, TransferInSpec, Ledger, Tidy;
    FromElsewhere(s, t, small, less, p, one);
    var scaled, rate := PointsEarned(s, t, small, less, p, one);
    var scaledMore, rateMore := PointsEarned(u, v, large, more, q, two);
    var R, P := Pow10(s.plans[p].conf.interestToken.sym.precision), Pow10(less.sym.precision);
    RateMonotone(s.plans[p].conf.scheme, less, more);
    MulOrder(less.amount, more.amount, R);
    FloorOrder(scaled, less.amount * R, scaledMore, more.amount * R, P);
    FitsUnrounded(scaledMore, rateMore, u.plans[q].conf.termDays, more.amount * R, P);
    ProductOrder(scaled, rate, s.plans[p].conf.termDays, scaledMore, rateMore, u.plans[q].conf.termDays);
    FloorOrder(PaidOut(s, t, p), scaled * rate * s.plans[p].conf.termDays, PaidOut(u, v, q),
               scaledMore * rateMore * u.plans[q].conf.termDays, 3_650_000);
  }
}
