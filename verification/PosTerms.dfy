/** What the terms of a deposit amount to, stated on the state before and after an action: when the principal can be taken out and at
    what cost, what a deposit earns at once, and when interest can be collected. */
module PosTerms {
  import opened Eosio
  import opened SafeMath
  import opened PosModel
  import opened PosLedger
  import opened PosInterest
  import opened PosCollect
  import PosRedeem

  // ---------- Rounding ----------

  lemma Unwrapped64(n: nat)
    requires n < TWO_63
    ensures WrapS64(n) == n
  {
  }

  /** Interest without machine limits is two roundings down, and has 63 bits or is cut. */
  lemma InterestFloor(rate: nat, amount: nat, duration: U64) returns (share: nat)
    requires rate <= MAX_RATE && amount <= MAX_AMOUNT
    ensures IsFloor(share, rate * 100 * duration, YEAR_SECONDS)
    ensures CutFloor(RawInterest(rate, amount, duration), share * amount, 1_000_000)
  {
    hide IsFloor, RawInterest;
    share := Share(rate, duration);
    RawIsExactWrapped(rate, amount, duration);
    FloorIs(rate * 100 * duration, YEAR_SECONDS);
    MulOrder(0, amount, share);
    CutFloorIs(share * amount, 1_000_000);
  }

  // ---------- Totals in range ----------

  ghost predicate PlanTidy(plan: Plan) {
    && plan.depositAvailable.amount <= MAX_AMOUNT
    && plan.depositRedeemed.sym == plan.depositAvailable.sym
    && 0 <= plan.depositRedeemed.amount <= MAX_AMOUNT
    && plan.interestRedeemed.sym == plan.interestAvailable.sym
    && plan.interestAvailable.amount <= MAX_AMOUNT && plan.interestRedeemed.amount <= MAX_AMOUNT
  }

  /** Every plan total is an amount that a token can have, and totals of one kind share a symbol. */
  ghost predicate Tidy(s: State) {
    forall p | p in s.plans :: PlanTidy(s.plans[p])
  }

  lemma WithdrawKeepsTidy(s: State, signer: Name, owner: Name, saveId: U64, now: U32)
    requires Ledger(s) && Tidy(s)
    ensures Tidy(After(WithdrawSpec(s, signer, owner, saveId, now), s))
  {
    hide Penalty, Premature, Pay, MusicSettled;
    if (owner, saveId) in s.accounts {
      assert AccountBacked(s, s.accounts[(owner, saveId)]);
    }
  }

  lemma CollectKeepsTidy(s: State, signer: Name, owner: Name, saveId: U64, now: U32)
    requires Ledger(s) && Tidy(s)
    ensures Tidy(After(CollectSpec(s, signer, owner, saveId, now), s))
  {
    hide TermInterest, Pay;
  }

  lemma DepositKeepsTidy(s: State, from: Name, quant: Asset, planId: U64, now: U32)
    requires Ledger(s) && Tidy(s) && quant.amount > 0
    ensures Tidy(After(Deposit(s, from, quant, planId, now), s))
  {
    hide Opened, Points, Pay;
  }

  lemma TransferInKeepsTidy(s: State, from: Name, bank: Name, quant: Asset, memo: Memo, now: U32)
    requires Ledger(s) && Tidy(s)
    ensures Tidy(After(TransferInSpec(s, from, bank, quant, memo, now), s))
  {
    hide Deposit, Ledger;
    if TransferInSpec(s, from, bank, quant, memo, now).Some? {
      var c := Credited(s, bank, quant);
      CreditKeepsLedger(s, bank, quant);
      match memo
      case Empty => DepositKeepsTidy(c, from, quant, 1, now);
      case DepositTo(planId) => DepositKeepsTidy(c, from, quant, planId, now);
      case _ =>
    }
  }

  lemma StepKeepsTidy(s: State, act: Action, now: U32)
    requires Ledger(s) && Tidy(s)
    ensures Tidy(After(Step(s, act, now), s))
  {
    hide WithdrawSpec, CollectSpec, TransferInSpec;
    match act
    case Init(_, _, _) =>
    case SetPlan(_, _, _) =>
    case DelPlan(_, _) =>
    case Withdraw(signer, owner, saveId) => WithdrawKeepsTidy(s, signer, owner, saveId, now);
    case CollectInt(signer, owner, saveId) => CollectKeepsTidy(s, signer, owner, saveId, now);
    case TransferIn(from, bank, quant, memo) => TransferInKeepsTidy(s, from, bank, quant, memo, now);
  }

  /** The three invariants of a chronological run without `delplan`, for any time from its last transaction on. */
  ghost predicate Reached(s: State, now: nat) {
    Ledger(s) && Sound(s, now) && Tidy(s)
  }

  lemma {:induction false} RunKeepsTidy(s: State, trace: seq<Event>)
    requires Ledger(s) && Tidy(s)
    requires forall e | e in trace :: !e.act.DelPlan?
    ensures Tidy(Run(s, trace))
  {
    if trace != [] {
      var init, last := trace[..|trace| - 1], trace[|trace| - 1];
      RunKeepsTidy(s, init);
      RunKeepsLedger(s, init);
      StepKeepsTidy(Run(s, init), last.act, last.now);
    }
  }

  lemma ReachableIsReached(p: Token, minDeposit: Asset, trace: seq<Event>)
    requires Chronological(trace) && forall e | e in trace :: !e.act.DelPlan?
    ensures Reached(Run(Fresh(p, minDeposit), trace), LastTime(trace))
  {
    ReachableIsSound(p, minDeposit, trace);
    FreshIsSound(p, minDeposit);
    RunKeepsTidy(Fresh(p, minDeposit), trace);
  }

  // ---------- Withdrawal ----------

  /** The time at which the term of account `a` is over, on a clock of 32 bits. */
  ghost function EndOf(a: SaveAccount, conf: PlanConf): nat { (a.createdAt + conf.termDays * DAY_SECONDS) % TWO_32 }

  /** Apart from the term: the caller is the owner or the admin, the MUSIC reward has come back, the contract holds the deposit, and
      the plan can count `back` more units as redeemed. */
  ghost predicate Closable(s: State, signer: Name, owner: Name, saveId: U64, back: int)
    requires (owner, saveId) in s.accounts && s.accounts[(owner, saveId)].planId in s.plans
  {
    var a := s.accounts[(owner, saveId)];
    && (signer == owner || signer == s.admin)
    && owner != POS_CISUM
    && a.musicReturned.amount == a.musicReward.amount
    && a.deposit.amount <= Balance(s.purse, Token(a.deposit.sym, s.principal.bank))
    && s.plans[a.planId].depositRedeemed.amount + back <= MAX_AMOUNT
  }

  /** The state after the deposit was closed, `fine` of it sent to the penalty account and the rest to the owner. */
  ghost function Closed(s: State, owner: Name, saveId: U64, fine: nat): State
    requires (owner, saveId) in s.accounts && s.accounts[(owner, saveId)].planId in s.plans
    requires s.accounts[(owner, saveId)].deposit.amount <= Balance(s.purse, Token(s.accounts[(owner, saveId)].deposit.sym, s.principal.bank))
  {
    var a := s.accounts[(owner, saveId)];
    var plan := s.plans[a.planId];
    var token := Token(a.deposit.sym, s.principal.bank);
    var back := a.deposit.amount - fine;
    s.(plans := s.plans[a.planId := plan.(
           depositAvailable := Asset(plan.depositAvailable.amount - a.deposit.amount, plan.depositAvailable.sym),
           depositRedeemed := Asset(plan.depositRedeemed.amount + back, plan.depositRedeemed.sym))],
       accounts := s.accounts - {(owner, saveId)},
       purse := Purse(s.purse.held[token := Balance(s.purse, token) - a.deposit.amount],
                      s.purse.sent + (if fine > 0 then [Payment(token, SHARE_CISUM, fine)] else []) + [Payment(token, owner, back)]))
  }

  lemma EndsOnClock(a: SaveAccount, conf: PlanConf, now: U32)
    ensures Premature(conf, a.createdAt, now) <==> conf.kind.Term? && now < EndOf(a, conf)
  {
    SameEnd(a.createdAt, conf.termDays * DAY_SECONDS);
  }

  lemma SameEnd(created: nat, seconds: nat)
    ensures WrapU32(created + WrapU64(seconds)) == (created + seconds) % TWO_32
  {
  }

  lemma SettledIff(a: SaveAccount, now: nat)
    requires AccountSound(a, now)
    ensures MusicSettled(a) <==> a.musicReturned.amount == a.musicReward.amount
  {
    hide OpenedFor, RawInterest;
  }

  /** A deposit on a plan without a term at any time, and one on a term plan from the end of the term on, can be withdrawn if and only
      if its MUSIC is back and the contract can pay; the owner is then sent exactly the deposit. */
  lemma FreeWithdrawIff(s: State, signer: Name, owner: Name, saveId: U64, now: U32)
    requires Reached(s, now) && (owner, saveId) in s.accounts
    requires var a := s.accounts[(owner, saveId)]; var conf := s.plans[a.planId].conf;
             !conf.kind.Term? || EndOf(a, conf) <= now
    ensures var a := s.accounts[(owner, saveId)];
            WithdrawSpec(s, signer, owner, saveId, now)
            == if Closable(s, signer, owner, saveId, a.deposit.amount) then Some(Closed(s, owner, saveId, 0)) else Abort
  {
    hide Penalty, Premature, MusicSettled, AccountSound;
    var a := s.accounts[(owner, saveId)];
    assert AccountBacked(s, a) && AccountSound(a, now) && PlanTidy(s.plans[a.planId]);
    SettledIff(a, now);
    EndsOnClock(a, s.plans[a.planId].conf, now);
    PosRedeem.LargestAccount(s, (owner, saveId));
    if Closable(s, signer, owner, saveId, a.deposit.amount) {
      var t := WithdrawSpec(s, signer, owner, saveId, now).value;
      assert t.plans == Closed(s, owner, saveId, 0).plans && t.purse.sent == Closed(s, owner, saveId, 0).purse.sent;
    }
  }

  /** Before the end of its term, a deposit on a plan that does not allow early redemption stays locked. */
  lemma LockedUntilTermEnds(s: State, signer: Name, owner: Name, saveId: U64, now: U32)
    requires (owner, saveId) in s.accounts && s.accounts[(owner, saveId)].planId in s.plans
    requires var a := s.accounts[(owner, saveId)]; var conf := s.plans[a.planId].conf;
             conf.kind.Term? && !conf.allowAdvance && now < EndOf(a, conf)
    ensures WithdrawSpec(s, signer, owner, saveId, now).Abort?
  {
    hide Penalty, Premature, MusicSettled, Pay;
    var a := s.accounts[(owner, saveId)];
    EndsOnClock(a, s.plans[a.planId].conf, now);
  }

  // ---------- Early redemption ----------

  /** `q` is `n / d` rounded to the nearest integer, halves upwards. */
  ghost predicate Nearest(q: int, n: int, d: int) {
    2 * n - d < 2 * (q * d) <= 2 * n + d
  }

  lemma NearestIs(n: nat, d: nat)
    requires d > 0
    ensures (2 * n + d) / (2 * d) >= 0 && Nearest((2 * n + d) / (2 * d), n, d)
  {
    var q := (2 * n + d) / (2 * d);
    QuotientBounds(2 * n + d, 2 * d);
    QuotientSign(2 * n + d, 2 * d);
    assert q * (2 * d) == 2 * (q * d) && (q + 1) * (2 * d) == 2 * (q * d) + 2 * d;
  }

  lemma QuotientSign(n: nat, d: nat)
    requires d > 0
    ensures n / d >= 0
  {
    QuotientMonotone(0, n, d);
  }

  /** A maximum penalty that is an amount, on a term that ends on the clock, is never cut. */
  lemma OrdinaryFine(conf: PlanConf, amount: nat)
    requires 0 < conf.termDays && conf.termDays * DAY_SECONDS < TWO_32 && 0 < amount
    requires conf.fineRate < TWO_63 && amount * conf.fineRate <= PCT_BOOST * MAX_AMOUNT
    ensures PosRedeem.TotalSeconds(conf) == conf.termDays * DAY_SECONDS
    ensures PosRedeem.ProductsFit(conf, amount)
    ensures PosRedeem.RoundedPenalty(amount, conf.fineRate) < TWO_63
  {
    var total := conf.termDays * DAY_SECONDS;
    assert WrapS64(total) == total;
    MulOrder(conf.fineRate, TWO_63, total);
    MulOrder(total, TWO_32, TWO_63);
    assert 10 * conf.fineRate * total == 10 * (conf.fineRate * total);
    var n := amount * conf.fineRate;
    assert 10 * amount * conf.fineRate == 10 * n;
    QuotientMonotone(2 * n + PCT_BOOST, 2 * (PCT_BOOST * MAX_AMOUNT) + PCT_BOOST, 2 * PCT_BOOST);
  }

  /** Before the end of a term that ends on the clock, on a plan that lets `amount` out early for a fine that is an amount itself. */
  ghost predicate EarlyOn(conf: PlanConf, amount: int, created: U32, now: U32) {
    && conf.kind.Term? && conf.allowAdvance
    && now < created + conf.termDays * DAY_SECONDS < TWO_32
    && conf.fineRate < TWO_63 && amount * conf.fineRate <= PCT_BOOST * MAX_AMOUNT
  }

  lemma FineBounds(conf: PlanConf, amount: nat, created: U32, now: U32) returns (rate: nat, fine: nat)
    requires 0 < amount <= MAX_AMOUNT && created <= now && EarlyOn(conf, amount, created, now)
    ensures Nearest(rate, conf.fineRate * (created + conf.termDays * DAY_SECONDS - now), conf.termDays * DAY_SECONDS)
    ensures Nearest(fine, amount * rate, PCT_BOOST)
    ensures Penalty(conf, amount, created, now) == fine
  {
    hide Nearest, Penalty, FineRate, PosRedeem.TotalSeconds, PosRedeem.ProductsFit, PosRedeem.RoundedPenalty;
    OrdinaryFine(conf, amount);
    var total := conf.termDays * DAY_SECONDS;
    var left := total - (now - created);
    PosRedeem.PenaltyIsCut(conf, amount, created, now);
    PosRedeem.UncutFallsWithTime(conf, amount, total, left);
    RateIsNearest(conf, left, total);
    rate := FineRate(conf.fineRate, left, total);
    FineIsNearest(amount, rate);
    fine := PosRedeem.RoundedPenalty(amount, rate);
    assert WrapS64(fine) == fine;
  }

  lemma RateIsNearest(conf: PlanConf, left: nat, total: nat)
    requires 0 < total < TWO_32 && left <= total && conf.fineRate < TWO_63
    ensures Nearest(FineRate(conf.fineRate, left, total), conf.fineRate * left, total)
  {
    hide FineRate, Nearest;
    MulOrder(left, TWO_32, conf.fineRate);
    MulOrder(conf.fineRate, TWO_63, TWO_32);
    assert 10 * conf.fineRate * left == 10 * (conf.fineRate * left);
    PosRedeem.FineRateIsRounded(conf.fineRate, left, total);
    NearestIs(conf.fineRate * left, total);
  }

  lemma FineIsNearest(amount: nat, rate: nat)
    ensures PosRedeem.RoundedPenalty(amount, rate) >= 0 && Nearest(PosRedeem.RoundedPenalty(amount, rate), amount * rate, PCT_BOOST)
  {
    NearestIs(amount * rate, PCT_BOOST);
  }

  lemma EarlyOutcome(s: State, signer: Name, owner: Name, saveId: U64, now: U32, fine: int)
    requires Reached(s, now) && (owner, saveId) in s.accounts
    requires var a := s.accounts[(owner, saveId)]; var conf := s.plans[a.planId].conf;
             && conf.allowAdvance && Premature(conf, a.createdAt, now) && Penalty(conf, a.deposit.amount, a.createdAt, now) == fine
    ensures var a := s.accounts[(owner, saveId)];
            WithdrawSpec(s, signer, owner, saveId, now)
            == if 0 < fine < a.deposit.amount && a.deposit.sym == s.principal.sym && Closable(s, signer, owner, saveId, a.deposit.amount - fine)
               then Some(Closed(s, owner, saveId, fine)) else Abort
  {
    hide Penalty, Premature, MusicSettled, AccountSound;
    var a := s.accounts[(owner, saveId)];
    assert AccountBacked(s, a) && PlanTidy(s.plans[a.planId]) && AccountSound(a, now);
    SettledIff(a, now);
    PosRedeem.LargestAccount(s, (owner, saveId));
    var r := WithdrawSpec(s, signer, owner, saveId, now);
    if r.Some? {
      assert r.value.plans == Closed(s, owner, saveId, fine).plans;
      assert r.value.purse.held == Closed(s, owner, saveId, fine).purse.held;
      assert r.value.purse.sent == Closed(s, owner, saveId, fine).purse.sent;
    }
  }

  /** Redeeming early: the rate is the maximum rate in proportion to the time left, the fine is that many ten-thousandths of the
      deposit, both to the nearest integer. The withdrawal commits if and only if the fine lies strictly between zero and the deposit
      and all else that a withdrawal needs is there; the fine goes to the penalty account and the rest to the owner. */
  lemma EarlyWithdrawCosts(s: State, signer: Name, owner: Name, saveId: U64, now: U32) returns (rate: nat, fine: nat)
    requires Reached(s, now) && (owner, saveId) in s.accounts
    requires var a := s.accounts[(owner, saveId)]; EarlyOn(s.plans[a.planId].conf, a.deposit.amount, a.createdAt, now)
    ensures var a := s.accounts[(owner, saveId)]; var conf := s.plans[a.planId].conf;
            && Nearest(rate, conf.fineRate * (a.createdAt + conf.termDays * DAY_SECONDS - now), conf.termDays * DAY_SECONDS)
            && Nearest(fine, a.deposit.amount * rate, PCT_BOOST)
            && WithdrawSpec(s, signer, owner, saveId, now)
               == if 0 < fine < a.deposit.amount && a.deposit.sym == s.principal.sym && Closable(s, signer, owner, saveId, a.deposit.amount - fine)
                  then Some(Closed(s, owner, saveId, fine)) else Abort
  {
    hide Penalty, Premature, AccountSound, Nearest, WithdrawSpec, Closed, Closable;
    var a := s.accounts[(owner, saveId)];
    assert AccountBacked(s, a) && AccountSound(a, now);
    Since(a, now);
    rate, fine := FineBounds(s.plans[a.planId].conf, a.deposit.amount, a.createdAt, now);
    EndsOnClock(a, s.plans[a.planId].conf, now);
    EarlyOutcome(s, signer, owner, saveId, now, fine);
  }

  lemma Since(a: SaveAccount, now: nat)
    requires AccountSound(a, now)
    ensures a.createdAt <= now
  {
  }

  // ---------- Collecting interest ----------

  /** Apart from the amount `due`: the caller is the owner or the admin, the plan pays by the year in the symbol agreed at deposit, more
      than a day has passed since the last collection, and plan and contract hold what is due. */
  ghost predicate Collectable(s: State, signer: Name, owner: Name, saveId: U64, now: U32, due: int)
    requires (owner, saveId) in s.accounts && s.accounts[(owner, saveId)].planId in s.plans
  {
    var a := s.accounts[(owner, saveId)];
    var plan := s.plans[a.planId];
    && (signer == owner || signer == s.admin)
    && owner != POS_CISUM
    && plan.conf.pool.CisumApr?
    && now > a.lastCollectedAt + DAY_SECONDS
    && plan.conf.interestToken.sym == a.interestTerm.sym
    && 0 < due <= plan.interestAvailable.amount
    && due <= Balance(s.purse, plan.conf.interestToken)
    && plan.interestRedeemed.amount + due <= MAX_AMOUNT
    && -MAX_AMOUNT <= a.interestCollected.amount + due <= MAX_AMOUNT
  }

  ghost function Collected(s: State, owner: Name, saveId: U64, now: U32, due: nat): State
    requires (owner, saveId) in s.accounts && s.accounts[(owner, saveId)].planId in s.plans
    requires due <= Balance(s.purse, s.plans[s.accounts[(owner, saveId)].planId].conf.interestToken)
  {
    var a := s.accounts[(owner, saveId)];
    var plan := s.plans[a.planId];
    var token := plan.conf.interestToken;
    s.(plans := s.plans[a.planId := plan.(
           interestAvailable := Asset(plan.interestAvailable.amount - due, plan.interestAvailable.sym),
           interestRedeemed := Asset(plan.interestRedeemed.amount + due, plan.interestRedeemed.sym))],
       accounts := s.accounts[(owner, saveId) := a.(
           interestCollected := Asset(a.interestCollected.amount + due, a.interestCollected.sym), lastCollectedAt := now)],
       purse := Purse(s.purse.held[token := Balance(s.purse, token) - due], s.purse.sent + [Payment(token, owner, due)]))
  }

  ghost function Due(a: SaveAccount, interest: int): int {
    (if interest <= a.interestTerm.amount then interest else a.interestTerm.amount) - a.interestCollected.amount
  }

  /** Account and plan in the shape that every reachable state gives them. */
  ghost predicate InShape(s: State, a: SaveAccount, now: nat) {
    && a.planId in s.plans
    && a.createdAt <= a.lastCollectedAt <= now
    && a.interestTerm.sym == a.interestCollected.sym
    && PoolOk(s.plans[a.planId]) && PlanTidy(s.plans[a.planId])
  }

  lemma CollectCommits(s: State, signer: Name, owner: Name, saveId: U64, now: U32, interest: int)
    requires (owner, saveId) in s.accounts && InShape(s, s.accounts[(owner, saveId)], now)
    requires var a := s.accounts[(owner, saveId)]; interest == RawInterest(a.rate, a.deposit.amount, now - a.createdAt)
    ensures CollectSpec(s, signer, owner, saveId, now).Some? <==>
              Collectable(s, signer, owner, saveId, now, Due(s.accounts[(owner, saveId)], interest))
  {
    hide RawInterest;
    var a := s.accounts[(owner, saveId)];
    assert WrapU32(now - a.createdAt) == now - a.createdAt && WrapU32(now - a.lastCollectedAt) == now - a.lastCollectedAt;
    hide WrapU32;
  }

  lemma CollectResult(s: State, signer: Name, owner: Name, saveId: U64, now: U32, interest: int)
    requires (owner, saveId) in s.accounts && InShape(s, s.accounts[(owner, saveId)], now)
    requires var a := s.accounts[(owner, saveId)]; interest == RawInterest(a.rate, a.deposit.amount, now - a.createdAt)
    requires Collectable(s, signer, owner, saveId, now, Due(s.accounts[(owner, saveId)], interest))
    ensures var r := CollectSpec(s, signer, owner, saveId, now);
            r.Some? ==> r.value == Collected(s, owner, saveId, now, Due(s.accounts[(owner, saveId)], interest))
  {
    hide RawInterest;
    var a := s.accounts[(owner, saveId)];
    assert WrapU32(now - a.createdAt) == now - a.createdAt;
    hide WrapU32;
    var r := CollectSpec(s, signer, owner, saveId, now);
    if r.Some? {
      var t := Collected(s, owner, saveId, now, Due(a, interest));
      assert r.value.plans[a.planId] == t.plans[a.planId];
      assert r.value.purse == t.purse;
    }
  }

  /** What is due is the interest for the time since the deposit, in two roundings down, or the interest of the whole term if that is
      less, without what was collected before. It is paid to the owner if and only if it is positive, a day has passed since the last
      collection and all else that a collection needs is there. */
  lemma CollectTerms(s: State, signer: Name, owner: Name, saveId: U64, now: U32) returns (share: nat, interest: int)
    requires Reached(s, now) && (owner, saveId) in s.accounts
    ensures var a := s.accounts[(owner, saveId)];
            && IsFloor(share, a.rate * 100 * (now - a.createdAt), YEAR_SECONDS)
            && CutFloor(interest, share * a.deposit.amount, 1_000_000)
            && CollectSpec(s, signer, owner, saveId, now)
               == if Collectable(s, signer, owner, saveId, now, Due(a, interest)) then Some(Collected(s, owner, saveId, now, Due(a, interest))) else Abort
  {
    hide RawInterest, IsFloor, CutFloor, OpenedFor, Accrued, CollectSpec, Due, Collected;
    var a := s.accounts[(owner, saveId)];
    assert AccountBacked(s, a) && AccountSound(a, now) && PlanTidy(s.plans[a.planId]) && PoolOk(s.plans[a.planId]);
    share := InterestFloor(a.rate, a.deposit.amount, now - a.createdAt);
    interest := RawInterest(a.rate, a.deposit.amount, now - a.createdAt);
    CollectCommits(s, signer, owner, saveId, now, interest);
    if Collectable(s, signer, owner, saveId, now, Due(a, interest)) {
      CollectResult(s, signer, owner, saveId, now, interest);
    }
  }

  // ---------- MUSIC back, and interest in ----------

  /** MUSIC sent back for a deposit counts towards its reward, never beyond it, and changes nothing else. */
  lemma ReturnTerms(s: State, from: Name, amount: int, saveId: U64, now: U32)
    requires Reached(s, now) && from != POS_CISUM && 0 < amount <= MAX_AMOUNT
    requires s.principal.bank == SING_TOKEN && s.principal.sym != MUSIC
    ensures var k := (from, saveId); var c := Credited(s, SING_TOKEN, Asset(amount, MUSIC));
            TransferInSpec(s, from, SING_TOKEN, Asset(amount, MUSIC), ReturnFor(saveId), now)
            == if k in s.accounts && s.accounts[k].musicReturned.amount + amount <= s.accounts[k].musicReward.amount
                  && s.accounts[k].musicReturned.amount + amount <= MAX_AMOUNT
               then Some(c.(accounts := s.accounts[k := s.accounts[k].(musicReturned := Asset(s.accounts[k].musicReturned.amount + amount, MUSIC))]))
               else Abort
  {
    hide Accrued, OpenedFor, Tidy;
    var k := (from, saveId);
    if k in s.accounts {
      assert AccountBacked(s, s.accounts[k]) && AccountSound(s.accounts[k], now);
    }
  }

  /** Interest sent in for a plan is taken in the plan's own interest token only, from the two banks that are listened to, and adds to
      its pool alone. */
  lemma RefuelTerms(s: State, from: Name, bank: Name, quant: Asset, planId: U64, now: U32)
    requires Ledger(s) && Tidy(s) && from != POS_CISUM && 0 < quant.amount <= MAX_AMOUNT
    requires (bank == SING_TOKEN && s.principal == Token(quant.sym, bank)) || (bank == CISUM_TOKEN && quant.sym == CISUM)
    ensures TransferInSpec(s, from, bank, quant, RefuelPlan(planId), now)
            == if planId in s.plans && s.plans[planId].conf.interestToken == Token(quant.sym, bank)
                  && s.plans[planId].interestAvailable.amount + quant.amount <= MAX_AMOUNT
               then var plan := s.plans[planId];
                    Some(Credited(s, bank, quant).(plans := s.plans[planId := plan.(interestAvailable := Asset(plan.interestAvailable.amount + quant.amount, quant.sym))]))
               else Abort
  {
    if planId in s.plans {
      assert PoolOk(s.plans[planId]) && PlanTidy(s.plans[planId]);
    }
  }

  /** `setplan` writes settings and never amounts: the totals of an existing plan stay, and so does the symbol of a pool that was used. */
  lemma SetPlanTerms(s: State, signer: Name, planId: U64, conf: PlanConf, now: U32)
    requires Ledger(s) && Tidy(s)
    ensures var r := SetPlanSpec(s, signer, planId, conf, now);
            && (r.Some? <==>
                  && signer == s.admin && (conf.kind.Term? || conf.kind.Demand?) && (conf.pool.CisumApr? || conf.pool.NestPont?)
                  && (conf.kind.Term? ==> conf.termDays > 0) && conf.effectiveFrom <= conf.effectiveTo && conf.interestToken.bank != 0
                  && (planId in s.plans ==>
                        && s.plans[planId].depositAvailable.sym == s.principal.sym
                        && (s.plans[planId].interestAvailable.amount + s.plans[planId].interestRedeemed.amount > 0 ==>
                              s.plans[planId].interestAvailable.sym == conf.interestToken.sym)))
            && (r.Some? ==>
                  && r.value == s.(plans := r.value.plans) && r.value.plans.Keys == s.plans.Keys + {planId}
                  && (forall p | p in s.plans && p != planId :: r.value.plans[p] == s.plans[p])
                  && var q := r.value.plans[planId];
                  && q.conf == conf
                  && (if planId in s.plans then
                        && q.depositAvailable == s.plans[planId].depositAvailable && q.depositRedeemed == s.plans[planId].depositRedeemed
                        && q.interestAvailable == Asset(s.plans[planId].interestAvailable.amount, conf.interestToken.sym)
                        && q.interestRedeemed == Asset(s.plans[planId].interestRedeemed.amount, conf.interestToken.sym)
                        && q.createdAt == s.plans[planId].createdAt
                      else q == Plan(conf, Asset(0, s.principal.sym), Asset(0, s.principal.sym),
                                     Asset(0, conf.interestToken.sym), Asset(0, conf.interestToken.sym), now)))
  {
    if planId in s.plans {
      assert PoolOk(s.plans[planId]) && PlanTidy(s.plans[planId]);
    }
  }

  // ---------- Who acts, and what reaches the treasury ----------

  /** What the signer of a committed action must be. */
  ghost predicate SignedRight(s: State, act: Action) {
    match act
    case Init(signer, principal, minDeposit) => signer == POS_CISUM && minDeposit.sym == principal.sym && minDeposit.amount >= 0
    case SetPlan(signer, _, _) => signer == POS_CISUM
    case DelPlan(signer, planId) => signer == POS_CISUM && planId in s.plans
    case Withdraw(signer, owner, _) => signer == owner || signer == POS_CISUM
    case CollectInt(signer, owner, _) => signer == owner || signer == POS_CISUM
    case TransferIn(from, _, _, _) => from != POS_CISUM
  }

  /** MUSIC that a step adds to the treasury. */
  ghost function ToTreasury(s: State, act: Action, now: U32): int {
    if act.TransferIn? && act.bank == SING_TOKEN && act.memo.RefuelTreasury? && Step(s, act, now).Some? then act.quant.amount else 0
  }

  ghost function ToTreasuryOver(s: State, trace: seq<Event>): int {
    if trace == [] then 0
    else
      var init, last := trace[..|trace| - 1], trace[|trace| - 1];
      ToTreasuryOver(s, init) + ToTreasury(Run(s, init), last.act, last.now)
  }

  /** The treasury holds `total` MUSIC, or has never been filled. */
  ghost predicate TreasuryIs(s: State, total: int) {
    s.treasury.amount == total && (s.treasury.sym == MUSIC || (total == 0 && s.treasury.sym.code == ""))
  }

  lemma DepositLeaves(s: State, from: Name, quant: Asset, planId: U64, now: U32)
    ensures Deposit(s, from, quant, planId, now).Some? ==>
              var t := Deposit(s, from, quant, planId, now).value; t.admin == s.admin && t.treasury == s.treasury
  {
    hide Opened, PayPoints, Pay;
  }

  lemma TransferInLeaves(s: State, act: Action, now: U32, total: int)
    requires act.TransferIn? && TreasuryIs(s, total) && Step(s, act, now).Some?
    ensures var t := Step(s, act, now).value; t.admin == s.admin && TreasuryIs(t, total + ToTreasury(s, act, now))
  {
    hide Deposit;
    var c := s.(purse := Credit(s.purse, Token(act.quant.sym, act.bank), act.quant.amount));
    match act.memo
    case Empty => DepositLeaves(c, act.from, act.quant, 1, now);
    case DepositTo(planId) => DepositLeaves(c, act.from, act.quant, planId, now);
    case _ =>
  }

  lemma StepLeaves(s: State, act: Action, now: U32, total: int)
    requires s.admin == POS_CISUM && TreasuryIs(s, total)
    ensures var t := After(Step(s, act, now), s); t.admin == POS_CISUM && TreasuryIs(t, total + ToTreasury(s, act, now))
    ensures Step(s, act, now).Some? ==> SignedRight(s, act)
  {
    hide TransferInSpec, Penalty, Premature, Pay, TermInterest, MusicSettled;
    if act.TransferIn? && Step(s, act, now).Some? {
      TransferInLeaves(s, act, now, total);
      NotFromItself(s, act, now);
    }
  }

  lemma NotFromItself(s: State, act: Action, now: U32)
    requires act.TransferIn? && Step(s, act, now).Some?
    ensures act.from != POS_CISUM
  {
    hide SingNotice, CisumNotice;
  }

  /** Over every run from the start, `delplan` included: plans are configured and deleted by pos.cisum itself only, deposits are touched by
      their owners or pos.cisum only, and the treasury is exactly the MUSIC sent to it. */
  lemma {:induction false} OnlySignersAct(p: Token, minDeposit: Asset, trace: seq<Event>, act: Action, now: U32)
    ensures var s := Run(Fresh(p, minDeposit), trace);
            && s.admin == POS_CISUM && TreasuryIs(s, ToTreasuryOver(Fresh(p, minDeposit), trace))
            && (Step(s, act, now).Some? ==> SignedRight(s, act))
  {
    hide Step, ToTreasury, SignedRight;
    if trace != [] {
      var init, last := trace[..|trace| - 1], trace[|trace| - 1];
      OnlySignersAct(p, minDeposit, init, last.act, last.now);
      StepLeaves(Run(Fresh(p, minDeposit), init), last.act, last.now, ToTreasuryOver(Fresh(p, minDeposit), init));
    }
    StepLeaves(Run(Fresh(p, minDeposit), trace), act, now, ToTreasuryOver(Fresh(p, minDeposit), trace));
  }
}
