/** Interest collection over runs: what an account has collected is a function of the time of its last
    collection, however many collections came before and whatever else happened in between. */
module PosCollect {
  import opened Eosio
  import opened SafeMath
  import opened PosModel
  import opened PosLedger
  import opened PosInterest

  /** `days` is the term the account was opened with. */
  ghost predicate OpenedFor(a: SaveAccount, days: U64) {
    && TermSeconds(days) > 0
    && a.termEndedAt == WrapU32(a.createdAt + TermSeconds(days))
    && a.interestTerm.amount == RawInterest(a.rate, a.deposit.amount, TermSeconds(days))
  }

  /** Interest due by `now` in all, capped by the amount fixed at deposit. */
  ghost function Accrued(a: SaveAccount, now: U32): int
    requires a.createdAt <= now
  {
    if now == a.createdAt then 0
    else
      var i := RawInterest(a.rate, a.deposit.amount, now - a.createdAt);
      if i > a.interestTerm.amount then a.interestTerm.amount else i
  }

  ghost predicate AccountSound(a: SaveAccount, now: nat) {
    && a.rate <= MAX_RATE
    && 0 < a.deposit.amount <= MAX_AMOUNT
    && a.createdAt <= a.lastCollectedAt <= now
    && (a.interestTerm.amount == 0 || exists days: U64 :: OpenedFor(a, days))
    && a.interestTerm.sym == a.interestCollected.sym
    && a.interestCollected.amount == Accrued(a, a.lastCollectedAt)
    && a.musicReward.sym == MUSIC && a.musicReturned.sym == MUSIC
    && 0 <= a.musicReturned.amount <= a.musicReward.amount
  }

  ghost predicate Sound(s: State, now: nat) {
    forall k | k in s.accounts :: AccountSound(s.accounts[k], now)
  }

  lemma OpenedIsSound(conf: PlanConf, planId: U64, quant: Asset, now: U32)
    requires Opened(conf, planId, quant, now).Some? && 0 < quant.amount <= MAX_AMOUNT
    ensures AccountSound(Opened(conf, planId, quant, now).value, now)
  {
    hide RawInterest, InterestRate, WrapU32, TermSeconds;
    RateMonotone(conf.scheme, quant, quant);
    var a := Opened(conf, planId, quant, now).value;
    MusicRewardShape(quant, conf.musicRate);
    if conf.pool.CisumApr? {
      assert OpenedFor(a, conf.termDays);
    }
  }

  lemma MusicRewardShape(quant: Asset, rate: U64)
    requires MusicReward(quant, rate).Some?
    ensures MusicReward(quant, rate).value.sym == MUSIC && MusicReward(quant, rate).value.amount >= 0
  {
    hide WrapS128, WrapS64, TruncDiv, Pow10;
  }

  /** An account brought up to date stays sound. */
  lemma UpToDate(a: SaveAccount, now: U32, earlier: nat)
    requires AccountSound(a, earlier) && earlier <= now
    ensures AccountSound(a.(interestCollected := Asset(Accrued(a, now), a.interestTerm.sym), lastCollectedAt := now), now)
  {
    hide RawInterest, TermSeconds, WrapU32;
    var b := a.(interestCollected := Asset(Accrued(a, now), a.interestTerm.sym), lastCollectedAt := now);
    if days: U64 :| OpenedFor(a, days) {
      assert OpenedFor(b, days);
    }
  }

  /** After a committed `collectint` at `now`, exactly min(I(now - created), term amount) has been collected. */
  lemma CollectReachesAccrued(s: State, signer: Name, owner: Name, saveId: U64, now: U32, earlier: nat)
    requires Sound(s, earlier) && earlier <= now
    ensures CollectSpec(s, signer, owner, saveId, now).Some? ==>
              var k := (owner, saveId); var t := CollectSpec(s, signer, owner, saveId, now).value;
              && k in s.accounts
              && s.accounts[k].createdAt < now
              && (var a := s.accounts[k];
                  t.accounts == s.accounts[k := a.(interestCollected := Asset(Accrued(a, now), a.interestTerm.sym), lastCollectedAt := now)])
              && AccountSound(t.accounts[k], now)
  {
    hide RawInterest, Pay, OpenedFor, InRange;
    if CollectSpec(s, signer, owner, saveId, now).Some? {
      var a := s.accounts[(owner, saveId)];
      assert AccountSound(a, earlier);
      assert WrapU32(now - a.createdAt) == now - a.createdAt;
      UpToDate(a, now, earlier);
    }
  }

  lemma TransferInKeepsSound(s: State, from: Name, bank: Name, quant: Asset, memo: Memo, now: U32, earlier: nat)
    requires Ledger(s) && Sound(s, earlier) && earlier <= now
    ensures Sound(After(TransferInSpec(s, from, bank, quant, memo, now), s), now)
  {
    hide Deposit, Refuel, Opened, Ledger, RawInterest;
    var r := TransferInSpec(s, from, bank, quant, memo, now);
    if r.Some? {
      var c := Credited(s, bank, quant);
      CreditKeepsLedger(s, bank, quant);
      match memo
      case Empty => if bank == SING_TOKEN { DepositKeepsSound(c, from, quant, 1, now, earlier); }
      case DepositTo(planId) => if bank == SING_TOKEN { DepositKeepsSound(c, from, quant, planId, now, earlier); }
      case RefuelPlan(planId) => if bank in {SING_TOKEN, CISUM_TOKEN} { RefuelEffect(c, planId, quant, bank); }
      case ReturnFor(saveId) =>
        if bank == SING_TOKEN { ReturnKeepsSound(c, from, quant, saveId, earlier); }
      case _ =>
    }
  }

  lemma DepositKeepsSound(s: State, from: Name, quant: Asset, planId: U64, now: U32, earlier: nat)
    requires Ledger(s) && Sound(s, earlier) && earlier <= now && 0 < quant.amount <= MAX_AMOUNT
    ensures Sound(After(Deposit(s, from, quant, planId, now), s), now)
  {
    hide Deposit, Opened, Ledger, RawInterest;
    if Deposit(s, from, quant, planId, now).Some? {
      var a, _, _ := DepositEffect(s, from, quant, planId, now);
      OpenedIsSound(s.plans[planId].conf, planId, quant, now);
    }
  }

  lemma ReturnKeepsSound(s: State, from: Name, quant: Asset, saveId: U64, now: nat)
    requires Sound(s, now) && quant.amount > 0
    ensures Sound(After(ReturnMusic(s, from, quant, saveId), s), now)
  {
    hide RawInterest;
    var r := ReturnMusic(s, from, quant, saveId);
    if r.Some? {
      var a, b := s.accounts[(from, saveId)], r.value.accounts[(from, saveId)];
      if days: U64 :| OpenedFor(a, days) {
        assert OpenedFor(b, days);
      }
      assert AccountSound(b, now);
    }
  }

  lemma StepKeepsSound(s: State, act: Action, now: U32, earlier: nat)
    requires Ledger(s) && Sound(s, earlier) && earlier <= now
    ensures Sound(After(Step(s, act, now), s), now)
  {
    hide WithdrawSpec, CollectSpec, TransferInSpec, Ledger, RawInterest;
    if Step(s, act, now).Some? {
      match act
      case Init(_, _, _) =>
      case SetPlan(_, _, _) =>
      case DelPlan(_, _) =>
      case Withdraw(signer, owner, saveId) => WithdrawEffect(s, signer, owner, saveId, now);
      case CollectInt(signer, owner, saveId) => CollectReachesAccrued(s, signer, owner, saveId, now, earlier);
      case TransferIn(from, bank, quant, memo) => TransferInKeepsSound(s, from, bank, quant, memo, now, earlier);
    }
  }

  ghost function LastTime(trace: seq<Event>): nat {
    if trace == [] then 0 else trace[|trace| - 1].now
  }

  /** In every run without `delplan`, each account has collected exactly what had accrued at its last collection:
      the path of collections leaves no trace. MUSIC returned never exceeds MUSIC rewarded. */
  lemma {:induction false} RunKeepsSound(s: State, trace: seq<Event>)
    requires Ledger(s) && Sound(s, 0) && Chronological(trace)
    requires forall e | e in trace :: !e.act.DelPlan?
    ensures Sound(Run(s, trace), LastTime(trace))
  {
    if trace != [] {
      var init, last := trace[..|trace| - 1], trace[|trace| - 1];
      RunKeepsSound(s, init);
      RunKeepsLedger(s, init);
      StepKeepsSound(Run(s, init), last.act, last.now, LastTime(init));
    }
  }

  lemma FreshIsSound(p: Token, minDeposit: Asset)
    ensures Ledger(Fresh(p, minDeposit)) && Sound(Fresh(p, minDeposit), 0)
  {
  }

  /** From the first transaction on: the ledger balances and every account has collected what had accrued. */
  lemma ReachableIsSound(p: Token, minDeposit: Asset, trace: seq<Event>)
    requires Chronological(trace) && forall e | e in trace :: !e.act.DelPlan?
    ensures Ledger(Run(Fresh(p, minDeposit), trace)) && Sound(Run(Fresh(p, minDeposit), trace), LastTime(trace))
  {
    FreshIsSound(p, minDeposit);
    RunKeepsLedger(Fresh(p, minDeposit), trace);
    RunKeepsSound(Fresh(p, minDeposit), trace);
  }

  /** Same certificate, last collected at the same time: only the amounts collected and returned may differ. */
  ghost predicate SameTerms(a: SaveAccount, b: SaveAccount) {
    a.(interestCollected := b.interestCollected, musicReturned := b.musicReturned) == b
  }

  lemma SameTermsSameCollected(a: SaveAccount, b: SaveAccount, n: nat, m: nat)
    requires AccountSound(a, n) && AccountSound(b, m) && SameTerms(a, b)
    ensures a.interestCollected == b.interestCollected
  {
    hide RawInterest, OpenedFor;
  }

  /** Two accounts on the same terms, in any two runs, that last collected at the same time have collected the same. */
  lemma CollectionIsPathIndependent(s: State, one: seq<Event>, two: seq<Event>, k: (Name, U64), l: (Name, U64))
    requires Ledger(s) && Sound(s, 0) && Chronological(one) && Chronological(two)
    requires (forall e | e in one :: !e.act.DelPlan?) && (forall e | e in two :: !e.act.DelPlan?)
    requires k in Run(s, one).accounts && l in Run(s, two).accounts
    requires SameTerms(Run(s, one).accounts[k], Run(s, two).accounts[l])
    ensures Run(s, one).accounts[k].interestCollected == Run(s, two).accounts[l].interestCollected
  {
    hide Run, AccountSound, SameTerms, Ledger, Chronological;
    RunKeepsSound(s, one);
    RunKeepsSound(s, two);
    SameTermsSameCollected(Run(s, one).accounts[k], Run(s, two).accounts[l], LastTime(one), LastTime(two));
  }

  /** The interest by `at` before it is cut to 64 bits. */
  ghost function ExactAt(a: SaveAccount, at: nat): nat
    requires a.createdAt <= at && a.deposit.amount >= 0
  {
    ExactInterest(a.rate, a.deposit.amount, at - a.createdAt)
  }

  /** One second adds little: at most the deposit's part in ten million, rounded. */
  lemma SecondBySecond(rate: nat, amount: nat, duration: nat)
    requires rate <= MAX_RATE && amount <= MAX_AMOUNT
    ensures ExactInterest(rate, amount, duration + 1) <= ExactInterest(rate, amount, duration) + TWO_63 / 1024
  {
    var n := rate * 100 * duration;
    assert rate * 100 * (duration + 1) == n + rate * 100;
    QuotientBounds(n, YEAR_SECONDS);
    QuotientMonotone(n + rate * 100, (n / YEAR_SECONDS + 2) * YEAR_SECONDS, YEAR_SECONDS);
    QuotientIs((n / YEAR_SECONDS + 2) * YEAR_SECONDS, YEAR_SECONDS, n / YEAR_SECONDS + 2);
    hide Share;
    ShareMore(Share(rate, duration), Share(rate, duration + 1), amount);
  }

  lemma ShareMore(low: nat, high: nat, amount: nat)
    requires high <= low + 2 && amount <= MAX_AMOUNT
    ensures high * amount / (PCT_BOOST * 100) <= low * amount / (PCT_BOOST * 100) + TWO_63 / 1024
  {
    var d := PCT_BOOST * 100;
    MulOrder(high, low + 2, amount);
    assert (low + 2) * amount == low * amount + 2 * amount;
    QuotientBounds(low * amount, d);
    QuotientBounds(high * amount, d);
  }

  /** If the interest ever outgrows 64 bits, it comes out negative the moment it does. */
  lemma {:induction false} FirstNegative(a: SaveAccount, late: U32) returns (at: U32)
    requires a.rate <= MAX_RATE && 0 < a.deposit.amount <= MAX_AMOUNT && a.createdAt <= late && ExactAt(a, late) >= TWO_63
    ensures a.createdAt < at <= late && Accrued(a, at) < 0
    decreases late
  {
    hide RawInterest, ExactInterest;
    NothingAtStart(a.rate, a.deposit.amount);
    assert late > a.createdAt;
    if ExactAt(a, late - 1) >= TWO_63 {
      at := FirstNegative(a, late - 1);
    } else {
      at := late;
      SecondBySecond(a.rate, a.deposit.amount, late - 1 - a.createdAt);
      RawIsExactWrapped(a.rate, a.deposit.amount, late - a.createdAt);
    }
  }

  lemma NothingAtStart(rate: nat, amount: nat)
    ensures ExactInterest(rate, amount, 0) == 0
  {
  }

  /** For every account: what may be collected never turns negative up to `late` if and only if no time has passed, or the term amount
      on record is not negative and the exact interest still fits 64 bits then. It then grows with time, stays within the term amount,
      and is exactly the interest of the deposit's term from the end of that term on. */
  lemma AccruedGrowsToTermIff(a: SaveAccount, late: U32)
    requires a.rate <= MAX_RATE && 0 < a.deposit.amount <= MAX_AMOUNT && a.createdAt <= late
    ensures (forall t: U32 | a.createdAt <= t <= late :: 0 <= Accrued(a, t))
            <==> late == a.createdAt || (a.interestTerm.amount >= 0 && Fits(a.rate, a.deposit.amount, late - a.createdAt))
    ensures a.interestTerm.amount >= 0 && Fits(a.rate, a.deposit.amount, late - a.createdAt) ==>
              forall s: U32, t: U32 | a.createdAt <= s <= t <= late ::
                && 0 <= Accrued(a, s) <= Accrued(a, t) <= a.interestTerm.amount
                && (forall days: U64 | OpenedFor(a, days) && t - a.createdAt >= TermSeconds(days) ::
                      Accrued(a, t) == a.interestTerm.amount == ExactInterest(a.rate, a.deposit.amount, TermSeconds(days)))
  {
    hide RawInterest, ExactInterest, OpenedFor;
    if a.interestTerm.amount >= 0 && Fits(a.rate, a.deposit.amount, late - a.createdAt) {
      forall s: U32, t: U32 | a.createdAt <= s <= t <= late
        ensures 0 <= Accrued(a, s) <= Accrued(a, t) <= a.interestTerm.amount
        ensures forall days: U64 | OpenedFor(a, days) && t - a.createdAt >= TermSeconds(days) ::
                  Accrued(a, t) == a.interestTerm.amount == ExactInterest(a.rate, a.deposit.amount, TermSeconds(days))
      {
        InterestMonotone(a.rate, a.deposit.amount, t - a.createdAt, late - a.createdAt);
        AccruedWhileItFits(a, s, t);
        forall days: U64 | OpenedFor(a, days) && t - a.createdAt >= TermSeconds(days)
          ensures Accrued(a, t) == a.interestTerm.amount == ExactInterest(a.rate, a.deposit.amount, TermSeconds(days))
        {
          TermReached(a, days, t);
        }
      }
      forall t: U32 | a.createdAt <= t <= late
        ensures 0 <= Accrued(a, t)
      {
        assert Accrued(a, t) <= Accrued(a, late);
      }
    } else if late > a.createdAt {
      if a.interestTerm.amount < 0 {
        assert Accrued(a, late) < 0;
      } else {
        var at := FirstNegative(a, late);
      }
    }
  }

  lemma AccruedWhileItFits(a: SaveAccount, early: U32, late: U32)
    requires a.rate <= MAX_RATE && 0 < a.deposit.amount <= MAX_AMOUNT && a.interestTerm.amount >= 0
    requires a.createdAt <= early <= late && Fits(a.rate, a.deposit.amount, late - a.createdAt)
    ensures 0 <= Accrued(a, early) <= Accrued(a, late) <= a.interestTerm.amount
  {
    hide RawInterest, ExactInterest;
    var amount := a.deposit.amount;
    var e, l := early - a.createdAt, late - a.createdAt;
    InterestMonotone(a.rate, amount, e, l);
    RawIsExact(a.rate, amount, e);
    RawIsExact(a.rate, amount, l);
  }

  lemma TermReached(a: SaveAccount, days: U64, at: U32)
    requires a.rate <= MAX_RATE && 0 < a.deposit.amount <= MAX_AMOUNT && OpenedFor(a, days)
    requires a.createdAt + TermSeconds(days) <= at && Fits(a.rate, a.deposit.amount, at - a.createdAt)
    ensures Accrued(a, at) == a.interestTerm.amount == ExactInterest(a.rate, a.deposit.amount, TermSeconds(days))
  {
    hide RawInterest, ExactInterest;
    var amount := a.deposit.amount;
    var d, l := TermSeconds(days), at - a.createdAt;
    InterestMonotone(a.rate, amount, d, l);
    RawIsExact(a.rate, amount, d);
    RawIsExact(a.rate, amount, l);
  }

  /** The largest deposit at 12% for a one-year term: the term interest fits, but after 17 years what has accrued is negative. */
  lemma SeventeenYears(a: SaveAccount)
    requires a.rate == MAX_RATE && a.deposit.amount == MAX_AMOUNT && a.createdAt + 17 * YEAR_SECONDS < TWO_32 && OpenedFor(a, 365)
    ensures a.interestTerm.amount == 553_402_322_211_286_548 && Accrued(a, a.createdAt + 17 * YEAR_SECONDS) < 0
  {
    hide RawInterest;
    RawIsExactWrapped(MAX_RATE, MAX_AMOUNT, YEAR_SECONDS);
    RawIsExactWrapped(MAX_RATE, MAX_AMOUNT, 17 * YEAR_SECONDS);
    assert Share(MAX_RATE, YEAR_SECONDS) == 120_000 && Share(MAX_RATE, 17 * YEAR_SECONDS) == 2_040_000;
  }

  /** Its owner, having collected nothing before, can collect nothing then. */
  lemma WaitingSeventeenYears(s: State, signer: Name, owner: Name, saveId: U64)
    requires (owner, saveId) in s.accounts
    requires var a := s.accounts[(owner, saveId)];
             && a.rate == MAX_RATE && a.deposit.amount == MAX_AMOUNT && a.createdAt + 17 * YEAR_SECONDS < TWO_32
             && OpenedFor(a, 365) && a.interestCollected.amount == 0
    ensures CollectSpec(s, signer, owner, saveId, s.accounts[(owner, saveId)].createdAt + 17 * YEAR_SECONDS).Abort?
  {
    hide RawInterest, Pay, OpenedFor, InRange;
    SeventeenYears(s.accounts[(owner, saveId)]);
    assert WrapU32(17 * YEAR_SECONDS) == 17 * YEAR_SECONDS;
  }

  /** Once the term amount has been collected, no further `collectint` succeeds. */
  lemma NothingAfterTerm(s: State, signer: Name, owner: Name, saveId: U64, now: U32, earlier: nat)
    requires Sound(s, earlier) && earlier <= now
    ensures (owner, saveId) in s.accounts && s.accounts[(owner, saveId)].interestCollected.amount >= s.accounts[(owner, saveId)].interestTerm.amount
            ==> CollectSpec(s, signer, owner, saveId, now).Abort?
  {
    hide RawInterest, Pay, Accrued;
  }

  /** An interest-bearing plan whose term is zero days accepts no deposit at all. */
  lemma ZeroTermTakesNoDeposit(s: State, from: Name, quant: Asset, planId: U64, now: U32)
    requires planId in s.plans && s.plans[planId].conf.pool.CisumApr? && s.plans[planId].conf.termDays == 0
    ensures Deposit(s, from, quant, planId, now).Abort?
  {
    hide InterestRate, MusicReward, Pay, PayPoints;
  }
}
