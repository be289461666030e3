/** A run in which interest is left uncollected for so long that it can no longer be collected. */
module PosPatience {
  import opened Eosio
  import opened PosModel
  import opened PosLedger
  import opened PosInterest
  import opened PosCollect
  import PosSolvency

  const SING := Symbol("SING", 8)

  const BANK := Token(SING, SING_TOKEN)

  /** A one-year plan that pays up to 12%. */
  function LongPlan(): PlanConf {
    PlanConf(Term, CisumApr, Lad3, 365, false, 0, 0, TWO_32 - 1, BANK, 0)
  }

  /** What the largest deposit earns on it. */
  const TERM_INTEREST := 553_402_322_211_286_548

  function Holder(created: U32): SaveAccount {
    SaveAccount(1, MAX_RATE, Asset(MAX_AMOUNT, SING), Asset(TERM_INTEREST, SING), Asset(0, SING), Asset(0, MUSIC), Asset(0, MUSIC),
                created, WrapU32(created + YEAR_SECONDS), created)
  }

  /** The state once the plan is set, the deposit is in and its interest is provided for. */
  function Funded(created: U32): State {
    PosSolvency.WithPlan(BANK, Asset(0, SING), LongPlan()).(
      lastSaveId := 1,
      plans := map[1 := Plan(LongPlan(), Asset(MAX_AMOUNT, SING), Asset(0, SING), Asset(TERM_INTEREST, SING), Asset(0, SING), 0)],
      accounts := map[(7, 1) := Holder(created)],
      purse := Purse(map[BANK := MAX_AMOUNT + TERM_INTEREST], []))
  }

  lemma YearlyInterest()
    ensures RawInterest(MAX_RATE, MAX_AMOUNT, YEAR_SECONDS) == TERM_INTEREST
    ensures RawInterest(MAX_RATE, MAX_AMOUNT, 17 * YEAR_SECONDS) < 0
  {
    hide RawInterest;
    RawIsExactWrapped(MAX_RATE, MAX_AMOUNT, YEAR_SECONDS);
    RawIsExactWrapped(MAX_RATE, MAX_AMOUNT, 17 * YEAR_SECONDS);
    assert Share(MAX_RATE, YEAR_SECONDS) == 120_000 && Share(MAX_RATE, 17 * YEAR_SECONDS) == 2_040_000;
  }

  lemma PlanIsSet()
    ensures SetPlanSpec(Fresh(BANK, Asset(0, SING)), POS_CISUM, 1, LongPlan(), 0) == Some(PosSolvency.WithPlan(BANK, Asset(0, SING), LongPlan()))
  {
  }

  lemma TopRate()
    ensures InterestRate(Lad3, Asset(MAX_AMOUNT, SING)) == Some(MAX_RATE) && TermSeconds(365) == YEAR_SECONDS
    ensures MusicReward(Asset(MAX_AMOUNT, SING), 0) == Some(Asset(0, MUSIC))
  {
    assert Pow10(8) == 100_000_000;
  }

  lemma DepositOpens(created: U32)
    ensures TransferInSpec(PosSolvency.WithPlan(BANK, Asset(0, SING), LongPlan()), 7, SING_TOKEN, Asset(MAX_AMOUNT, SING), Empty, created)
            == Some(Funded(created).(plans := map[1 := Funded(created).plans[1].(interestAvailable := Asset(0, SING))], purse := Purse(map[BANK := MAX_AMOUNT], [])))
  {
    hide RawInterest, MusicReward, InterestRate, TermSeconds, WrapU32;
    TopRate();
    YearlyInterest();
    var s := PosSolvency.WithPlan(BANK, Asset(0, SING), LongPlan());
    var none: map<Token, nat> := map[];
    assert none[BANK := MAX_AMOUNT] == map[BANK := MAX_AMOUNT];
    var plan := s.plans[1].(depositAvailable := Asset(MAX_AMOUNT, SING));
    assert s.plans[1 := plan] == map[1 := plan];
    var nobody: map<(Name, U64), SaveAccount> := map[];
    assert nobody[(7, 1) := Holder(created)] == map[(7, 1) := Holder(created)];
  }

  lemma InterestIsProvided(created: U32)
    ensures var s := Funded(created).(plans := map[1 := Funded(created).plans[1].(interestAvailable := Asset(0, SING))], purse := Purse(map[BANK := MAX_AMOUNT], []));
            TransferInSpec(s, 8, SING_TOKEN, Asset(TERM_INTEREST, SING), RefuelPlan(1), created) == Some(Funded(created))
  {
    var s := Funded(created).(plans := map[1 := Funded(created).plans[1].(interestAvailable := Asset(0, SING))], purse := Purse(map[BANK := MAX_AMOUNT], []));
    assert s.purse.held[BANK := MAX_AMOUNT + TERM_INTEREST] == Funded(created).purse.held;
    assert s.plans[1 := Funded(created).plans[1]] == Funded(created).plans;
  }

  /** After one year the whole term interest is collected; after seventeen, nothing. */
  lemma CollectedInTime(created: U32)
    requires created + 17 * YEAR_SECONDS < TWO_32
    ensures var r := CollectSpec(Funded(created), 7, 7, 1, created + YEAR_SECONDS);
            r.Some? && (7, 1) in r.value.accounts && r.value.accounts[(7, 1)].interestCollected.amount == TERM_INTEREST
    ensures CollectSpec(Funded(created), 7, 7, 1, created + 17 * YEAR_SECONDS).Abort?
  {
    hide RawInterest;
    YearlyInterest();
    assert WrapU32(YEAR_SECONDS) == YEAR_SECONDS && WrapU32(17 * YEAR_SECONDS) == 17 * YEAR_SECONDS;
  }

  /** A run from a fresh contract, for every time of deposit whose seventeen years end on the 32-bit clock: the owner who collects
      after one year gets the term interest, and the owner who waits for seventeen gets nothing. */
  lemma SeventeenYearsTooLate(created: U32)
    requires created + 17 * YEAR_SECONDS < TWO_32
    ensures var s := Run(Fresh(BANK, Asset(0, SING)),
                         [Event(SetPlan(POS_CISUM, 1, LongPlan()), 0),
                          Event(TransferIn(7, SING_TOKEN, Asset(MAX_AMOUNT, SING), Empty), created),
                          Event(TransferIn(8, SING_TOKEN, Asset(TERM_INTEREST, SING), RefuelPlan(1)), created)]);
            && (var early := CollectSpec(s, 7, 7, 1, created + YEAR_SECONDS);
                early.Some? && (7, 1) in early.value.accounts && early.value.accounts[(7, 1)].interestCollected.amount == TERM_INTEREST)
            && CollectSpec(s, 7, 7, 1, created + 17 * YEAR_SECONDS).Abort?
  {
    hide Run, CollectSpec, TransferInSpec, SetPlanSpec, PosSolvency.WithPlan, Funded;
    PlanIsSet();
    DepositOpens(created);
    InterestIsProvided(created);
    PosSolvency.ThreeSteps(Fresh(BANK, Asset(0, SING)), Event(SetPlan(POS_CISUM, 1, LongPlan()), 0),
                           Event(TransferIn(7, SING_TOKEN, Asset(MAX_AMOUNT, SING), Empty), created),
                           Event(TransferIn(8, SING_TOKEN, Asset(TERM_INTEREST, SING), RefuelPlan(1)), created));
    CollectedInTime(created);
  }
}
