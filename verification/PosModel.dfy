/** pos.cisum as a transition system: each action maps a state to the state it commits, or aborts. */
module PosModel {
  import opened Eosio
  import opened SafeMath

  type U32 = n: nat | n < TWO_32
  type U64 = n: nat | n < TWO_64

  const DAY_SECONDS: nat := 86_400
  const YEAR_SECONDS: nat := 31_536_000
  const PCT_BOOST: nat := 10_000

  datatype DepositType = Term | Demand | OtherType
  datatype PoolType = CisumApr | NestPont | OtherPool
  datatype Scheme = Lad1 | Lad2 | Lad3 | Lad11 | Lad21 | Lad31 | Dem1 | Dem2 | Dem3 | OtherScheme

  datatype PlanConf = PlanConf(
    kind: DepositType, pool: PoolType, scheme: Scheme, termDays: U64,
    allowAdvance: bool, fineRate: U64, effectiveFrom: U32, effectiveTo: U32,
    interestToken: Token, musicRate: U64)

  datatype Plan = Plan(
    conf: PlanConf, depositAvailable: Asset, depositRedeemed: Asset,
    interestAvailable: Asset, interestRedeemed: Asset, createdAt: U32)

  datatype SaveAccount = SaveAccount(
    planId: U64, rate: U64, deposit: Asset, interestTerm: Asset, interestCollected: Asset,
    musicReward: Asset, musicReturned: Asset, createdAt: U32, termEndedAt: U32, lastCollectedAt: U32)

  /** What the token contracts record of this contract: its own balances, and its transfers out in the order they were made. */
  datatype Payment = Payment(token: Token, to: Name, amount: int)
  datatype Purse = Purse(held: map<Token, nat>, sent: seq<Payment>)

  datatype State = State(
    admin: Name, principal: Token, minDeposit: Asset, lastSaveId: U64, treasury: Asset,
    plans: map<U64, Plan>, accounts: map<(Name, U64), SaveAccount>, purse: Purse)

  datatype Memo = Empty | DepositTo(planId: U64) | RefuelPlan(planId: U64) | ReturnFor(saveId: U64) | RefuelTreasury | OtherMemo

  /** One transaction, with the account that signed it. */
  datatype Action =
    | Init(signer: Name, principal: Token, minDeposit: Asset)
    | SetPlan(signer: Name, planId: U64, conf: PlanConf)
    | DelPlan(signer: Name, planId: U64)
    | Withdraw(signer: Name, owner: Name, saveId: U64)
    | CollectInt(signer: Name, owner: Name, saveId: U64)
    | TransferIn(from: Name, bank: Name, quant: Asset, memo: Memo)

  // ---------- Balances held by this contract ----------

  function Balance(purse: Purse, token: Token): nat {
    if token in purse.held then purse.held[token] else 0
  }

  function Credit(purse: Purse, token: Token, amount: nat): Purse {
    purse.(held := purse.held[token := Balance(purse, token) + amount])
  }

  /** An inline `transfer` out of this contract. */
  function Pay(purse: Purse, token: Token, to: Name, amount: int): Option<Purse> {
    var _ :- Check(to != POS_CISUM && 0 < amount <= MAX_AMOUNT && amount <= Balance(purse, token));
    Some(Purse(purse.held[token := Balance(purse, token) - amount], purse.sent + [Payment(token, to, amount)]))
  }

  // ---------- Interest ----------

  function Ladder(quant: Asset, low: U64, middle: U64, high: U64): Option<U64> {
    var _ :- Check(quant.sym.precision <= 18);
    var unit := Pow10(quant.sym.precision);
    Some(if quant.amount <= WrapS64(1000 * unit) then low
         else if quant.amount <= WrapS64(2000 * unit) then middle
         else high)
  }

  /** `get_interest_rate`, in ten-thousandths a year. */
  function InterestRate(scheme: Scheme, quant: Asset): Option<U64> {
    match scheme
    case Lad1 => Ladder(quant, 600, 680, 800)
    case Lad2 => Ladder(quant, 680, 800, 1000)
    case Lad3 => Ladder(quant, 800, 1000, 1200)
    case Lad11 => Some(600)
    case Lad21 => Some(630)
    case Lad31 => Some(660)
    case Dem1 => Some(100)
    case Dem2 => Some(200)
    case Dem3 => Some(300)
    case OtherScheme => Some(100)
  }

  /** The amount `_term_interest` writes: two nested roundings down, cut to 64 bits. */
  function RawInterest(rate: nat, amount: int, duration: nat): int {
    WrapS64(MulDown(MulDown(WrapU64(rate * 100), duration, YEAR_SECONDS), WrapU128(amount), PCT_BOOST * 100))
  }

  /** `_term_interest` over a year of 365 days. */
  function TermInterest(rate: nat, amount: int, duration: nat): Option<int> {
    var _ :- Check(duration > 0);
    Some(RawInterest(rate, amount, duration))
  }

  function TermSeconds(days: U64): nat { WrapU64(days * DAY_SECONDS) }

  /** MUSIC handed out on deposit. */
  function MusicReward(quant: Asset, rate: U64): Option<Asset> {
    if rate == 0 then Some(Asset(0, MUSIC))
    else
      var _ :- Check(quant.sym.precision <= 18);
      var scaled := TruncDiv(WrapS128(quant.amount * Pow10(8)), Pow10(quant.sym.precision));
      var units := WrapS64(TruncDiv(WrapS128(scaled * rate), PCT_BOOST));
      if units > 0 then MakeAsset(units, MUSIC) else Some(Asset(0, MUSIC))
  }

  /** Points a nestpont deposit earns at once. */
  function Points(quant: Asset, rewardPrecision: nat, rate: nat, days: U64): Option<int> {
    var _ :- Check(days > 0 && quant.sym.precision <= 18 && rewardPrecision <= 18);
    var scaled := TruncDiv(WrapS128(quant.amount * Pow10(rewardPrecision)), Pow10(quant.sym.precision));
    var yearly := WrapS128(WrapS128(scaled * rate) * days);
    Some(WrapS64(TruncDiv(TruncDiv(yearly, 10000), 365)))
  }

  // ---------- Configuration ----------

  function InitSpec(s: State, signer: Name, principal: Token, minDeposit: Asset): Option<State> {
    var _ :- Check(signer == POS_CISUM);
    var _ :- Check(minDeposit.sym == principal.sym && minDeposit.amount >= 0);
    Some(s.(admin := POS_CISUM, principal := principal, minDeposit := minDeposit, lastSaveId := 0))
  }

  function SetPlanSpec(s: State, signer: Name, planId: U64, conf: PlanConf, now: U32): Option<State> {
    var _ :- Check(signer == s.admin);
    var _ :- Check(!conf.kind.OtherType? && !conf.pool.OtherPool?);
    var _ :- Check(conf.kind.Term? ==> conf.termDays > 0);
    var _ :- Check(conf.effectiveFrom <= conf.effectiveTo);
    var _ :- Check(conf.interestToken.bank != 0);
    var zeroPrincipal := Asset(0, s.principal.sym);
    var zeroInterest := Asset(0, conf.interestToken.sym);
    if planId !in s.plans then
      Some(s.(plans := s.plans[planId := Plan(conf, zeroPrincipal, zeroPrincipal, zeroInterest, zeroInterest, now)]))
    else
      var plan := s.plans[planId];
      var _ :- Check(plan.depositAvailable.sym == s.principal.sym && plan.depositRedeemed.sym == s.principal.sym);
      if plan.interestAvailable.amount != 0 || plan.interestRedeemed.amount != 0 then
        var _ :- Check(plan.interestAvailable.sym == conf.interestToken.sym);
        Some(s.(plans := s.plans[planId := plan.(conf := conf)]))
      else
        Some(s.(plans := s.plans[planId := plan.(conf := conf, interestAvailable := zeroInterest, interestRedeemed := zeroInterest)]))
  }

  function DelPlanSpec(s: State, signer: Name, planId: U64): Option<State> {
    var _ :- Check(signer == s.admin && planId in s.plans);
    Some(s.(plans := s.plans - {planId}))
  }

  // ---------- Withdrawal ----------

  /** The early-redemption rate in ten-thousandths, with its cap. */
  function FineRate(maxRate: U64, remaining: nat, total: nat): nat
    requires total > 0
  {
    if maxRate == 0 then 0
    else
      var rate := WrapU64(MulUp(maxRate, remaining, total));
      if rate > maxRate then maxRate else rate
  }

  /** True when a term deposit made at `created` has not run out at `now`. */
  predicate Premature(conf: PlanConf, created: U32, now: U32) {
    conf.kind.Term? && now < WrapU32(created + TermSeconds(conf.termDays))
  }

  function RemainingSeconds(conf: PlanConf, created: U32, now: U32): int {
    var left := WrapS64(WrapS64(conf.termDays * DAY_SECONDS) - WrapU32(now - created));
    if left < 0 then 0 else left
  }

  /** The penalty of redeeming `amount` early. */
  function Penalty(conf: PlanConf, amount: int, created: U32, now: U32): int {
    var total := WrapS64(conf.termDays * DAY_SECONDS);
    var rate := if total > 0 then FineRate(conf.fineRate, RemainingSeconds(conf, created, now), total) else 0;
    if rate > 0 then WrapS64(MulUp(WrapU128(amount), WrapU128(WrapS64(rate)), PCT_BOOST)) else 0
  }

  predicate MusicSettled(account: SaveAccount) {
    var reward := if account.musicReward.amount >= 0 then account.musicReward else Asset(0, MUSIC);
    var returned := if account.musicReturned.amount >= 0 then account.musicReturned else Asset(0, MUSIC);
    reward.sym == MUSIC && returned.sym == MUSIC && returned.amount >= reward.amount
  }

  function WithdrawSpec(s: State, signer: Name, owner: Name, saveId: U64, now: U32): Option<State> {
    var _ :- Check(signer == owner || signer == s.admin);
    var _ :- Check((owner, saveId) in s.accounts);
    var account := s.accounts[(owner, saveId)];
    var _ :- Check(account.planId in s.plans);
    var plan := s.plans[account.planId];
    var _ :- Check(MusicSettled(account));
    var early := Premature(plan.conf, account.createdAt, now);
    var _ :- Check(early ==> plan.conf.allowAdvance);
    var penalty :- MakeAsset(if early then Penalty(plan.conf, account.deposit.amount, account.createdAt, now) else 0, s.principal.sym);
    var redeemed :- if early then SubAsset(account.deposit, penalty) else Some(account.deposit);
    var _ :- Check(early ==> redeemed.amount > 0);
    var fined :- if early then Pay(s.purse, s.principal, SHARE_CISUM, penalty.amount) else Some(s.purse);
    var _ :- Check(plan.depositAvailable.sym == account.deposit.sym && plan.depositAvailable.amount >= account.deposit.amount);
    var available :- SubAsset(plan.depositAvailable, account.deposit);
    var total :- AddAsset(plan.depositRedeemed, redeemed);
    var paid :- Pay(fined, Token(redeemed.sym, s.principal.bank), owner, redeemed.amount);
    Some(s.(plans := s.plans[account.planId := plan.(depositAvailable := available, depositRedeemed := total)],
            accounts := s.accounts - {(owner, saveId)},
            purse := paid))
  }

  // ---------- Interest collection ----------

  function CollectSpec(s: State, signer: Name, owner: Name, saveId: U64, now: U32): Option<State> {
    var _ :- Check(signer == owner || signer == s.admin);
    var _ :- Check((owner, saveId) in s.accounts);
    var account := s.accounts[(owner, saveId)];
    var _ :- Check(account.planId in s.plans);
    var plan := s.plans[account.planId];
    var _ :- Check(plan.conf.pool.CisumApr?);
    var last := if account.lastCollectedAt == 0 then account.createdAt else account.lastCollectedAt;
    var _ :- Check(WrapU32(now - last) > DAY_SECONDS);
    var accrued :- TermInterest(account.rate, account.deposit.amount, WrapU32(now - account.createdAt));
    var _ :- Check(plan.conf.interestToken.sym == account.interestTerm.sym);
    var interest := Asset(if accrued > account.interestTerm.amount then account.interestTerm.amount else accrued, account.interestTerm.sym);
    var due :- SubAsset(interest, account.interestCollected);
    var _ :- Check(due.amount > 0);
    var _ :- Check(plan.interestAvailable.sym == due.sym && plan.interestAvailable.amount >= due.amount);
    var paid :- Pay(s.purse, Token(due.sym, plan.conf.interestToken.bank), owner, due.amount);
    var collected :- AddAsset(account.interestCollected, due);
    var available :- SubAsset(plan.interestAvailable, due);
    var total :- AddAsset(plan.interestRedeemed, due);
    Some(s.(plans := s.plans[account.planId := plan.(interestAvailable := available, interestRedeemed := total)],
            accounts := s.accounts[(owner, saveId) := account.(interestCollected := collected, lastCollectedAt := now)],
            purse := paid))
  }

  // ---------- Incoming transfers ----------

  function Refuel(s: State, planId: U64, quant: Asset, bank: Name): Option<State> {
    var _ :- Check(planId in s.plans);
    var plan := s.plans[planId];
    var _ :- Check(plan.conf.interestToken == Token(quant.sym, bank));
    var available :- AddAsset(plan.interestAvailable, quant);
    Some(s.(plans := s.plans[planId := plan.(interestAvailable := available)]))
  }

  /** The account a deposit opens. */
  function Opened(conf: PlanConf, planId: U64, quant: Asset, now: U32): Option<SaveAccount> {
    var rate :- InterestRate(conf.scheme, quant);
    var term :- if conf.pool.CisumApr? then TermInterest(rate, quant.amount, TermSeconds(conf.termDays)) else Some(0);
    var music :- MusicReward(quant, conf.musicRate);
    var sym := conf.interestToken.sym;
    Some(SaveAccount(planId, rate, quant, Asset(term, sym), Asset(0, sym), music, Asset(0, MUSIC),
                     now, WrapU32(now + TermSeconds(conf.termDays)), now))
  }

  /** Points paid out of the plan's pool on a nestpont deposit. */
  function PayPoints(plan: Plan, account: SaveAccount, purse: Purse, to: Name): Option<(Plan, Purse)> {
    if !plan.conf.pool.NestPont? then Some((plan, purse))
    else
      var token := plan.conf.interestToken;
      var amount :- Points(account.deposit, token.sym.precision, account.rate, plan.conf.termDays);
      var _ :- Check(amount > 0 && plan.interestAvailable.sym == token.sym && plan.interestAvailable.amount >= amount);
      var available :- SubAsset(plan.interestAvailable, Asset(amount, token.sym));
      var total :- AddAsset(plan.interestRedeemed, Asset(amount, token.sym));
      var paid :- Pay(purse, token, to, amount);
      Some((plan.(interestAvailable := available, interestRedeemed := total), paid))
  }

  function Deposit(s: State, from: Name, quant: Asset, planId: U64, now: U32): Option<State> {
    var _ :- Check(planId in s.plans);
    var plan := s.plans[planId];
    var _ :- Check(quant.sym == s.minDeposit.sym && quant.amount >= s.minDeposit.amount);
    var _ :- Check(plan.conf.effectiveFrom <= now <= plan.conf.effectiveTo);
    var available :- AddAsset(plan.depositAvailable, quant);
    var account :- Opened(plan.conf, planId, quant, now);
    var saveId := WrapU64(s.lastSaveId + 1);
    var _ :- Check((from, saveId) !in s.accounts);
    var rewarded :- if account.musicReward.amount > 0
                    then Pay(s.purse, Token(MUSIC, SING_TOKEN), from, account.musicReward.amount)
                    else Some(s.purse);
    var pointed :- PayPoints(plan.(depositAvailable := available), account, rewarded, from);
    Some(s.(lastSaveId := saveId, plans := s.plans[planId := pointed.0],
            accounts := s.accounts[(from, saveId) := account], purse := pointed.1))
  }

  function ReturnMusic(s: State, from: Name, quant: Asset, saveId: U64): Option<State> {
    var _ :- Check((from, saveId) in s.accounts);
    var account := s.accounts[(from, saveId)];
    var _ :- Check(account.deposit.amount > 0);
    var _ :- Check(account.musicReward.sym == MUSIC && account.musicReturned.sym == MUSIC);
    var _ :- Check(account.musicReturned.amount + quant.amount <= account.musicReward.amount);
    var returned :- AddAsset(account.musicReturned, quant);
    Some(s.(accounts := s.accounts[(from, saveId) := account.(musicReturned := returned)]))
  }

  function FillTreasury(s: State, quant: Asset): Option<State> {
    var treasury :- AddAsset(if s.treasury.sym.code == "" then Asset(0, MUSIC) else s.treasury, quant);
    Some(s.(treasury := treasury))
  }

  /** `ontransfer`: what a transfer notified by sing.token does once the balance has moved. */
  function SingNotice(s: State, from: Name, quant: Asset, memo: Memo, now: U32): Option<State> {
    var _ :- Check(s.principal.bank == SING_TOKEN);
    if quant.sym == s.principal.sym then
      match memo
      case RefuelPlan(planId) => Refuel(s, planId, quant, SING_TOKEN)
      case Empty => Deposit(s, from, quant, 1, now)
      case DepositTo(planId) => Deposit(s, from, quant, planId, now)
      case _ => Abort
    else
      var _ :- Check(quant.sym == MUSIC);
      match memo
      case ReturnFor(saveId) => ReturnMusic(s, from, quant, saveId)
      case RefuelTreasury => FillTreasury(s, quant)
      case _ => Abort
  }

  /** `on_cisum_transfer`: what a transfer notified by cisum.token does. */
  function CisumNotice(s: State, quant: Asset, memo: Memo): Option<State> {
    var _ :- Check(quant.sym == CISUM && memo.RefuelPlan?);
    Refuel(s, memo.planId, quant, CISUM_TOKEN)
  }

  /** A transfer from outside: the balance moves first, then the bank's notification runs. */
  function TransferInSpec(s: State, from: Name, bank: Name, quant: Asset, memo: Memo, now: U32): Option<State> {
    var _ :- Check(from != POS_CISUM && 0 < quant.amount <= MAX_AMOUNT);
    var token := Token(quant.sym, bank);
    var credited := s.(purse := Credit(s.purse, token, quant.amount));
    if bank == SING_TOKEN then SingNotice(credited, from, quant, memo, now)
    else if bank == CISUM_TOKEN then CisumNotice(credited, quant, memo)
    else Some(credited)
  }

  // ---------- Runs ----------

  function Step(s: State, act: Action, now: U32): Option<State> {
    match act
    case Init(signer, principal, minDeposit) => InitSpec(s, signer, principal, minDeposit)
    case SetPlan(signer, planId, conf) => SetPlanSpec(s, signer, planId, conf, now)
    case DelPlan(signer, planId) => DelPlanSpec(s, signer, planId)
    case Withdraw(signer, owner, saveId) => WithdrawSpec(s, signer, owner, saveId, now)
    case CollectInt(signer, owner, saveId) => CollectSpec(s, signer, owner, saveId, now)
    case TransferIn(from, bank, quant, memo) => TransferInSpec(s, from, bank, quant, memo, now)
  }

  datatype Event = Event(act: Action, now: U32)

  /** The state after a whole history, aborted transactions included. */
  ghost function Run(s: State, trace: seq<Event>): State {
    if trace == [] then s
    else
      var before := Run(s, trace[..|trace| - 1]);
      var last := trace[|trace| - 1];
      After(Step(before, last.act, last.now), before)
  }

  /** Block time never goes back. */
  ghost predicate Chronological(trace: seq<Event>) {
    forall i, j | 0 <= i < j < |trace| :: trace[i].now <= trace[j].now
  }

  /** The contract before its first action. */
  function Fresh(principal: Token, minDeposit: Asset): State {
    State(POS_CISUM, principal, minDeposit, 0, Asset(0, Symbol("", 0)), map[], map[], Purse(map[], []))
  }
}
