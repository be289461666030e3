/** The contract object of pos.cisum. Every action reads rows, computes, and writes rows back; each is proved
    to commit exactly the state its specification gives, and to leave everything alone when it aborts. */
module PosContract {
  import opened Eosio
  import opened SafeMath
  import opened PosModel

  class PosCisum {
    var admin: Name
    var principal: Token
    var minDeposit: Asset
    var lastSaveId: U64
    var treasury: Asset
    var plans: map<U64, Plan>
    var accounts: map<(Name, U64), SaveAccount>
    var purse: Purse

    ghost function Snapshot(): State
      reads this
    {
      State(admin, principal, minDeposit, lastSaveId, treasury, plans, accounts, purse)
    }

    constructor (principal: Token, minDeposit: Asset)
      ensures Snapshot() == Fresh(principal, minDeposit)
    {
      this.admin := POS_CISUM;
      this.principal := principal;
      this.minDeposit := minDeposit;
      this.lastSaveId := 0;
      this.treasury := Asset(0, Symbol("", 0));
      this.plans, this.accounts, this.purse := map[], map[], Purse(map[], []);
    }

    method Init(signer: Name, principal: Token, minDeposit: Asset) returns (r: Option<()>)
      modifies this
      ensures Applied(r, InitSpec(old(Snapshot()), signer, principal, minDeposit), old(Snapshot()), Snapshot())
    {
      var _ :- Check(signer == POS_CISUM);
      var _ :- Check(minDeposit.sym == principal.sym);
      var _ :- Check(minDeposit.amount >= 0);
      admin := POS_CISUM;
      this.principal := principal;
      this.minDeposit := minDeposit;
      lastSaveId := 0;
      return Some(());
    }

    method SetPlan(signer: Name, planId: U64, conf: PlanConf, now: U32) returns (r: Option<()>)
      modifies this
      ensures Applied(r, SetPlanSpec(old(Snapshot()), signer, planId, conf, now), old(Snapshot()), Snapshot())
    {
      var _ :- Check(signer == admin);
      var _ :- Check(conf.kind.Term? || conf.kind.Demand?);
      var _ :- Check(conf.pool.CisumApr? || conf.pool.NestPont?);
      if conf.kind.Term? {
        var _ :- Check(conf.termDays > 0);
      }
      var _ :- Check(conf.effectiveFrom <= conf.effectiveTo);
      var _ :- Check(conf.interestToken.bank != 0);
      var zeroPrincipal := Asset(0, principal.sym);
      var zeroInterest := Asset(0, conf.interestToken.sym);
      var plan: Plan;
      if planId !in plans {
        plan := Plan(conf, zeroPrincipal, zeroPrincipal, zeroInterest, zeroInterest, now);
      } else {
        plan := plans[planId].(conf := conf);
        var _ :- Check(plan.depositAvailable.sym == principal.sym);
        var _ :- Check(plan.depositRedeemed.sym == principal.sym);
        var hasBalance := plan.interestAvailable.amount != 0 || plan.interestRedeemed.amount != 0;
        if hasBalance {
          var _ :- Check(plan.interestAvailable.sym == conf.interestToken.sym);
        } else {
          plan := plan.(interestAvailable := zeroInterest, interestRedeemed := zeroInterest);
        }
      }
      plans := plans[planId := plan];
      return Some(());
    }

    method DelPlan(signer: Name, planId: U64) returns (r: Option<()>)
      modifies this
      ensures Applied(r, DelPlanSpec(old(Snapshot()), signer, planId), old(Snapshot()), Snapshot())
    {
      var _ :- Check(signer == admin);
      var _ :- Check(planId in plans);
      plans := plans - {planId};
      return Some(());
    }

    /** The early-redemption penalty, step by step. */
    method ComputePenalty(conf: PlanConf, amount: int, created: U32, now: U32) returns (penalty: int)
      ensures penalty == Penalty(conf, amount, created, now)
    {
      var totalSeconds := WrapS64(conf.termDays * DAY_SECONDS);
      var elapsedSeconds := WrapU32(now - created);
      var remainingSeconds := WrapS64(totalSeconds - elapsedSeconds);
      if remainingSeconds < 0 {
        remainingSeconds := 0;
      }
      var maxRate := conf.fineRate;
      var rate := 0;
      if totalSeconds > 0 && maxRate > 0 {
        rate := WrapU64(MulUp(maxRate, remainingSeconds, totalSeconds));
        if rate > maxRate {
          rate := maxRate;
        }
      }
      penalty := 0;
      if rate > 0 {
        penalty := WrapS64(MulUp(WrapU128(amount), WrapU128(WrapS64(rate)), PCT_BOOST));
      }
    }

    method Withdraw(signer: Name, owner: Name, saveId: U64, now: U32) returns (r: Option<()>)
      modifies this
      ensures Applied(r, WithdrawSpec(old(Snapshot()), signer, owner, saveId, now), old(Snapshot()), Snapshot())
    {
      hide Penalty, Pay;
      if signer != owner {
        var _ :- Check(signer == admin);
      }
      var _ :- Check((owner, saveId) in accounts);
      var account := accounts[(owner, saveId)];
      var _ :- Check(account.planId in plans);
      var plan := plans[account.planId];
      var _ :- Check(MusicSettled(account));
      var redeem := account.deposit;
      var paid := purse;
      if plan.conf.kind.Term? {
        var endsAt := WrapU32(account.createdAt + TermSeconds(plan.conf.termDays));
        var premature := now < endsAt;
        if !plan.conf.allowAdvance {
          var _ :- Check(!premature);
        }
        if premature {
          var units := ComputePenalty(plan.conf, account.deposit.amount, account.createdAt, now);
          var penalty :- MakeAsset(units, principal.sym);
          redeem :- SubAsset(redeem, penalty);
          var _ :- Check(redeem.amount > 0);
          paid :- Pay(paid, principal, SHARE_CISUM, penalty.amount);
        }
      }
      var _ :- Check(plan.depositAvailable.sym == account.deposit.sym && plan.depositAvailable.amount >= account.deposit.amount);
      var available :- SubAsset(plan.depositAvailable, account.deposit);
      var redeemed :- AddAsset(plan.depositRedeemed, redeem);
      paid :- Pay(paid, Token(redeem.sym, principal.bank), owner, redeem.amount);
      plans := plans[account.planId := plan.(depositAvailable := available, depositRedeemed := redeemed)];
      accounts := accounts - {(owner, saveId)};
      purse := paid;
      return Some(());
    }

    method CollectInt(signer: Name, owner: Name, saveId: U64, now: U32) returns (r: Option<()>)
      modifies this
      ensures Applied(r, CollectSpec(old(Snapshot()), signer, owner, saveId, now), old(Snapshot()), Snapshot())
    {
      hide RawInterest, Pay, AddAsset, SubAsset, WrapU32;
      if signer != owner {
        var _ :- Check(signer == admin);
      }
      var _ :- Check((owner, saveId) in accounts);
      var account := accounts[(owner, saveId)];
      var _ :- Check(account.planId in plans);
      var plan := plans[account.planId];
      var _ :- Check(plan.conf.pool.CisumApr?);
      if account.lastCollectedAt == 0 {
        account := account.(lastCollectedAt := account.createdAt);
      }
      var elapsed := WrapU32(now - account.lastCollectedAt);
      var _ :- Check(elapsed > DAY_SECONDS);
      var totalElapsed := WrapU32(now - account.createdAt);
      var accrued :- TermInterest(account.rate, account.deposit.amount, totalElapsed);
      var interest := Asset(accrued, plan.conf.interestToken.sym);
      var _ :- Check(interest.sym == account.interestTerm.sym);
      if interest.amount > account.interestTerm.amount {
        interest := account.interestTerm;
      }
      var due :- SubAsset(interest, account.interestCollected);
      var _ :- Check(due.amount > 0);
      var _ :- Check(plan.interestAvailable.sym == due.sym && plan.interestAvailable.amount >= due.amount);
      var paid :- Pay(purse, Token(due.sym, plan.conf.interestToken.bank), owner, due.amount);
      var collected :- AddAsset(account.interestCollected, due);
      var available :- SubAsset(plan.interestAvailable, due);
      var redeemed :- AddAsset(plan.interestRedeemed, due);
      accounts := accounts[(owner, saveId) := account.(interestCollected := collected, lastCollectedAt := now)];
      plans := plans[account.planId := plan.(interestAvailable := available, interestRedeemed := redeemed)];
      purse := paid;
      return Some(());
    }

    /** The deposit branch of `ontransfer`, with `credited` the balances after the transfer. */
    method OnDeposit(from: Name, quant: Asset, planId: U64, now: U32, credited: Purse) returns (r: Option<()>)
      modifies this
      ensures Applied(r, Deposit(old(Snapshot()).(purse := credited), from, quant, planId, now), old(Snapshot()), Snapshot())
    {
      hide InterestRate, MusicReward, Points, RawInterest, Pay;
      var _ :- Check(planId in plans);
      var plan := plans[planId];
      var _ :- Check(quant.sym == minDeposit.sym && quant.amount >= minDeposit.amount);
      var _ :- Check(plan.conf.effectiveFrom <= now);
      var _ :- Check(plan.conf.effectiveTo >= now);
      var available :- AddAsset(plan.depositAvailable, quant);
      plan := plan.(depositAvailable := available);
      var saveId := WrapU64(lastSaveId + 1);
      var rate :- InterestRate(plan.conf.scheme, quant);
      var term := Asset(0, plan.conf.interestToken.sym);
      if plan.conf.pool.CisumApr? {
        var units :- TermInterest(rate, quant.amount, TermSeconds(plan.conf.termDays));
        term := term.(amount := units);
      }
      var music :- MusicReward(quant, plan.conf.musicRate);
      var account := SaveAccount(planId, rate, quant, term, Asset(0, plan.conf.interestToken.sym), music, Asset(0, MUSIC),
                                 now, WrapU32(now + TermSeconds(plan.conf.termDays)), now);
      var _ :- Check((from, saveId) !in accounts);
      var paid := credited;
      if music.amount > 0 {
        paid :- Pay(paid, Token(MUSIC, SING_TOKEN), from, music.amount);
      }
      if plan.conf.pool.NestPont? {
        var token := plan.conf.interestToken;
        var points :- Points(quant, token.sym.precision, rate, plan.conf.termDays);
        var _ :- Check(points > 0);
        var _ :- Check(plan.interestAvailable.sym == token.sym && plan.interestAvailable.amount >= points);
        var left :- SubAsset(plan.interestAvailable, Asset(points, token.sym));
        var redeemed :- AddAsset(plan.interestRedeemed, Asset(points, token.sym));
        plan := plan.(interestAvailable := left, interestRedeemed := redeemed);
        paid :- Pay(paid, token, from, points);
      }
      lastSaveId := saveId;
      plans := plans[planId := plan];
      accounts := accounts[(from, saveId) := account];
      purse := paid;
      return Some(());
    }

    method OnRefuel(planId: U64, quant: Asset, bank: Name, credited: Purse) returns (r: Option<()>)
      modifies this
      ensures Applied(r, Refuel(old(Snapshot()).(purse := credited), planId, quant, bank), old(Snapshot()), Snapshot())
    {
      var _ :- Check(planId in plans);
      var plan := plans[planId];
      var _ :- Check(plan.conf.interestToken.bank == bank);
      var _ :- Check(plan.conf.interestToken.sym == quant.sym);
      var available :- AddAsset(plan.interestAvailable, quant);
      plans := plans[planId := plan.(interestAvailable := available)];
      purse := credited;
      return Some(());
    }

    /** A transfer to this contract: the bank moves the balance, then notifies `ontransfer` or `on_cisum_transfer`. */
    method TransferIn(from: Name, bank: Name, quant: Asset, memo: Memo, now: U32) returns (r: Option<()>)
      modifies this
      ensures Applied(r, TransferInSpec(old(Snapshot()), from, bank, quant, memo, now), old(Snapshot()), Snapshot())
    {
      hide Deposit, Refuel;
      var _ :- Check(from != POS_CISUM && 0 < quant.amount <= MAX_AMOUNT);
      var token := Token(quant.sym, bank);
      var credited := Credit(purse, token, quant.amount);
      if bank == CISUM_TOKEN {
        var _ :- Check(quant.sym == CISUM);
        var _ :- Check(memo.RefuelPlan?);
        r := OnRefuel(memo.planId, quant, bank, credited);
        return;
      }
      if bank != SING_TOKEN {
        purse := credited;
        return Some(());
      }
      var _ :- Check(bank == principal.bank);
      if quant.sym == principal.sym {
        match memo
        case RefuelPlan(planId) => r := OnRefuel(planId, quant, bank, credited);
        case Empty => r := OnDeposit(from, quant, 1, now, credited);
        case DepositTo(planId) => r := OnDeposit(from, quant, planId, now, credited);
        case _ => return Abort;
      } else if quant.sym == MUSIC {
        match memo
        case ReturnFor(saveId) =>
          var _ :- Check((from, saveId) in accounts);
          var account := accounts[(from, saveId)];
          var _ :- Check(account.deposit.amount > 0);
          var _ :- Check(account.musicReward.sym == MUSIC && account.musicReturned.sym == MUSIC);
          var _ :- Check(account.musicReturned.amount + quant.amount <= account.musicReward.amount);
          var returned :- AddAsset(account.musicReturned, quant);
          accounts := accounts[(from, saveId) := account.(musicReturned := returned)];
          purse := credited;
          return Some(());
        case RefuelTreasury =>
          var base := treasury;
          if base.sym.code == "" {
            base := Asset(0, MUSIC);
          }
          var filled :- AddAsset(base, quant);
          treasury := filled;
          purse := credited;
          return Some(());
        case _ => return Abort;
      } else {
        return Abort;
      }
    }
  }
}
