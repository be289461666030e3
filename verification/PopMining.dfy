/** pop.cisum: mining SING on purchases, within a cap. */
module PopMining {
  import opened Eosio
  import SafeMath
  import SwapPrice

  datatype Pop = Pop(max: int, available: int, issued: int, accum: int, receivable: map<Name, int>)

  const MAX_S64: int := TWO_63 - 1

  function Fresh(max: int): Pop { Pop(max, max, 0, 0, map[]) }

  /** Units of USDT that a payment is rewarded with. */
  function RewardUsdt(pay: int): int { pay / 10 }

  function RewardSing(pay: nat, price: nat): int
    requires price > 0
  {
    SwapPrice.Exchange(RewardUsdt(pay), price)
  }

  /** `mine`, and the SING it issues: nothing, with no change, when the reward is too small or a cap is reached. */
  function MineSpec(s: Pop, allowed: bool, payer: Name, pay: int, left: int, right: int): Option<(Pop, int)> {
    var _ :- Check(allowed && 0 < pay <= MAX_AMOUNT);
    var price :- SwapPrice.Price(left, right);
    var reward := RewardSing(pay, price);
    var _ :- Check(InRange(reward));
    if reward <= 0 || s.available < reward || s.issued > MAX_S64 - reward || s.issued + reward > s.max then Some((s, 0))
    else
      var _ :- Check(InRange(s.available - reward) && InRange(s.issued + reward));
      var _ :- Check(s.accum <= MAX_S64 - RewardUsdt(pay));
      var before := if payer in s.receivable then s.receivable[payer] else 0;
      var _ :- Check(InRange(before + pay));
      Some((Pop(s.max, s.available - reward, s.issued + reward, s.accum + RewardUsdt(pay), s.receivable[payer := before + pay]), reward))
  }

  function InitSpec(s: Pop, allowed: bool, max: int): Option<Pop> {
    var _ :- Check(allowed && 0 < max <= MAX_AMOUNT && max >= s.issued && InRange(max - s.issued));
    Some(s.(max := max, available := max - s.issued))
  }

  /** `setmaxreward` cuts what is available to the new maximum, and does not look at what was issued. */
  function SetMaxSpec(s: Pop, allowed: bool, max: int): Option<Pop> {
    var _ :- Check(allowed && 0 < max <= MAX_AMOUNT);
    Some(s.(max := max, available := if s.available > max then max else s.available))
  }

  function SettleSpec(s: Pop, allowed: bool, amount: int): Option<Pop> {
    var _ :- Check(allowed && amount > 0 && s.accum >= amount && InRange(s.accum - amount));
    Some(s.(accum := s.accum - amount))
  }

  datatype Action = Mine(payer: Name, pay: int, left: int, right: int) | Init(max: int) | SetMax(max: int) | Settle(amount: int)

  /** The state after an action and the SING it issued. */
  function Step(s: Pop, act: Action, allowed: bool): Option<(Pop, int)> {
    match act
    case Mine(payer, pay, left, right) => MineSpec(s, allowed, payer, pay, left, right)
    case Init(max) => var t :- InitSpec(s, allowed, max); Some((t, 0))
    case SetMax(max) => var t :- SetMaxSpec(s, allowed, max); Some((t, 0))
    case Settle(amount) => var t :- SettleSpec(s, allowed, amount); Some((t, 0))
  }

  type Trace = seq<(Action, bool)>

  ghost function Run(s: Pop, trace: Trace): Pop {
    if trace == [] then s
    else
      var before, last := Run(s, trace[..|trace| - 1]), trace[|trace| - 1];
      match Step(before, last.0, last.1)
      case Abort => before
      case Some(r) => r.0
  }

  /** SING issued over a run. */
  ghost function Issued(s: Pop, trace: Trace): int {
    if trace == [] then 0
    else
      var init, last := trace[..|trace| - 1], trace[|trace| - 1];
      var r := Step(Run(s, init), last.0, last.1);
      Issued(s, init) + if r.Some? then r.value.1 else 0
  }

  // ---------- The cap ----------

  /** Available and issued rewards make up the maximum. */
  ghost predicate Capped(s: Pop) {
    0 <= s.available && 0 <= s.issued && s.available + s.issued == s.max <= MAX_AMOUNT
  }

  /** In a capped state the two caps are one: mining issues exactly the rewards that are positive and still available. */
  lemma MineIssuesIff(s: Pop, payer: Name, pay: int, left: int, right: int)
    requires Capped(s) && MineSpec(s, true, payer, pay, left, right).Some?
    ensures var price := SwapPrice.Price(left, right).value;
            var reward := RewardSing(pay, price); var r := MineSpec(s, true, payer, pay, left, right).value;
            && (r.1 > 0 <==> 0 < reward <= s.available)
            && (r.1 > 0 ==> r.1 == reward && r.0.accum - s.accum == pay / 10)
            && (r.1 <= 0 ==> r.0 == s && r.1 == 0)
  {
    hide SwapPrice.Price, RewardSing;
  }

  /** One mining call in a capped state, in full: a tenth of the payment, converted at the price of the pools, is issued if it is positive
      and available, and then counted; otherwise the call commits and changes nothing. Price and reward are true floors if and only if
      these have 63 bits. */
  lemma MineTerms(s: Pop, allowed: bool, payer: Name, pay: nat, left: int, right: int) returns (price: int, reward: int)
    requires Capped(s)
    ensures left > 0 && right > 0 ==> SafeMath.CutFloor(price, right * SwapPrice.SING_UNIT, left)
    ensures left > 0 && right > 0 && price > 0 ==> SafeMath.CutFloor(reward, pay / 10 * SwapPrice.SING_UNIT, price)
    ensures var r := MineSpec(s, allowed, payer, pay, left, right);
            var before := if payer in s.receivable then s.receivable[payer] else 0;
            if allowed && 0 < pay <= MAX_AMOUNT && left > 0 && right > 0 && 0 < price <= MAX_AMOUNT && -MAX_AMOUNT <= reward <= MAX_AMOUNT then
              if 0 < reward <= s.available then
                if s.accum + pay / 10 <= MAX_S64 && -MAX_AMOUNT <= before + pay <= MAX_AMOUNT then
                  r == Some((Pop(s.max, s.available - reward, s.issued + reward, s.accum + pay / 10, s.receivable[payer := before + pay]), reward))
                else r.Abort?
              else r == Some((s, 0))
            else r.Abort?
  {
    hide WrapS64, SafeMath.CutFloor;
    price, reward := 0, 0;
    if left > 0 && right > 0 {
      price := WrapS64(right * SwapPrice.SING_UNIT / left);
      SafeMath.CutFloorIs(right * SwapPrice.SING_UNIT, left);
      if price > 0 {
        reward := RewardSing(pay, price);
        SafeMath.CutFloorIs(pay / 10 * SwapPrice.SING_UNIT, price);
      }
    }
  }

  /** Changing the maximum keeps the cap if and only if it stays the same, or is lowered before anything was issued. */
  lemma SetMaxKeepsCapIff(s: Pop, max: int)
    requires Capped(s) && SetMaxSpec(s, true, max).Some?
    ensures Capped(SetMaxSpec(s, true, max).value) <==> max == s.max || (s.issued == 0 && max < s.max)
  {
  }

  lemma StepKeepsCapped(s: Pop, act: Action, allowed: bool)
    requires Capped(s) && !act.SetMax? && Step(s, act, allowed).Some?
    ensures var r := Step(s, act, allowed).value; Capped(r.0) && r.1 >= 0 && r.0.issued == s.issued + r.1
  {
    hide SwapPrice.Price, RewardSing;
  }

  /** Over every run without `setmaxreward`, what is issued is what mining handed out, and never more than the maximum. */
  lemma {:induction false} RunKeepsCapped(s: Pop, trace: Trace)
    requires Capped(s) && forall i | 0 <= i < |trace| :: !trace[i].0.SetMax?
    ensures Capped(Run(s, trace)) && Run(s, trace).issued == s.issued + Issued(s, trace) <= Run(s, trace).max
  {
    hide Step;
    if trace != [] {
      var init, last := trace[..|trace| - 1], trace[|trace| - 1];
      RunKeepsCapped(s, init);
      assert !trace[|trace| - 1].0.SetMax?;
      if Step(Run(s, init), last.0, last.1).Some? {
        StepKeepsCapped(Run(s, init), last.0, last.1);
      }
    }
  }

  /** From the first transaction on. */
  lemma ReachableIsCapped(max: int, trace: Trace)
    requires 0 <= max <= MAX_AMOUNT && forall i | 0 <= i < |trace| :: !trace[i].0.SetMax?
    ensures Capped(Run(Fresh(max), trace)) && Run(Fresh(max), trace).issued == Issued(Fresh(max), trace) <= Run(Fresh(max), trace).max
  {
    RunKeepsCapped(Fresh(max), trace);
  }

  /** Even when the maximum has been lowered below what was issued, in any state at all, no action issues anything beyond it. */
  lemma NothingBeyondMax(s: Pop, act: Action, allowed: bool)
    requires Step(s, act, allowed).Some?
    ensures var t := Step(s, act, allowed).value.0; t.issued == s.issued || s.issued < t.issued <= t.max == s.max
  {
    hide SwapPrice.Price, RewardSing;
  }

  // ---------- The account with the reserve ----------

  /** What a step adds to the amount owed to the reserve: a tenth of a payment that mined, less what is settled. */
  ghost function Owing(s: Pop, act: Action, allowed: bool): int {
    var r := Step(s, act, allowed);
    if r.Abort? then 0
    else match act
         case Mine(_, pay, _, _) => if r.value.1 > 0 then pay / 10 else 0
         case Settle(amount) => 0 - amount
         case _ => 0
  }

  ghost function OwingOver(s: Pop, trace: Trace): int {
    if trace == [] then 0
    else
      var init, last := trace[..|trace| - 1], trace[|trace| - 1];
      OwingOver(s, init) + Owing(Run(s, init), last.0, last.1)
  }

  lemma StepKeepsAccount(s: Pop, act: Action, allowed: bool)
    requires 0 <= s.accum
    ensures var r := Step(s, act, allowed);
            r.Some? ==> allowed && 0 <= r.value.0.accum == s.accum + Owing(s, act, allowed) && (act.Settle? ==> 0 < act.amount && r.value.0 == s.(accum := s.accum - act.amount))
  {
    hide SwapPrice.Price, RewardSing;
  }

  /** Over every run the accumulated reward in USDT is the tenths of the payments that mined, less what was settled; it is never negative,
      so no more is ever settled than was accumulated. */
  lemma {:induction false} AccumIsTenthsLessSettled(s: Pop, trace: Trace)
    requires 0 <= s.accum
    ensures 0 <= Run(s, trace).accum == s.accum + OwingOver(s, trace)
  {
    hide Step, Owing;
    if trace != [] {
      var init, last := trace[..|trace| - 1], trace[|trace| - 1];
      AccumIsTenthsLessSettled(s, init);
      StepKeepsAccount(Run(s, init), last.0, last.1);
      NothingOwed(Run(s, init), last.0, last.1);
    }
  }

  lemma NothingOwed(s: Pop, act: Action, allowed: bool)
    ensures Step(s, act, allowed).Abort? ==> Owing(s, act, allowed) == 0
  {
  }

  class PopCisum {
    var max: int
    var available: int
    var issued: int
    var accum: int
    var receivable: map<Name, int>

    ghost function Snapshot(): Pop
      reads this
    {
      Pop(max, available, issued, accum, receivable)
    }

    constructor (max: int)
      ensures Snapshot() == Fresh(max)
    {
      this.max, available, issued, accum := max, max, 0, 0;
      receivable := map[];
    }

    method Mine(allowed: bool, payer: Name, pay: int, left: int, right: int) returns (r: Option<int>)
      modifies this
      ensures AppliedWith(r, MineSpec(old(Snapshot()), allowed, payer, pay, left, right), old(Snapshot()), Snapshot())
    {
      hide SwapPrice.Price, WrapS64;
      var _ :- Check(allowed && 0 < pay <= MAX_AMOUNT);
      var price :- SwapPrice.Price(left, right);
      SwapPrice.PricePositive(left, right);
      var rewardUsdt := pay / 10;
      var reward := SwapPrice.Exchange(rewardUsdt, price);
      var _ :- Check(InRange(reward));
      if reward <= 0 {
        return Some(0);
      }
      var canIssue := true;
      if available < reward {
        canIssue := false;
      }
      if canIssue {
        if issued > MAX_S64 - reward {
          canIssue := false;
        } else if issued + reward > max {
          canIssue := false;
        }
      }
      if !canIssue {
        return Some(0);
      }
      var _ :- Check(InRange(available - reward) && InRange(issued + reward));
      var _ :- Check(accum <= MAX_S64 - rewardUsdt);
      var total := (if payer in receivable then receivable[payer] else 0) + pay;
      var _ :- Check(InRange(total));
      available := available - reward;
      issued := issued + reward;
      accum := accum + rewardUsdt;
      receivable := receivable[payer := total];
      return Some(reward);
    }

    method SetMaxReward(allowed: bool, maxRewards: int) returns (r: Option<()>)
      modifies this
      ensures Applied(r, SetMaxSpec(old(Snapshot()), allowed, maxRewards), old(Snapshot()), Snapshot())
    {
      var _ :- Check(allowed && 0 < maxRewards <= MAX_AMOUNT);
      max := maxRewards;
      if available > maxRewards {
        available := maxRewards;
      }
      return Some(());
    }
  }
}
