/** Value in inviter funds: nothing is lost or paid twice, and a fund left alone pays exactly as many invitees as it can. */
module FundLedger {
  import opened Eosio
  import opened Sums
  import opened FundModel
  import AmountRoundTrip

  // ---------- Entries ----------

  /** Every fund has something left and something to give, and there is one per token. */
  ghost predicate EntriesOk(balances: Balances) {
    && (forall i | 0 <= i < |balances| :: balances[i].fund.available > 0 && balances[i].fund.reward > 0)
    && (forall i, j | 0 <= i < j < |balances| :: balances[i].token != balances[j].token)
  }

  /** No row is empty, and all its entries are live. */
  ghost predicate FundsOk(s: State) {
    forall inviter | inviter in s.rows :: s.rows[inviter] != [] && EntriesOk(s.rows[inviter])
  }

  function Amount(balances: Balances, token: Token): int {
    if balances == [] then 0
    else
      var last := balances[|balances| - 1];
      Amount(balances[..|balances| - 1], token) + if last.token == token then last.fund.available else 0
  }

  function Paid(outs: seq<Payout>, token: Token): int {
    if outs == [] then 0
    else
      var last := outs[|outs| - 1];
      Paid(outs[..|outs| - 1], token) + if last.token == token then last.amount else 0
  }

  lemma Appended(balances: Balances, e: Entry)
    ensures forall t: Token :: Amount(balances + [e], t) == Amount(balances, t) + if e.token == t then e.fund.available else 0
    ensures forall t: Token :: HasToken(balances + [e], t) <==> HasToken(balances, t) || e.token == t
    ensures EntriesOk(balances + [e]) <==> EntriesOk(balances) && e.fund.available > 0 && e.fund.reward > 0 && !HasToken(balances, e.token)
  {
    var all := balances + [e];
    assert all[..|balances|] == balances;
    forall t: Token
      ensures HasToken(all, t) <==> HasToken(balances, t) || e.token == t
    {
      if HasToken(balances, t) {
        var i :| 0 <= i < |balances| && balances[i].token == t;
        assert all[i].token == t;
      }
      assert all[|balances|] == e;
    }
    if EntriesOk(all) {
      assert forall i | 0 <= i < |balances| :: balances[i] == all[i];
      assert all[|balances|] == e;
    }
  }

  lemma LastOne(balances: Balances)
    requires balances != []
    ensures balances == balances[..|balances| - 1] + [balances[|balances| - 1]]
  {
  }

  lemma NoEntries()
    ensures forall t: Token :: Amount([], t) == 0 && !HasToken([], t)
    ensures EntriesOk([])
  {
  }

  lemma PaidMore(outs: seq<Payout>, o: Payout)
    ensures forall t: Token :: Paid(outs + [o], t) == Paid(outs, t) + if o.token == t then o.amount else 0
  {
    assert (outs + [o])[..|outs|] == outs;
  }

  lemma {:induction false} InsertFacts(balances: Balances, e: Entry)
    ensures forall t: Token :: Amount(Insert(balances, e), t) == Amount(balances, t) + if e.token == t then e.fund.available else 0
    ensures forall t: Token :: HasToken(Insert(balances, e), t) <==> HasToken(balances, t) || e.token == t
    ensures EntriesOk(balances) && e.fund.available > 0 && e.fund.reward > 0 && !HasToken(balances, e.token) ==> EntriesOk(Insert(balances, e))
    ensures Insert(balances, e) != []
    ensures forall t: Token :: t != e.token && HasToken(balances, t) ==> FundOf(Insert(balances, e), t) == FundOf(balances, t)
    ensures !HasToken(balances, e.token) ==> FundOf(Insert(balances, e), e.token) == e.fund
  {
    hide Amount, HasToken, EntriesOk, Precedes;
    if balances == [] || Precedes(balances[|balances| - 1].token, e.token) {
      Appended(balances, e);
      LastFund(balances, e);
    } else {
      var init, last := balances[..|balances| - 1], balances[|balances| - 1];
      InsertFacts(init, e);
      LastOne(balances);
      Appended(init, last);
      Appended(Insert(init, e), last);
      LastFund(init, last);
      LastFund(Insert(init, e), last);
    }
  }

  /** Looking up a fund past the last entry. */
  lemma LastFund(balances: Balances, e: Entry)
    ensures HasToken(balances + [e], e.token) && FundOf(balances + [e], e.token) == e.fund
    ensures forall t: Token :: t != e.token && HasToken(balances, t) ==> HasToken(balances + [e], t) && FundOf(balances + [e], t) == FundOf(balances, t)
  {
    Appended(balances, e);
    assert (balances + [e])[..|balances|] == balances;
    assert (balances + [e])[|balances|] == e;
  }

  lemma {:induction false} UpdateFacts(balances: Balances, token: Token, fund: Fund)
    requires EntriesOk(balances) && fund.available > 0 && fund.reward > 0
    ensures EntriesOk(Update(balances, token, fund)) && |Update(balances, token, fund)| == |balances|
    ensures forall t: Token :: HasToken(Update(balances, token, fund), t) <==> HasToken(balances, t)
    ensures forall t: Token :: Amount(Update(balances, token, fund), t) ==
                               if t == token && HasToken(balances, token) then fund.available else Amount(balances, t)
    ensures HasToken(balances, token) ==> FundOf(Update(balances, token, fund), token) == fund
    ensures forall t: Token :: t != token && HasToken(balances, t) ==> FundOf(Update(balances, token, fund), t) == FundOf(balances, t)
    ensures forall t: Token :: !HasToken(balances, t) ==> Amount(balances, t) == 0
  {
    hide Amount, HasToken, EntriesOk;
    NoEntries();
    if balances != [] {
      var init, last := balances[..|balances| - 1], balances[|balances| - 1];
      var new_ := if last.token == token then Entry(token, fund) else last;
      LastOne(balances);
      Appended(init, last);
      UpdateFacts(init, token, fund);
      Appended(Update(init, token, fund), new_);
      LastFund(init, last);
      LastFund(Update(init, token, fund), new_);
    }
  }

  /** The amount of a token is what its entry has available. */
  lemma {:induction false} AmountIsAvailable(balances: Balances, token: Token)
    requires EntriesOk(balances)
    ensures Amount(balances, token) == if HasToken(balances, token) then FundOf(balances, token).available else 0
  {
    hide Amount, HasToken, EntriesOk;
    NoEntries();
    if balances != [] {
      var init, last := balances[..|balances| - 1], balances[|balances| - 1];
      LastOne(balances);
      Appended(init, last);
      AmountIsAvailable(init, token);
      LastFund(init, last);
    }
  }

  // ---------- One registration ----------

  /** Erasing while iterating skips no entry and pays none twice: what is left plus what is paid is what there was, every entry
      left is live, and every payout is positive. */
  lemma {:induction false} ServeConserves(balances: Balances, invitee: Name, now: nat)
    requires EntriesOk(balances)
    ensures var r := Serve(balances, invitee, now);
            && EntriesOk(r.0)
            && (forall t: Token :: Amount(r.0, t) + Paid(r.1, t) == Amount(balances, t))
            && (forall t: Token :: HasToken(r.0, t) ==> HasToken(balances, t))
            && (forall i | 0 <= i < |r.1| :: r.1[i].amount > 0)
  {
    hide Amount, HasToken, EntriesOk, Paid, Eligible;
    NoEntries();
    NothingPaid();
    if balances != [] {
      var init, last := balances[..|balances| - 1], balances[|balances| - 1];
      LastOne(balances);
      Appended(init, last);
      ServeConserves(init, invitee, now);
      var before := Serve(init, invitee, now);
      if !Eligible(last.fund, now) {
        Appended(before.0, last);
      } else {
        var pay := Share(last.fund);
        Appended(before.0, last.(fund := last.fund.(available := last.fund.available - pay)));
        PaidMore(before.1, Payout(last.token, invitee, pay));
      }
    }
  }

  lemma NothingPaid()
    ensures forall t: Token :: Paid([], t) == 0
  {
  }

  /** One registration pays each eligible fund's share to the invitee and leaves the others alone. */
  lemma {:induction false} ServeOneFund(balances: Balances, invitee: Name, now: nat, token: Token)
    requires EntriesOk(balances) && HasToken(balances, token)
    ensures var r := Serve(balances, invitee, now);
            var fund := FundOf(balances, token);
            if !Eligible(fund, now) then
              HasToken(r.0, token) && FundOf(r.0, token) == fund && Paid(r.1, token) == 0
            else
              && Paid(r.1, token) == Share(fund)
              && (HasToken(r.0, token) <==> fund.available > Share(fund))
              && (HasToken(r.0, token) ==> FundOf(r.0, token) == fund.(available := fund.available - Share(fund)))
  {
    hide Amount, HasToken, EntriesOk, Paid, Eligible;
    NoEntries();
    var init, last := balances[..|balances| - 1], balances[|balances| - 1];
    LastOne(balances);
    Appended(init, last);
    LastFund(init, last);
    var before := Serve(init, invitee, now);
    ServeConserves(init, invitee, now);
    if HasToken(init, token) {
      ServeOneFund(init, invitee, now, token);
    } else {
      NotServed(init, invitee, now, token);
    }
    var pay := Share(last.fund);
    var rest := last.(fund := last.fund.(available := last.fund.available - pay));
    PaidMore(before.1, Payout(last.token, invitee, pay));
    Appended(before.0, last);
    Appended(before.0, rest);
    LastFund(before.0, last);
    LastFund(before.0, rest);
  }

  lemma {:induction false} NotServed(balances: Balances, invitee: Name, now: nat, token: Token)
    requires !HasToken(balances, token)
    ensures Paid(Serve(balances, invitee, now).1, token) == 0
  {
    hide HasToken, Eligible, EntriesOk, Paid;
    NothingPaid();
    if balances != [] {
      var init, last := balances[..|balances| - 1], balances[|balances| - 1];
      LastOne(balances);
      Appended(init, last);
      NotServed(init, invitee, now, token);
      PaidMore(Serve(init, invitee, now).1, Payout(last.token, invitee, Share(last.fund)));
    }
  }

  // ---------- Reward units ----------

  lemma {:induction false} PowerIsExact(precision: nat)
    requires precision <= 18
    ensures PowerWrapped(precision) == Pow10(precision)
  {
    hide WrapS64;
    if precision > 0 {
      PowerIsExact(precision - 1);
      AmountRoundTrip.Pow10Fits(precision);
      WrapIff(Pow10(precision));
    }
  }

  /** The reward of a memo is converted to units exactly if and only if the product fits in 64 bits; the range check sees only
      the result. */
  lemma RewardUnitsExactIff(raw: S64, precision: nat)
    requires precision <= 18
    ensures RewardUnits(raw, precision) == raw * Pow10(precision) <==> -TWO_63 <= raw * Pow10(precision) < TWO_63
  {
    PowerIsExact(precision);
    WrapIff(raw * Pow10(precision));
  }

  lemma WrapIff(x: int)
    ensures WrapS64(x) == x <==> -TWO_63 <= x < TWO_63
  {
  }

  // ---------- All funds ----------

  ghost function HeldIn(s: State, token: Token): map<Name, int> {
    map inviter | inviter in s.rows :: Amount(s.rows[inviter], token)
  }

  /** What the contract still owes in a token, over every inviter. */
  ghost function Held(s: State, token: Token): int { Sum(HeldIn(s, token)) }

  lemma RowSet(s: State, inviter: Name, balances: Balances)
    ensures forall t: Token {:trigger Held(s.(rows := s.rows[inviter := balances]), t)} ::
              Held(s.(rows := s.rows[inviter := balances]), t) == Held(s, t) + Amount(balances, t) - Amount(BalancesOf(s, inviter), t)
  {
    forall t: Token
      ensures Held(s.(rows := s.rows[inviter := balances]), t) == Held(s, t) + Amount(balances, t) - Amount(BalancesOf(s, inviter), t)
    {
      assert HeldIn(s.(rows := s.rows[inviter := balances]), t) == HeldIn(s, t)[inviter := Amount(balances, t)];
      SumSet(HeldIn(s, t), inviter, Amount(balances, t));
    }
  }

  lemma RowErased(s: State, inviter: Name)
    ensures forall t: Token {:trigger Held(s.(rows := s.rows - {inviter}), t)} ::
              Held(s.(rows := s.rows - {inviter}), t) == Held(s, t) - Amount(BalancesOf(s, inviter), t)
  {
    forall t: Token
      ensures Held(s.(rows := s.rows - {inviter}), t) == Held(s, t) - Amount(BalancesOf(s, inviter), t)
    {
      assert HeldIn(s.(rows := s.rows - {inviter}), t) == HeldIn(s, t) - {inviter};
      if inviter in s.rows {
        SumRemove(HeldIn(s, t), inviter);
      } else {
        assert HeldIn(s, t) - {inviter} == HeldIn(s, t);
      }
    }
  }

  // ---------- Steps ----------

  function Deposited(act: Action, token: Token): int {
    if act.Refuel? && Token(act.quantity.sym, act.bank) == token then act.quantity.amount else 0
  }

  /** Value in is value kept plus value out, for every token; and all funds stay live. */
  ghost predicate Balanced(s: State, t: State, outs: seq<Payout>, act: Action) {
    && FundsOk(t)
    && (forall token: Token {:trigger Held(t, token)} :: Held(t, token) + Paid(outs, token) == Held(s, token) + Deposited(act, token))
  }

  lemma MergeBalances(s: State, inviter: Name, token: Token, more: Fund)
    requires FundsOk(s) && more.available > 0 && MergeSpec(s, inviter, token, more).Some?
    ensures var r := MergeSpec(s, inviter, token, more).value;
            && FundsOk(r)
            && (forall t: Token {:trigger Held(r, t)} :: Held(r, t) == Held(s, t) + if t == token then more.available else 0)
  {
    hide Amount, HasToken, EntriesOk, Held, Insert, Update;
    NoEntries();
    var balances := BalancesOf(s, inviter);
    if !HasToken(balances, token) {
      InsertFacts(balances, Entry(token, more));
      RowSet(s, inviter, Insert(balances, Entry(token, more)));
    } else {
      var old_ := FundOf(balances, token);
      EntryLive(balances, token);
      UpdateFacts(balances, token, Merge(old_, more));
      AmountIsAvailable(balances, token);
      RowSet(s, inviter, Update(balances, token, Merge(old_, more)));
    }
  }

  lemma EntryLive(balances: Balances, token: Token)
    requires EntriesOk(balances) && HasToken(balances, token)
    ensures balances != [] && FundOf(balances, token).available > 0 && FundOf(balances, token).reward > 0
  {
  }

  lemma RefuelBalances(s: State, act: Action, now: nat)
    requires FundsOk(s) && act.Refuel? && Step(s, act, now).Some?
    ensures var r := Step(s, act, now).value; Balanced(s, r.0, r.1, act)
  {
    hide FundsOk, Held, RewardUnits, InRange, MergeSpec;
    NothingPaid();
    var token := Token(act.quantity.sym, act.bank);
    match act.terms {
      case NoTerms => MergeBalances(s, act.from, token, Fund("", act.quantity.amount, 0, 0, 0));
      case Terms(title, reward, start, end) =>
        MergeBalances(s, act.from, token, Fund(title, act.quantity.amount, RewardUnits(reward, act.quantity.sym.precision), start, end));
    }
  }

  lemma RegisterBalances(s: State, act: Action, now: nat)
    requires FundsOk(s) && act.Register? && Step(s, act, now).Some?
    ensures var r := Step(s, act, now).value; Balanced(s, r.0, r.1, act)
  {
    hide EntriesOk, Held, Amount, Serve, Paid;
    NothingPaid();
    NoEntries();
    if act.inviter in s.rows {
      var served := Serve(s.rows[act.inviter], act.invitee, now);
      ServeConserves(s.rows[act.inviter], act.invitee, now);
      RowSet(s, act.inviter, served.0);
      RowErased(s, act.inviter);
    }
  }

  lemma {:induction false} RefundsPayAll(balances: Balances, inviter: Name)
    requires EntriesOk(balances)
    ensures forall t: Token :: Paid(Refunds(balances, inviter), t) == Amount(balances, t)
  {
    hide EntriesOk, Amount, HasToken, Paid;
    NoEntries();
    NothingPaid();
    if balances != [] {
      var init, last := balances[..|balances| - 1], balances[|balances| - 1];
      LastOne(balances);
      Appended(init, last);
      RefundsPayAll(init, inviter);
      PaidMore(Refunds(init, inviter), Payout(last.token, inviter, last.fund.available));
    }
  }

  lemma OtherBalances(s: State, act: Action, now: nat)
    requires FundsOk(s) && (act.SetInfo? || act.Redeem?) && Step(s, act, now).Some?
    ensures var r := Step(s, act, now).value; Balanced(s, r.0, r.1, act)
  {
    hide EntriesOk, Held, Amount, Paid, HasToken, Update, Refunds, AllEnded;
    NothingPaid();
    var balances := s.rows[act.owner];
    if act.Redeem? {
      RefundsPayAll(balances, act.owner);
      RowErased(s, act.owner);
    } else {
      var new_ := Step(s, act, now).value.0.rows[act.owner];
      EntryLive(balances, act.token);
      AmountIsAvailable(balances, act.token);
      var titled := if act.title != "" then FundOf(balances, act.token).(title := act.title) else FundOf(balances, act.token);
      var started := if act.start.Present? then titled.(start := act.start.value) else titled;
      var ended := if act.end.Present? then started.(end := act.end.value) else started;
      UpdateFacts(balances, act.token, ended);
      RowSet(s, act.owner, new_);
    }
  }

  lemma StepBalances(s: State, act: Action, now: nat)
    requires FundsOk(s) && Step(s, act, now).Some?
    ensures var r := Step(s, act, now).value; Balanced(s, r.0, r.1, act)
  {
    hide Balanced, Step;
    match act
    case Refuel(_, _, _, _) => RefuelBalances(s, act, now);
    case Register(_, _, _) => RegisterBalances(s, act, now);
    case SetInfo(_, _, _, _, _, _) => OtherBalances(s, act, now);
    case Redeem(_, _) => OtherBalances(s, act, now);
    case SetRegistrar(_, _) => SameFunds(s, act, now);
  }

  lemma SameFunds(s: State, act: Action, now: nat)
    requires FundsOk(s) && act.SetRegistrar? && Step(s, act, now).Some?
    ensures var r := Step(s, act, now).value; Balanced(s, r.0, r.1, act)
  {
    NothingPaid();
    var t := Step(s, act, now).value.0;
    assert forall token: Token :: HeldIn(t, token) == HeldIn(s, token);
  }

  // ---------- Runs ----------

  /** Deposits of a token that the run accepted. */
  ghost function TotalDeposited(s: State, trace: Trace, token: Token): int {
    if trace == [] then 0
    else
      var init, last := trace[..|trace| - 1], trace[|trace| - 1];
      TotalDeposited(s, init, token) + if Step(Run(s, init), last.0, last.1).Some? then Deposited(last.0, token) else 0
  }

  /** What the run sent out of a token by actions of one kind: to invitees, or back to inviters. */
  ghost function TotalPaid(s: State, trace: Trace, token: Token, redeemed: bool): int {
    if trace == [] then 0
    else
      var init, last := trace[..|trace| - 1], trace[|trace| - 1];
      var r := Step(Run(s, init), last.0, last.1);
      TotalPaid(s, init, token, redeemed) + if r.Some? && last.0.Redeem? == redeemed then Paid(r.value.1, token) else 0
  }

  function NoFunds(registrar: Name): State { State(registrar, map[]) }

  /** Over every run and for every token, deposits = what is still available + paid to invitees + redeemed; and every stored fund
      has a positive balance and a positive reward, with no record left empty. */
  lemma {:induction false} RunConserves(registrar: Name, trace: Trace, token: Token)
    ensures var s := NoFunds(registrar);
            && FundsOk(Run(s, trace))
            && TotalDeposited(s, trace, token) == Held(Run(s, trace), token) + TotalPaid(s, trace, token, false) + TotalPaid(s, trace, token, true)
  {
    hide FundsOk, Held, Step, Paid, Deposited;
    var s := NoFunds(registrar);
    if trace == [] {
      StartsEmpty(registrar, token);
    } else {
      var init, last := trace[..|trace| - 1], trace[|trace| - 1];
      RunConserves(registrar, init, token);
      if Step(Run(s, init), last.0, last.1).Some? {
        StepBalances(Run(s, init), last.0, last.1);
      }
    }
  }

  lemma StartsEmpty(registrar: Name, token: Token)
    ensures FundsOk(NoFunds(registrar)) && Held(NoFunds(registrar), token) == 0
  {
    assert HeldIn(NoFunds(registrar), token) == map[];
  }
}
