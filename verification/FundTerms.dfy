/** The terms of inviter funds: who may close them and when, what a further deposit changes, and in which order they pay. */
module FundTerms {
  import opened Eosio
  import opened FundModel
  import opened FundLedger
  import opened FundPayouts

  // ---------- Redemption ----------

  lemma {:induction false} RefundsAre(balances: Balances, inviter: Name)
    requires EntriesOk(balances)
    ensures Refunds(balances, inviter) == seq(|balances|, i requires 0 <= i < |balances| => Payout(balances[i].token, inviter, balances[i].fund.available))
  {
    if balances != [] {
      RefundsAre(balances[..|balances| - 1], inviter);
    }
  }

  /** Funds are redeemed by their inviter, by the registrar, or by anyone once every one of them has ended; all that is left goes to the
      inviter, one payment a fund, and only this record is closed. */
  lemma RedeemTerms(s: State, oper: Name, inviter: Name, now: nat)
    requires FundsOk(s)
    ensures var r := RedeemSpec(s, oper, inviter, now);
            if && inviter in s.rows
               && (|| oper == inviter
                   || (s.registrar != 0 && oper == s.registrar)
                   || forall i | 0 <= i < |s.rows[inviter]| :: s.rows[inviter][i].fund.end <= now)
            then var b := s.rows[inviter];
                 r == Some((s.(rows := s.rows - {inviter}),
                            seq(|b|, i requires 0 <= i < |b| => Payout(b[i].token, inviter, b[i].fund.available))))
            else r.Abort?
  {
    if inviter in s.rows {
      RefundsAre(s.rows[inviter], inviter);
    }
  }

  /** The registrar changes by the contract's own `setregistrar` only. */
  lemma RegistrarTerms(s: State, act: Action, now: nat)
    requires Step(s, act, now).Some?
    ensures var t := Step(s, act, now).value.0;
            if act.SetRegistrar? then act.allowed && t == s.(registrar := act.registrar) else t == s.(rows := t.rows)
  {
    hide Serve, Insert, Refunds, RewardUnits, AllEnded, Update, HasToken, FundOf, InRange;
    var t := Step(s, act, now).value.0;
    match act
    case Refuel(_, _, _, _) => assert t == s.(rows := t.rows);
    case _ =>
  }

  // ---------- Deposits ----------

  /** The state differs at most in the fund that `inviter` keeps in `token`. */
  ghost predicate OnlyFund(s: State, t: State, inviter: Name, token: Token) {
    && t == s.(rows := s.rows[inviter := BalancesOf(t, inviter)])
    && HasToken(BalancesOf(t, inviter), token)
    && forall other: Token | other != token :: Unchanged(BalancesOf(s, inviter), BalancesOf(t, inviter), other)
  }

  lemma MergeTerms(s: State, inviter: Name, token: Token, more: Fund)
    requires FundsOk(s) && more.available > 0
    ensures var b := BalancesOf(s, inviter); var r := MergeSpec(s, inviter, token, more);
            if HasToken(b, token) then
              var was := FundOf(b, token);
              if was.available + more.available > MAX_AMOUNT then r.Abort?
              else
                && r.Some? && OnlyFund(s, r.value, inviter, token)
                && var now_ := FundOf(BalancesOf(r.value, inviter), token);
                && now_.available == was.available + more.available
                && now_.title == (if more.title == "" then was.title else more.title)
                && now_.reward == (if more.reward <= 0 then was.reward else more.reward)
                && now_.start == (if more.start == 0 then was.start else more.start)
                && now_.end == (if more.end == 0 then was.end else more.end)
            else if more.reward > 0 && 0 < more.start < more.end then
              r.Some? && OnlyFund(s, r.value, inviter, token) && FundOf(BalancesOf(r.value, inviter), token) == more
            else r.Abort?
  {
    hide Amount, HasToken, EntriesOk, Insert, Update;
    NoEntries();
    var balances := BalancesOf(s, inviter);
    if HasToken(balances, token) {
      EntryLive(balances, token);
      UpdateFacts(balances, token, Merge(FundOf(balances, token), more));
    } else {
      InsertFacts(balances, Entry(token, more));
    }
  }

  /** A deposit without terms adds to a fund that is there and changes none of its terms. */
  lemma TopUpTerms(s: State, from: Name, bank: Name, quantity: Asset, now: nat)
    requires FundsOk(s)
    ensures var b := BalancesOf(s, from); var token := Token(quantity.sym, bank);
            var r := RefuelSpec(s, from, bank, quantity, NoTerms, now);
            if 0 < quantity.amount && HasToken(b, token) && FundOf(b, token).available + quantity.amount <= MAX_AMOUNT then
              && r.Some? && OnlyFund(s, r.value, from, token)
              && FundOf(BalancesOf(r.value, from), token) == FundOf(b, token).(available := FundOf(b, token).available + quantity.amount)
            else r.Abort?
  {
    hide MergeSpec, OnlyFund, HasToken, FundsOk;
    if quantity.amount > 0 {
      MergeTerms(s, from, Token(quantity.sym, bank), Fund("", quantity.amount, 0, 0, 0));
    }
  }

  /** A deposit with terms opens a fund on them, or adds to one that is there and sets its window, its reward, and its title if the terms
      have one. The reward is cut to 64 bits; one that is cut to nothing opens no fund and leaves a reward as it was. */
  lemma DepositWithTerms(s: State, from: Name, bank: Name, quantity: Asset, terms: Terms, now: nat)
    requires FundsOk(s) && terms.Terms? && quantity.sym.precision <= 18
    ensures var b := BalancesOf(s, from); var token := Token(quantity.sym, bank);
            var units := WrapS64(terms.reward * Pow10(quantity.sym.precision));
            var r := RefuelSpec(s, from, bank, quantity, terms, now);
            if && |terms.title| <= 64 && terms.reward > 0 && now < terms.start < terms.end
               && quantity.amount > 0 && -MAX_AMOUNT <= units <= MAX_AMOUNT && units <= quantity.amount
               && (if HasToken(b, token) then FundOf(b, token).available + quantity.amount <= MAX_AMOUNT else units > 0)
            then
              && r.Some? && OnlyFund(s, r.value, from, token)
              && FundOf(BalancesOf(r.value, from), token)
                 == Fund(if terms.title == "" && HasToken(b, token) then FundOf(b, token).title else terms.title,
                         quantity.amount + (if HasToken(b, token) then FundOf(b, token).available else 0),
                         if units <= 0 && HasToken(b, token) then FundOf(b, token).reward else units,
                         terms.start, terms.end)
            else r.Abort?
  {
    hide MergeSpec, OnlyFund, HasToken, FundsOk, Pow10, PowerWrapped;
    PowerIsExact(quantity.sym.precision);
    if quantity.amount > 0 {
      MergeTerms(s, from, Token(quantity.sym, bank),
                 Fund(terms.title, quantity.amount, WrapS64(terms.reward * Pow10(quantity.sym.precision)), terms.start, terms.end));
    }
  }

  /** `setfundinfo` writes the title, the start and the end that it is given, and no amount. */
  lemma SetInfoTerms(s: State, allowed: bool, inviter: Name, token: Token, title: string, start: Maybe, end: Maybe)
    requires FundsOk(s)
    ensures var b := BalancesOf(s, inviter);
            var r := SetInfoSpec(s, allowed, inviter, token, title, start, end);
            if && allowed && HasToken(b, token)
               && (end.Present? ==> end.value > if start.Present? then start.value else FundOf(b, token).start)
            then
              && r.Some? && OnlyFund(s, r.value, inviter, token)
              && FundOf(BalancesOf(r.value, inviter), token)
                 == FundOf(b, token).(title := if title == "" then FundOf(b, token).title else title,
                                      start := if start.Present? then start.value else FundOf(b, token).start,
                                      end := if end.Present? then end.value else FundOf(b, token).end)
            else r.Abort?
  {
    hide Amount, HasToken, EntriesOk, Update;
    NoEntries();
    var b := BalancesOf(s, inviter);
    if HasToken(b, token) {
      EntryLive(b, token);
      UpdateFacts(b, token, FundOf(b, token).(title := if title == "" then FundOf(b, token).title else title,
                                              start := if start.Present? then start.value else FundOf(b, token).start,
                                              end := if end.Present? then end.value else FundOf(b, token).end));
    }
  }

  // ---------- Registration ----------

  /** What a fund pays one invitee at `now`: its reward within its window, or what is left of it. */
  function Gives(fund: Fund, now: nat): int {
    if fund.start <= now <= fund.end then if fund.reward <= fund.available then fund.reward else fund.available else 0
  }

  /** One fund before and after a registration. */
  ghost predicate PaidOnce(b: Balances, c: Balances, outs: seq<Payout>, token: Token, now: nat) {
    if HasToken(b, token) then
      var fund := FundOf(b, token);
      && Paid(outs, token) == Gives(fund, now)
      && (HasToken(c, token) <==> Gives(fund, now) < fund.available)
      && (HasToken(c, token) ==> FundOf(c, token) == fund.(available := fund.available - Gives(fund, now)))
    else !HasToken(c, token) && Paid(outs, token) == 0
  }

  /** An allowed registration by another commits, and every fund of the inviter, and no other, pays the invitee what it gives; a fund with
      nothing left is erased, and so is a record without funds. */
  lemma RegisterTerms(s: State, inviter: Name, invitee: Name, allowed: bool, now: nat)
    requires FundsOk(s)
    ensures var r := RegisterSpec(s, inviter, invitee, allowed, now);
            && (r.Some? <==> allowed && inviter != invitee)
            && (r.Some? ==>
                  && FundsOk(r.value.0)
                  && (forall i | i != inviter :: BalancesOf(r.value.0, i) == BalancesOf(s, i))
                  && (forall i | 0 <= i < |r.value.1| :: r.value.1[i].to == invitee)
                  && (forall token: Token :: PaidOnce(BalancesOf(s, inviter), BalancesOf(r.value.0, inviter), r.value.1, token, now)))
  {
    hide HasToken, EntriesOk, Serve, Paid, FundOf;
    NoEntries();
    NothingPaid();
    var b := BalancesOf(s, inviter);
    if inviter in s.rows && allowed && inviter != invitee {
      InviteesArePaid(b, invitee, now);
      ServeConserves(b, invitee, now);
      forall token: Token
        ensures PaidOnce(b, Serve(b, invitee, now).0, Serve(b, invitee, now).1, token, now)
      {
        if HasToken(b, token) {
          EntryLive(b, token);
          ServeOneFund(b, invitee, now, token);
        } else {
          NotServed(b, invitee, now, token);
        }
      }
    }
  }

  // ---------- Key order ----------

  /** No entry comes before one with a smaller key, so funds pay in key order. */
  ghost predicate InKeyOrder(balances: Balances) {
    forall i, j | 0 <= i < j < |balances| :: !Precedes(balances[j].token, balances[i].token)
  }

  ghost predicate NoneAfter(balances: Balances, t: Token) {
    forall i | 0 <= i < |balances| :: !Precedes(t, balances[i].token)
  }

  ghost predicate RowsInOrder(s: State) {
    forall inviter | inviter in s.rows :: InKeyOrder(s.rows[inviter])
  }

  lemma PrecedesIsOrder(a: Token, b: Token, c: Token)
    ensures Precedes(a, b) ==> !Precedes(b, a)
    ensures !Precedes(b, a) && !Precedes(c, b) ==> !Precedes(c, a)
  {
    hide CodeValue;
  }

  lemma LastInOrder(init: Balances, e: Entry)
    ensures InKeyOrder(init + [e]) <==> InKeyOrder(init) && NoneAfter(init, e.token)
    ensures forall t: Token :: NoneAfter(init + [e], t) <==> NoneAfter(init, t) && !Precedes(t, e.token)
  {
    hide Precedes;
    var all := init + [e];
    assert forall i | 0 <= i < |init| :: all[i] == init[i];
    assert all[|init|] == e;
    forall t: Token
      ensures NoneAfter(all, t) <==> NoneAfter(init, t) && !Precedes(t, e.token)
    {
    }
  }

  lemma {:induction false} InsertKeepsOrder(balances: Balances, e: Entry)
    requires InKeyOrder(balances)
    ensures InKeyOrder(Insert(balances, e))
    ensures forall t: Token :: NoneAfter(balances, t) && !Precedes(t, e.token) ==> NoneAfter(Insert(balances, e), t)
  {
    hide Precedes;
    if balances == [] {
    } else {
      var init, last := balances[..|balances| - 1], balances[|balances| - 1];
      LastOne(balances);
      LastInOrder(init, last);
      if Precedes(last.token, e.token) {
        PrecedesIsOrder(last.token, e.token, e.token);
        forall i | 0 <= i < |balances|
          ensures !Precedes(e.token, balances[i].token)
        {
          if i < |init| {
            PrecedesIsOrder(init[i].token, last.token, e.token);
          }
        }
        LastInOrder(balances, e);
      } else {
        InsertKeepsOrder(init, e);
        LastInOrder(Insert(init, e), last);
      }
    }
  }

  lemma {:induction false} UpdateKeepsOrder(balances: Balances, token: Token, fund: Fund)
    ensures |Update(balances, token, fund)| == |balances|
    ensures forall i | 0 <= i < |balances| :: Update(balances, token, fund)[i].token == balances[i].token
  {
    if balances != [] {
      UpdateKeepsOrder(balances[..|balances| - 1], token, fund);
    }
  }

  lemma {:induction false} ServeKeepsOrder(balances: Balances, invitee: Name, now: nat)
    requires InKeyOrder(balances)
    ensures InKeyOrder(Serve(balances, invitee, now).0)
    ensures forall t: Token :: NoneAfter(balances, t) ==> NoneAfter(Serve(balances, invitee, now).0, t)
  {
    hide Precedes, Eligible, Share;
    if balances != [] {
      var init, last := balances[..|balances| - 1], balances[|balances| - 1];
      LastOne(balances);
      LastInOrder(init, last);
      ServeKeepsOrder(init, invitee, now);
      var kept := Serve(init, invitee, now).0;
      LastInOrder(kept, last);
      LastInOrder(kept, last.(fund := last.fund.(available := last.fund.available - Share(last.fund))));
    }
  }

  lemma MergeKeepsOrder(s: State, inviter: Name, token: Token, more: Fund)
    requires RowsInOrder(s) && MergeSpec(s, inviter, token, more).Some?
    ensures RowsInOrder(MergeSpec(s, inviter, token, more).value)
  {
    hide Precedes, Insert, Update;
    var b := BalancesOf(s, inviter);
    InsertKeepsOrder(b, Entry(token, more));
    if HasToken(b, token) {
      UpdateKeepsOrder(b, token, Merge(FundOf(b, token), more));
    }
  }

  lemma StepKeepsOrder(s: State, act: Action, now: nat)
    requires RowsInOrder(s) && Step(s, act, now).Some?
    ensures RowsInOrder(Step(s, act, now).value.0)
  {
    hide Precedes, Update, Serve, MergeSpec, Refunds, RewardUnits, InKeyOrder, AllEnded;
    var token := if act.Refuel? then Token(act.quantity.sym, act.bank) else Token(Symbol("", 0), 0);
    match act {
      case Refuel(from, bank, quantity, terms) =>
        match terms {
          case NoTerms => MergeKeepsOrder(s, from, token, Fund("", quantity.amount, 0, 0, 0));
          case Terms(title, reward, start, end) =>
            MergeKeepsOrder(s, from, token, Fund(title, quantity.amount, RewardUnits(reward, quantity.sym.precision), start, end));
        }
      case Register(inviter, invitee, _) =>
        if inviter in s.rows {
          ServeKeepsOrder(s.rows[inviter], invitee, now);
        }
      case SetInfo(_, owner, other, title, start, end) =>
        var b, c := s.rows[owner], Step(s, act, now).value.0.rows[owner];
        var titled := if title != "" then FundOf(b, other).(title := title) else FundOf(b, other);
        var started := if start.Present? then titled.(start := start.value) else titled;
        UpdateKeepsOrder(b, other, if end.Present? then started.(end := end.value) else started);
        SameTokens(b, c);
      case Redeem(_, _) =>
      case SetRegistrar(_, _) =>
    }
  }

  lemma SameTokens(b: Balances, c: Balances)
    requires InKeyOrder(b) && |b| == |c| && forall i | 0 <= i < |b| :: c[i].token == b[i].token
    ensures InKeyOrder(c)
  {
    hide Precedes;
  }

  /** In every reachable state each record is in key order. */
  lemma {:induction false} ReachableInOrder(registrar: Name, trace: Trace)
    ensures RowsInOrder(Run(NoFunds(registrar), trace))
  {
    hide Step;
    if trace != [] {
      var init, last := trace[..|trace| - 1], trace[|trace| - 1];
      ReachableInOrder(registrar, init);
      if Step(Run(NoFunds(registrar), init), last.0, last.1).Some? {
        StepKeepsOrder(Run(NoFunds(registrar), init), last.0, last.1);
      }
    }
  }
}
