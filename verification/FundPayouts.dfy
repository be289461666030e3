/** How many invitees a fund pays: over any run that leaves it alone, ceil(balance / reward) of them, for exactly its balance. */
module FundPayouts {
  import opened Eosio
  import opened FundModel
  import opened FundLedger
  import SafeMath

  /** Actions that change a fund other than by rewarding an invitee. */
  predicate Touches(act: Action, inviter: Name, token: Token) {
    match act
    case Refuel(from, bank, quantity, _) => from == inviter && Token(quantity.sym, bank) == token
    case Register(_, _, _) => false
    case SetInfo(_, owner, t, _, _, _) => owner == inviter && t == token
    case Redeem(_, owner) => owner == inviter
    case SetRegistrar(_, _) => false
  }

  /** A redemption that neither the inviter nor the registrar asks for, before `end`. */
  predicate ByStranger(s: State, act: Action, now: nat, inviter: Name, end: nat) {
    act.Redeem? && act.owner == inviter && act.oper != inviter && !(s.registrar != 0 && act.oper == s.registrar) && now < end
  }

  /** Nobody who may changes the fund: others may refuel, change and redeem theirs, and may try to redeem this one before it ends. */
  predicate LetsBe(s: State, act: Action, now: nat, inviter: Name, token: Token, end: nat) {
    !Touches(act, inviter, token) || ByStranger(s, act, now, inviter, end)
  }

  /** So it goes at every step of a run, whoever is the registrar then. */
  ghost predicate LetBe(s: State, trace: Trace, inviter: Name, token: Token, end: nat) {
    if trace == [] then true
    else
      var init, last := trace[..|trace| - 1], trace[|trace| - 1];
      LetBe(s, init, inviter, token, end) && LetsBe(Run(s, init), last.0, last.1, inviter, token, end)
  }

  /** The committed registrations under `inviter` within the window. */
  ghost function Invitees(s: State, trace: Trace, inviter: Name, start: nat, end: nat): nat {
    if trace == [] then 0
    else
      var init, last := trace[..|trace| - 1], trace[|trace| - 1];
      Invitees(s, init, inviter, start, end)
      + if last.0.Register? && last.0.inviter == inviter && start <= last.1 <= end && Step(Run(s, init), last.0, last.1).Some? then 1 else 0
  }

  /** What the fund of `inviter` in `token` paid out over a run. */
  ghost function PaidBy(s: State, trace: Trace, inviter: Name, token: Token): int {
    if trace == [] then 0
    else
      var init, last := trace[..|trace| - 1], trace[|trace| - 1];
      var r := Step(Run(s, init), last.0, last.1);
      PaidBy(s, init, inviter, token) + if r.Some? && last.0.Register? && last.0.inviter == inviter then Paid(r.value.1, token) else 0
  }

  // ---------- Who is paid ----------

  lemma {:induction false} InviteesArePaid(balances: Balances, invitee: Name, now: nat)
    ensures forall i | 0 <= i < |Serve(balances, invitee, now).1| :: Serve(balances, invitee, now).1[i].to == invitee
  {
    hide Eligible, Share;
    if balances != [] {
      InviteesArePaid(balances[..|balances| - 1], invitee, now);
    }
  }

  lemma {:induction false} InvitersAreRefunded(balances: Balances, inviter: Name)
    ensures forall i | 0 <= i < |Refunds(balances, inviter)| :: Refunds(balances, inviter)[i].to == inviter
  {
    if balances != [] {
      InvitersAreRefunded(balances[..|balances| - 1], inviter);
    }
  }

  /** Funds flow only to the invitee on registration and back to the inviter on redemption, whoever asks for it. */
  lemma RecipientsAre(s: State, act: Action, now: nat)
    requires Step(s, act, now).Some?
    ensures forall i | 0 <= i < |Step(s, act, now).value.1| ::
              match act
              case Register(_, invitee, _) => Step(s, act, now).value.1[i].to == invitee
              case Redeem(_, owner) => Step(s, act, now).value.1[i].to == owner
              case _ => false
  {
    hide Serve, Refunds, AllEnded, Insert, Update, HasToken, FundOf, RewardUnits, MergeSpec, InRange;
    match act
    case Register(inviter, invitee, _) => InviteesArePaid(BalancesOf(s, inviter), invitee, now);
    case Redeem(_, owner) => InvitersAreRefunded(BalancesOf(s, owner), owner);
    case _ =>
  }

  // ---------- One action ----------

  lemma AnotherRow(s: State, act: Action, now: nat, inviter: Name)
    requires Step(s, act, now).Some?
    requires match act
             case Refuel(from, _, _, _) => from != inviter
             case Register(i, _, _) => i != inviter
             case SetInfo(_, owner, _, _, _, _) => owner != inviter
             case Redeem(_, owner) => owner != inviter
             case SetRegistrar(_, _) => true
    ensures BalancesOf(Step(s, act, now).value.0, inviter) == BalancesOf(s, inviter)
  {
    hide Serve, Insert, Update, Refunds, HasToken, FundOf, AllEnded, RewardUnits, InRange;
  }

  /** The same fund, or still none. */
  ghost predicate Unchanged(b: Balances, c: Balances, token: Token) {
    && (HasToken(c, token) <==> HasToken(b, token))
    && (HasToken(b, token) ==> FundOf(c, token) == FundOf(b, token))
  }

  lemma MergeElsewhere(s: State, inviter: Name, other: Token, more: Fund, token: Token)
    requires FundsOk(s) && other != token && more.available > 0 && MergeSpec(s, inviter, other, more).Some?
    ensures Unchanged(BalancesOf(s, inviter), BalancesOf(MergeSpec(s, inviter, other, more).value, inviter), token)
  {
    hide Amount, HasToken, EntriesOk, Insert, Update;
    NoEntries();
    var balances := BalancesOf(s, inviter);
    if !HasToken(balances, other) {
      InsertFacts(balances, Entry(other, more));
    } else {
      EntryLive(balances, other);
      UpdateFacts(balances, other, Merge(FundOf(balances, other), more));
    }
  }

  lemma OtherTokens(s: State, act: Action, now: nat, inviter: Name, token: Token)
    requires FundsOk(s) && Step(s, act, now).Some? && !act.Register? && !Touches(act, inviter, token)
    ensures Unchanged(BalancesOf(s, inviter), BalancesOf(Step(s, act, now).value.0, inviter), token)
  {
    hide Amount, HasToken, EntriesOk, Insert, Update, Refunds, AllEnded, RewardUnits, InRange, MergeSpec;
    match act {
      case Refuel(from, bank, quantity, terms) =>
        if from != inviter {
          AnotherRow(s, act, now, inviter);
        } else {
          match terms {
            case NoTerms => MergeElsewhere(s, inviter, Token(quantity.sym, bank), Fund("", quantity.amount, 0, 0, 0), token);
            case Terms(title, reward, start, end) =>
              MergeElsewhere(s, inviter, Token(quantity.sym, bank), Fund(title, quantity.amount, RewardUnits(reward, quantity.sym.precision), start, end), token);
          }
        }
      case SetInfo(_, owner, other, title, start, end) =>
        if owner != inviter {
          AnotherRow(s, act, now, inviter);
        } else {
          var balances := s.rows[owner];
          EntryLive(balances, other);
          var titled := if title != "" then FundOf(balances, other).(title := title) else FundOf(balances, other);
          var started := if start.Present? then titled.(start := start.value) else titled;
          UpdateFacts(balances, other, if end.Present? then started.(end := end.value) else started);
        }
      case Redeem(_, _) => AnotherRow(s, act, now, inviter);
      case SetRegistrar(_, _) => AnotherRow(s, act, now, inviter);
    }
  }

  /** After `n` in-window registrations a fund of balance A and reward R has paid min(n * R, A), and is there until it has paid A. */
  ghost predicate PaidOff(b: Balances, token: Token, fund: Fund, n: nat, paid: int) {
    && paid == (if n * fund.reward < fund.available then n * fund.reward else fund.available)
    && (HasToken(b, token) <==> n * fund.reward < fund.available)
    && (HasToken(b, token) ==> FundOf(b, token) == fund.(available := fund.available - n * fund.reward))
  }

  lemma RegistrationPays(s: State, act: Action, now: nat, inviter: Name, token: Token, fund: Fund, n: nat, paid: int)
    requires FundsOk(s) && act.Register? && act.inviter == inviter && Step(s, act, now).Some? && fund.reward > 0
    requires PaidOff(BalancesOf(s, inviter), token, fund, n, paid)
    ensures var r := Step(s, act, now).value;
            PaidOff(BalancesOf(r.0, inviter), token, fund, n + if fund.start <= now <= fund.end then 1 else 0, paid + Paid(r.1, token))
  {
    hide HasToken, EntriesOk, Serve, Paid, FundOf;
    NoEntries();
    NothingPaid();
    NextMultiple(n, fund.reward);
    var balances := BalancesOf(s, inviter);
    if inviter in s.rows {
      ServeConserves(balances, act.invitee, now);
      if HasToken(balances, token) {
        ServeOneFund(balances, act.invitee, now, token);
      } else {
        NotServed(balances, act.invitee, now, token);
      }
    }
  }

  lemma NextMultiple(n: nat, r: int)
    ensures (n + 1) * r == n * r + r
  {
  }

  // ---------- Runs ----------

  lemma {:induction false} RunKeepsFunds(s: State, trace: Trace)
    requires FundsOk(s)
    ensures FundsOk(Run(s, trace))
  {
    hide FundsOk, Step;
    if trace != [] {
      var init, last := trace[..|trace| - 1], trace[|trace| - 1];
      RunKeepsFunds(s, init);
      if Step(Run(s, init), last.0, last.1).Some? {
        StepBalances(Run(s, init), last.0, last.1);
      }
    }
  }

  /** A stranger cannot redeem while the fund is there and has not ended; once it is paid off there is nothing left to redeem of it. */
  lemma StrangerChangesNothing(s: State, act: Action, now: nat, inviter: Name, token: Token, end: nat)
    requires FundsOk(s) && ByStranger(s, act, now, inviter, end) && Step(s, act, now).Some?
    requires HasToken(BalancesOf(s, inviter), token) ==> FundOf(BalancesOf(s, inviter), token).end == end
    ensures Unchanged(BalancesOf(s, inviter), BalancesOf(Step(s, act, now).value.0, inviter), token)
  {
    hide Refunds;
  }

  /** A fund with balance A and reward R that nobody who may refuels, changes or redeems, whatever else happens: after `n` invitees
      within its window it has paid exactly min(n * R, A). Redemptions asked for by strangers before its end do not stop it. */
  lemma {:induction false} FundPaysExactly(s: State, trace: Trace, inviter: Name, token: Token)
    requires FundsOk(s) && HasToken(BalancesOf(s, inviter), token)
    requires LetBe(s, trace, inviter, token, FundOf(BalancesOf(s, inviter), token).end)
    ensures var fund := FundOf(BalancesOf(s, inviter), token);
            PaidOff(BalancesOf(Run(s, trace), inviter), token, fund, Invitees(s, trace, inviter, fund.start, fund.end), PaidBy(s, trace, inviter, token))
  {
    hide FundsOk, HasToken, FundOf, BalancesOf, Step, Paid, Touches, PaidOff, ByStranger;
    var fund := FundOf(BalancesOf(s, inviter), token);
    OneFund(s, inviter, token);
    if trace != [] {
      var init, last := trace[..|trace| - 1], trace[|trace| - 1];
      FundPaysExactly(s, init, inviter, token);
      RunKeepsFunds(s, init);
      var before := Run(s, init);
      if Step(before, last.0, last.1).Some? {
        if !last.0.Register? {
          if Touches(last.0, inviter, token) {
            StillEnds(before, inviter, token, fund, Invitees(s, init, inviter, fund.start, fund.end), PaidBy(s, init, inviter, token));
            StrangerChangesNothing(before, last.0, last.1, inviter, token, fund.end);
          } else {
            OtherTokens(before, last.0, last.1, inviter, token);
          }
          Carried(BalancesOf(before, inviter), BalancesOf(Run(s, trace), inviter), token, fund,
                  Invitees(s, trace, inviter, fund.start, fund.end), PaidBy(s, trace, inviter, token));
        } else if last.0.inviter != inviter {
          AnotherRow(before, last.0, last.1, inviter);
        } else {
          RegistrationPays(before, last.0, last.1, inviter, token, fund, Invitees(s, init, inviter, fund.start, fund.end), PaidBy(s, init, inviter, token));
        }
      }
    }
  }

  lemma StillEnds(s: State, inviter: Name, token: Token, fund: Fund, n: nat, paid: int)
    requires PaidOff(BalancesOf(s, inviter), token, fund, n, paid)
    ensures HasToken(BalancesOf(s, inviter), token) ==> FundOf(BalancesOf(s, inviter), token).end == fund.end
  {
  }

  lemma OneFund(s: State, inviter: Name, token: Token)
    requires FundsOk(s) && HasToken(BalancesOf(s, inviter), token)
    ensures var fund := FundOf(BalancesOf(s, inviter), token);
            fund.available > 0 && fund.reward > 0 && PaidOff(BalancesOf(s, inviter), token, fund, 0, 0)
  {
    EntryLive(BalancesOf(s, inviter), token);
  }

  lemma Carried(b: Balances, c: Balances, token: Token, fund: Fund, n: nat, paid: int)
    requires Unchanged(b, c, token) && PaidOff(b, token, fund, n, paid)
    ensures PaidOff(c, token, fund, n, paid)
  {
  }

  function Ceil(a: int, r: int): int
    requires r > 0
  {
    (a + r - 1) / r
  }

  lemma BelowCeil(n: nat, a: int, r: int)
    requires r > 0
    ensures n * r < a <==> n < Ceil(a, r)
  {
    var q := Ceil(a, r);
    SafeMath.QuotientBounds(a + r - 1, r);
    if n < q {
      SafeMath.MulOrder(n + 1, q, r);
      NextMultiple(n, r);
    } else {
      SafeMath.MulOrder(q, n, r);
      assert (q + 1) * r == q * r + r;
    }
  }

  /** So a fund lasts for exactly ceil(A / R) invitees in its window, and they receive A in all. */
  lemma {:induction false} FundLastsForCeil(s: State, trace: Trace, inviter: Name, token: Token)
    requires FundsOk(s) && HasToken(BalancesOf(s, inviter), token)
    requires LetBe(s, trace, inviter, token, FundOf(BalancesOf(s, inviter), token).end)
    ensures var fund := FundOf(BalancesOf(s, inviter), token);
            var n := Invitees(s, trace, inviter, fund.start, fund.end);
            && fund.reward > 0
            && (HasToken(BalancesOf(Run(s, trace), inviter), token) <==> n < Ceil(fund.available, fund.reward))
            && (n >= Ceil(fund.available, fund.reward) ==> PaidBy(s, trace, inviter, token) == fund.available)
  {
    hide FundsOk, HasToken, FundOf, BalancesOf, Run, LetBe, Invitees, PaidBy;
    var fund := FundOf(BalancesOf(s, inviter), token);
    OneFund(s, inviter, token);
    FundPaysExactly(s, trace, inviter, token);
    BelowCeil(Invitees(s, trace, inviter, fund.start, fund.end), fund.available, fund.reward);
  }
}
