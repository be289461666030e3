/** poh.cisum: funds that inviters deposit, in any number of tokens, to reward the users they invite. */
module FundModel {
  import opened Eosio

  type U32 = n: nat | n < TWO_32

  type S64 = n: int | -TWO_63 <= n < TWO_63

  datatype Fund = Fund(title: string, available: int, reward: int, start: nat, end: nat)

  datatype Entry = Entry(token: Token, fund: Fund)

  /** The map from token to fund, in key order. */
  type Balances = seq<Entry>

  /** A token transfer out of the contract. */
  datatype Payout = Payout(token: Token, to: Name, amount: int)

  datatype State = State(registrar: Name, rows: map<Name, Balances>)

  /** The five-part memo `refuel:title:reward:start:end`; the one-part memo has none of this. */
  datatype Terms = NoTerms | Terms(title: string, reward: S64, start: U32, end: U32)

  // ---------- The map of one inviter ----------

  predicate HasToken(balances: Balances, token: Token) {
    exists i | 0 <= i < |balances| :: balances[i].token == token
  }

  function CodeValue(code: string): nat {
    if code == "" then 0 else code[0] as nat + 256 * CodeValue(code[1..])
  }

  /** The order of `extended_symbol`: by symbol value, then by contract. */
  predicate Precedes(a: Token, b: Token) {
    var x, y := 256 * CodeValue(a.sym.code) + a.sym.precision, 256 * CodeValue(b.sym.code) + b.sym.precision;
    x < y || (x == y && a.bank < b.bank)
  }

  function Insert(balances: Balances, e: Entry): Balances {
    if balances == [] || Precedes(balances[|balances| - 1].token, e.token) then balances + [e]
    else Insert(balances[..|balances| - 1], e) + [balances[|balances| - 1]]
  }

  /** Further deposits add to the balance, and set whatever terms they name. */
  function Merge(old_: Fund, more: Fund): Fund {
    Fund(
      if more.title != "" then more.title else old_.title,
      old_.available + more.available,
      if more.reward > 0 then more.reward else old_.reward,
      if more.start > 0 then more.start else old_.start,
      if more.end > 0 then more.end else old_.end)
  }

  function FundOf(balances: Balances, token: Token): (fund: Fund)
    requires HasToken(balances, token)
    ensures exists i | 0 <= i < |balances| :: balances[i] == Entry(token, fund)
  {
    var n := |balances| - 1;
    if balances[n].token == token then balances[n].fund
    else
      assert HasToken(balances[..n], token) by {
        var i :| 0 <= i < |balances| && balances[i].token == token;
        assert balances[..n][i].token == token;
      }
      FundOf(balances[..n], token)
  }

  /** The entry of one token replaced. */
  function Update(balances: Balances, token: Token, fund: Fund): Balances {
    if balances == [] then []
    else
      var last := balances[|balances| - 1];
      Update(balances[..|balances| - 1], token, fund) + [if last.token == token then Entry(token, fund) else last]
  }

  // ---------- Deposits ----------

  function PowerWrapped(precision: nat): S64 {
    if precision == 0 then 1 else WrapS64(PowerWrapped(precision - 1) * 10)
  }

  /** The reward in token units, in 64-bit arithmetic. */
  function RewardUnits(raw: S64, precision: nat): S64 {
    WrapS64(raw * PowerWrapped(precision))
  }

  function BalancesOf(s: State, inviter: Name): Balances {
    if inviter in s.rows then s.rows[inviter] else []
  }

  /** `_merge_fund_balance_s`. */
  function MergeSpec(s: State, inviter: Name, token: Token, more: Fund): Option<State> {
    var balances := BalancesOf(s, inviter);
    if !HasToken(balances, token) then
      var _ :- Check(more.reward > 0 && more.start > 0 && more.end > 0 && more.start < more.end);
      Some(s.(rows := s.rows[inviter := Insert(balances, Entry(token, more))]))
    else
      var old_ := FundOf(balances, token);
      var _ :- Check(InRange(old_.available + more.available));
      Some(s.(rows := s.rows[inviter := Update(balances, token, Merge(old_, more))]))
  }

  /** `on_transfer`. */
  function RefuelSpec(s: State, from: Name, bank: Name, quantity: Asset, terms: Terms, now: nat): Option<State> {
    var _ :- Check(quantity.amount > 0);
    match terms
    case NoTerms => MergeSpec(s, from, Token(quantity.sym, bank), Fund("", quantity.amount, 0, 0, 0))
    case Terms(title, reward, start, end) =>
      var _ :- Check(|title| <= 64 && reward > 0 && start > now && end > start);
      var units := RewardUnits(reward, quantity.sym.precision);
      var _ :- Check(InRange(units) && units <= quantity.amount);
      MergeSpec(s, from, Token(quantity.sym, bank), Fund(title, quantity.amount, units, start, end))
  }

  // ---------- Rewards ----------

  predicate Eligible(fund: Fund, now: nat) {
    fund.start <= now <= fund.end && fund.reward > 0
  }

  /** What one invitee gets out of a fund that pays: the reward, or what is left. */
  function Share(fund: Fund): int {
    if fund.available >= fund.reward then fund.reward else fund.available
  }

  /** The loop of `_send_inviter_fund`: every eligible entry pays its share, and entries paid out are erased. */
  function Serve(balances: Balances, invitee: Name, now: nat): (Balances, seq<Payout>) {
    if balances == [] then ([], [])
    else
      var before := Serve(balances[..|balances| - 1], invitee, now);
      var last := balances[|balances| - 1];
      if !Eligible(last.fund, now) then (before.0 + [last], before.1)
      else
        var pay := Share(last.fund);
        var left := last.fund.available - pay;
        (if left == 0 then before.0 else before.0 + [last.(fund := last.fund.(available := left))],
         if pay > 0 then before.1 + [Payout(last.token, invitee, pay)] else before.1)
  }

  /** The part of `registreward` that draws on the inviter's funds; `allowed` stands for everything before it. */
  function RegisterSpec(s: State, inviter: Name, invitee: Name, allowed: bool, now: nat): Option<(State, seq<Payout>)> {
    var _ :- Check(allowed && inviter != invitee);
    if inviter !in s.rows then Some((s, []))
    else
      var served := Serve(s.rows[inviter], invitee, now);
      Some((s.(rows := if served.0 == [] then s.rows - {inviter} else s.rows[inviter := served.0]), served.1))
  }

  // ---------- Terms and redemption ----------

  datatype Maybe = Absent | Present(value: U32)

  /** `setfundinfo`: a new end must lie after the start, but a new start alone need not lie before the end. */
  function SetInfoSpec(s: State, allowed: bool, inviter: Name, token: Token, title: string, start: Maybe, end: Maybe): Option<State> {
    var _ :- Check(allowed && inviter in s.rows && HasToken(s.rows[inviter], token));
    var fund := FundOf(s.rows[inviter], token);
    var titled := if title != "" then fund.(title := title) else fund;
    var started := if start.Present? then titled.(start := start.value) else titled;
    var _ :- Check(end.Present? ==> end.value > started.start);
    var ended := if end.Present? then started.(end := end.value) else started;
    Some(s.(rows := s.rows[inviter := Update(s.rows[inviter], token, ended)]))
  }

  predicate AllEnded(balances: Balances, now: nat) {
    forall i | 0 <= i < |balances| :: balances[i].fund.end <= now
  }

  function Refunds(balances: Balances, inviter: Name): seq<Payout> {
    if balances == [] then []
    else
      var before := Refunds(balances[..|balances| - 1], inviter);
      var last := balances[|balances| - 1];
      if last.fund.available > 0 then before + [Payout(last.token, inviter, last.fund.available)] else before
  }

  /** `redeemfund`: the inviter and the registrar may redeem at any time, others once every fund has ended. */
  function RedeemSpec(s: State, oper: Name, inviter: Name, now: nat): Option<(State, seq<Payout>)> {
    var _ :- Check(inviter in s.rows);
    var _ :- Check(oper == inviter || (s.registrar != 0 && oper == s.registrar) || AllEnded(s.rows[inviter], now));
    Some((s.(rows := s.rows - {inviter}), Refunds(s.rows[inviter], inviter)))
  }

  /** `setregistrar`; `allowed` stands for the contract's own signature. */
  function SetRegistrarSpec(s: State, allowed: bool, registrar: Name): Option<State> {
    var _ :- Check(allowed);
    Some(s.(registrar := registrar))
  }

  datatype Action =
    | Refuel(from: Name, bank: Name, quantity: Asset, terms: Terms)
    | Register(inviter: Name, invitee: Name, allowed: bool)
    | SetInfo(allowed: bool, owner: Name, token: Token, title: string, start: Maybe, end: Maybe)
    | Redeem(oper: Name, owner: Name)
    | SetRegistrar(allowed: bool, registrar: Name)

  function Step(s: State, act: Action, now: nat): Option<(State, seq<Payout>)> {
    match act
    case Refuel(from, bank, quantity, terms) => var t :- RefuelSpec(s, from, bank, quantity, terms, now); Some((t, []))
    case Register(inviter, invitee, allowed) => RegisterSpec(s, inviter, invitee, allowed, now)
    case SetInfo(allowed, owner, token, title, start, end) => var t :- SetInfoSpec(s, allowed, owner, token, title, start, end); Some((t, []))
    case Redeem(oper, owner) => RedeemSpec(s, oper, owner, now)
    case SetRegistrar(allowed, registrar) => var t :- SetRegistrarSpec(s, allowed, registrar); Some((t, []))
  }

  type Trace = seq<(Action, nat)>

  ghost function Run(s: State, trace: Trace): State {
    if trace == [] then s
    else
      var before := Run(s, trace[..|trace| - 1]);
      var last := trace[|trace| - 1];
      match Step(before, last.0, last.1)
      case Abort => before
      case Some(r) => r.0
  }
}
