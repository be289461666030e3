/** cisum.token: a fungible token whose spending earns badges, as a transition system. */
module TokenModel {
  import opened Eosio

  datatype Row = Row(balance: Asset, consumed: Asset)

  datatype Stat = Stat(supply: Asset, maxSupply: Asset)

  datatype Rule = Rule(id: nat, threshold: Asset, nid: nat, enabled: bool)

  /** Badges of one rule, to be handed out. */
  datatype Pack = Pack(rule: nat, nid: nat, count: int)

  /** Rows are keyed by owner and symbol code; rules are in key order. */
  datatype State = State(
    issuer: Name, whitelist: set<Name>, consumers: set<Name>,
    stats: map<string, Stat>, rows: map<(Name, string), Row>, rules: seq<Rule>)

  function Start(): State { State(0, {}, {}, map[], map[], []) }

  function CreateSpec(s: State, allowed: bool, maxSupply: Asset): Option<State> {
    var code := maxSupply.sym.code;
    var _ :- Check(allowed && 0 < maxSupply.amount <= MAX_AMOUNT && code !in s.stats);
    Some(s.(stats := s.stats[code := Stat(Asset(0, maxSupply.sym), maxSupply)]))
  }

  // ---------- Balances ----------

  function SubBalance(s: State, owner: Name, q: Asset, spends: bool): Option<State> {
    var key := (owner, q.sym.code);
    var _ :- Check(InRange(q.amount) && q.amount > 0 && key in s.rows);
    var row := s.rows[key];
    var _ :- Check(row.balance.amount >= q.amount);
    var balance :- SubAsset(row.balance, q);
    var consumed :- if spends then AddAsset(row.consumed, q) else Some(row.consumed);
    Some(s.(rows := s.rows[key := Row(balance, consumed)]))
  }

  function AddBalance(s: State, owner: Name, q: Asset): Option<State> {
    var key := (owner, q.sym.code);
    var _ :- Check(InRange(q.amount) && q.amount > 0);
    if key !in s.rows then Some(s.(rows := s.rows[key := Row(q, Asset(0, q.sym))]))
    else
      var balance :- AddAsset(s.rows[key].balance, q);
      Some(s.(rows := s.rows[key := s.rows[key].(balance := balance)]))
  }

  /** `issue`, to the issuer or one of the two mining contracts. */
  function IssueSpec(s: State, allowed: bool, to: Name, q: Asset): Option<State> {
    var code := q.sym.code;
    var _ :- Check(allowed && (to == s.issuer || to == POH_CISUM || to == POS_CISUM));
    var _ :- Check(InRange(q.amount) && q.amount > 0 && code in s.stats);
    var st := s.stats[code];
    var _ :- Check(q.amount <= st.maxSupply.amount - st.supply.amount);
    var supply :- AddAsset(st.supply, q);
    AddBalance(s.(stats := s.stats[code := st.(supply := supply)]), to, q)
  }

  function RetireSpec(s: State, allowed: bool, q: Asset): Option<State> {
    var code := q.sym.code;
    var _ :- Check(allowed && InRange(q.amount) && q.amount > 0 && code in s.stats);
    var supply :- SubAsset(s.stats[code].supply, q);
    SubBalance(s.(stats := s.stats[code := s.stats[code].(supply := supply)]), s.issuer, q, false)
  }

  // ---------- Badges ----------

  /** Badges of one rule for consumption going from `before` to `after`. */
  function Delta(rule: Rule, before: int, after: int): int {
    if rule.enabled && rule.threshold.sym == CISUM && rule.threshold.amount > 0 && after > before then
      TruncDiv(after, rule.threshold.amount) - TruncDiv(before, rule.threshold.amount)
    else 0
  }

  /** `try_award_badges`. */
  function Packs(rules: seq<Rule>, before: int, after: int): seq<Pack> {
    if rules == [] then []
    else
      var packs := Packs(rules[..|rules| - 1], before, after);
      var last := rules[|rules| - 1];
      var delta := Delta(last, before, after);
      if delta > 0 then packs + [Pack(last.id, last.nid, delta)] else packs
  }

  /** `transfer`: by the issuer or a whitelisted account to anyone, or by anyone to an account where tokens are consumed. */
  function TransferSpec(s: State, allowed: bool, from: Name, to: Name, q: Asset): Option<(State, seq<Pack>)> {
    var code := q.sym.code;
    var _ :- Check(from != to && allowed && code in s.stats);
    var _ :- Check(InRange(q.amount) && q.amount > 0 && q.sym == s.stats[code].supply.sym);
    var spends := to in s.consumers;
    var _ :- Check(from == s.issuer || from in s.whitelist || spends);
    var taken :- SubBalance(s, from, q, spends);
    var given :- AddBalance(taken, to, q);
    var before, after := s.rows[(from, code)].consumed.amount, given.rows[(from, code)].consumed.amount;
    Some((given, if spends then Packs(s.rules, before, after) else []))
  }

  // ---------- Rows, rules and settings ----------

  function OpenSpec(s: State, allowed: bool, owner: Name, sym: Symbol): Option<State> {
    var _ :- Check(allowed && sym.code in s.stats && s.stats[sym.code].supply.sym == sym);
    var key := (owner, sym.code);
    Some(if key in s.rows then s else s.(rows := s.rows[key := Row(Asset(0, sym), Asset(0, sym))]))
  }

  /** `close` drops the row, and what it consumed with it. */
  function CloseSpec(s: State, allowed: bool, owner: Name, code: string): Option<State> {
    var _ :- Check(allowed && (owner, code) in s.rows && s.rows[(owner, code)].balance.amount == 0);
    Some(s.(rows := s.rows - {(owner, code)}))
  }

  predicate BadgeUsed(rules: seq<Rule>, nid: nat) {
    exists i | 0 <= i < |rules| :: rules[i].nid == nid
  }

  function Replace(rules: seq<Rule>, rule: Rule): seq<Rule> {
    if rules == [] then []
    else
      var last := rules[|rules| - 1];
      Replace(rules[..|rules| - 1], rule) + [if last.id == rule.id then rule else last]
  }

  function Without(rules: seq<Rule>, id: nat): seq<Rule> {
    if rules == [] then []
    else
      var rest, last := Without(rules[..|rules| - 1], id), rules[|rules| - 1];
      if last.id == id then rest else rest + [last]
  }

  function FindRule(rules: seq<Rule>, id: nat): Option<Rule> {
    if rules == [] then Abort
    else if rules[|rules| - 1].id == id then Some(rules[|rules| - 1])
    else FindRule(rules[..|rules| - 1], id)
  }

  /** `addrule`: id 0 asks for a new rule, any other id names the rule to change. */
  function AddRuleSpec(s: State, allowed: bool, id: nat, threshold: Asset, nid: nat, enabled: bool): Option<State> {
    var _ :- Check(allowed && threshold.amount > 0 && nid != 0 && threshold.sym.code in s.stats);
    if id == 0 then
      var _ :- Check(!BadgeUsed(s.rules, nid));
      var next := if s.rules == [] then 0 else s.rules[|s.rules| - 1].id + 1;
      Some(s.(rules := s.rules + [Rule(next, threshold, nid, enabled)]))
    else
      var rule :- FindRule(s.rules, id);
      var _ :- Check(rule.nid != nid ==> !BadgeUsed(s.rules, nid));
      Some(s.(rules := Replace(s.rules, Rule(id, threshold, nid, enabled))))
  }

  function DelRuleSpec(s: State, allowed: bool, id: nat): Option<State> {
    var _ :- Check(allowed && FindRule(s.rules, id).Some?);
    Some(s.(rules := Without(s.rules, id)))
  }

  datatype Action =
    | Create(maxSupply: Asset)
    | Issue(to: Name, q: Asset)
    | Retire(q: Asset)
    | Transfer(from: Name, to: Name, q: Asset)
    | Open(owner: Name, sym: Symbol)
    | Close(owner: Name, code: string)
    | Configure(issuer: Name, whitelist: set<Name>, consumers: set<Name>)
    | AddRule(id: nat, threshold: Asset, nid: nat, enabled: bool)
    | DelRule(id: nat)

  function Step(s: State, act: Action, allowed: bool): Option<(State, seq<Pack>)> {
    match act
    case Create(maxSupply) => var t :- CreateSpec(s, allowed, maxSupply); Some((t, []))
    case Issue(to, q) => var t :- IssueSpec(s, allowed, to, q); Some((t, []))
    case Retire(q) => var t :- RetireSpec(s, allowed, q); Some((t, []))
    case Transfer(from, to, q) => TransferSpec(s, allowed, from, to, q)
    case Open(owner, sym) => var t :- OpenSpec(s, allowed, owner, sym); Some((t, []))
    case Close(owner, code) => var t :- CloseSpec(s, allowed, owner, code); Some((t, []))
    case Configure(issuer, whitelist, consumers) =>
      var _ :- Check(allowed);
      Some((s.(issuer := issuer, whitelist := whitelist, consumers := consumers), []))
    case AddRule(id, threshold, nid, enabled) => var t :- AddRuleSpec(s, allowed, id, threshold, nid, enabled); Some((t, []))
    case DelRule(id) => var t :- DelRuleSpec(s, allowed, id); Some((t, []))
  }

  type Trace = seq<(Action, bool)>

  ghost function Run(s: State, trace: Trace): State {
    if trace == [] then s
    else
      var before := Run(s, trace[..|trace| - 1]);
      var last := trace[|trace| - 1];
      match Step(before, last.0, last.1)
      case Abort => before
      case Some(r) => r.0
  }
}
