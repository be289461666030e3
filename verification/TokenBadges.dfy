/** Badges for spending: a rule left alone awards one badge per threshold crossed, however the spending is split. */
module TokenBadges {
  import opened Eosio
  import opened TokenModel
  import opened TokenLedger
  import SafeMath

  // ---------- The rules ----------

  ghost predicate Ascending(rules: seq<Rule>) {
    forall i, j | 0 <= i < j < |rules| :: rules[i].id < rules[j].id
  }

  /** Badges that a list of packs hands out for one rule. */
  function Awarded(packs: seq<Pack>, id: nat): int {
    if packs == [] then 0
    else
      var last := packs[|packs| - 1];
      Awarded(packs[..|packs| - 1], id) + if last.rule == id then last.count else 0
  }

  lemma AwardedMore(packs: seq<Pack>, p: Pack, id: nat)
    ensures Awarded(packs + [p], id) == Awarded(packs, id) + if p.rule == id then p.count else 0
  {
    assert (packs + [p])[..|packs|] == packs;
  }

  lemma {:induction false} FoundBelow(rules: seq<Rule>, id: nat)
    requires Ascending(rules) && FindRule(rules, id).Some?
    ensures rules != [] && id <= rules[|rules| - 1].id && FindRule(rules, id).value.id == id
  {
    if rules[|rules| - 1].id != id {
      FoundBelow(rules[..|rules| - 1], id);
    }
  }

  lemma {:induction false} AwardOfRule(rules: seq<Rule>, before: int, after: int, id: nat)
    requires Ascending(rules)
    ensures Awarded(Packs(rules, before, after), id) ==
            match FindRule(rules, id) case Abort => 0 case Some(rule) => if Delta(rule, before, after) > 0 then Delta(rule, before, after) else 0
  {
    hide Delta;
    if rules != [] {
      var init, last := rules[..|rules| - 1], rules[|rules| - 1];
      AwardOfRule(init, before, after, id);
      AwardedMore(Packs(init, before, after), Pack(last.id, last.nid, Delta(last, before, after)), id);
      if FindRule(init, id).Some? {
        FoundBelow(init, id);
      }
    }
  }

  lemma {:induction false} ReplaceFacts(rules: seq<Rule>, rule: Rule)
    ensures |Replace(rules, rule)| == |rules|
    ensures forall i | 0 <= i < |rules| :: Replace(rules, rule)[i].id == rules[i].id
    ensures forall id: nat | id != rule.id :: FindRule(Replace(rules, rule), id) == FindRule(rules, id)
  {
    if rules != [] {
      var rest := rules[..|rules| - 1];
      ReplaceFacts(rest, rule);
      assert Replace(rules, rule)[..|rules| - 1] == Replace(rest, rule);
    }
  }

  ghost predicate Bounded(rules: seq<Rule>, id: nat) { forall i | 0 <= i < |rules| :: rules[i].id < id }

  lemma {:induction false} WithoutFacts(rules: seq<Rule>, gone: nat)
    requires Ascending(rules)
    ensures Ascending(Without(rules, gone))
    ensures forall id: nat :: Bounded(rules, id) ==> Bounded(Without(rules, gone), id)
    ensures forall id: nat | id != gone :: FindRule(Without(rules, gone), id) == FindRule(rules, id)
  {
    if rules != [] {
      var rest, last := rules[..|rules| - 1], rules[|rules| - 1];
      WithoutFacts(rest, gone);
      var kept := Without(rest, gone);
      assert Bounded(rest, last.id);
      assert (kept + [last])[..|kept|] == kept;
      forall id: nat | Bounded(rules, id)
        ensures Bounded(rest, id) && last.id < id
      {
      }
    }
  }

  // ---------- One rule over a run ----------

  /** A rule that awards badges for CISUM. */
  predicate Live(rule: Rule) { rule.enabled && rule.threshold.sym == CISUM && rule.threshold.amount > 0 }

  /** Actions that change a rule or end an account row's life. */
  predicate Disturbs(act: Action, k: (Name, string), id: nat) {
    match act
    case Close(owner, code) => (owner, code) == k
    case AddRule(which, _, _, _) => which == id && id != 0
    case DelRule(which) => which == id
    case _ => false
  }

  ghost function AwardedBy(s: State, trace: Trace, k: (Name, string), id: nat): int {
    if trace == [] then 0
    else
      var init, last := trace[..|trace| - 1], trace[|trace| - 1];
      var r := Step(Run(s, init), last.0, last.1);
      AwardedBy(s, init, k, id) + if r.Some? && last.0.Transfer? && (last.0.from, last.0.q.sym.code) == k then Awarded(r.value.1, id) else 0
  }

  function Consumed(s: State, k: (Name, string)): int {
    if k in s.rows then s.rows[k].consumed.amount else 0
  }

  lemma Telescope(rule: Rule, start: nat, middle: nat, end: nat)
    requires Live(rule) && start <= middle <= end
    ensures var step := rule.threshold.amount;
            && Delta(rule, middle, end) == end / step - middle / step >= 0
            && middle / step - start / step >= 0
  {
    SafeMath.QuotientMonotone(middle, end, rule.threshold.amount);
    SafeMath.QuotientMonotone(start, middle, rule.threshold.amount);
  }

  lemma StepKeepsRules(s: State, act: Action, allowed: bool, k: (Name, string), id: nat)
    requires Ascending(s.rules) && FindRule(s.rules, id).Some? && Step(s, act, allowed).Some? && !Disturbs(act, k, id)
    ensures var t := Step(s, act, allowed).value.0;
            Ascending(t.rules) && FindRule(t.rules, id) == FindRule(s.rules, id)
  {
    hide FindRule, BadgeUsed, Replace, Without, Packs, InRange;
    var t := Step(s, act, allowed).value.0;
    match act {
      case AddRule(which, threshold, nid, enabled) =>
        FoundBelow(s.rules, id);
        if which == 0 {
          var rule := Rule(s.rules[|s.rules| - 1].id + 1, threshold, nid, enabled);
          assert t.rules == s.rules + [rule];
          OneRuleMore(s.rules, rule, id);
        } else {
          var rule := Rule(which, threshold, nid, enabled);
          ReplaceFacts(s.rules, rule);
          assert t.rules == Replace(s.rules, rule);
          SameIds(s.rules, t.rules);
        }
      case DelRule(which) => WithoutFacts(s.rules, which);
      case _ =>
    }
  }

  lemma SameIds(rules: seq<Rule>, others: seq<Rule>)
    requires Ascending(rules) && |others| == |rules| && forall i | 0 <= i < |rules| :: others[i].id == rules[i].id
    ensures Ascending(others)
  {
  }

  lemma OneRuleMore(rules: seq<Rule>, rule: Rule, id: nat)
    requires Ascending(rules) && rules != [] && rule.id == rules[|rules| - 1].id + 1 && id < rule.id
    ensures Ascending(rules + [rule]) && FindRule(rules + [rule], id) == FindRule(rules, id)
  {
    assert (rules + [rule])[..|rules|] == rules;
  }

  /** Only its own spending moves an account's spending counter, and only up. */
  lemma StepKeepsConsumed(s: State, act: Action, allowed: bool, k: (Name, string))
    requires Backed(s) && k in s.rows && Step(s, act, allowed).Some? && !(act.Close? && (act.owner, act.code) == k)
    ensures var t := Step(s, act, allowed).value.0;
            && k in t.rows && Consumed(t, k) >= Consumed(s, k) >= 0
            && (!(act.Transfer? && (act.from, act.q.sym.code) == k) ==> Consumed(t, k) == Consumed(s, k))
  {
    hide FindRule, BadgeUsed, Replace, Without, SubBalance, AddBalance, Packs, Circulating, TransferSpec;
    assert RowOk(s, k);
    match act {
      case Transfer(from, to, q) => TransferEffect(s, allowed, from, to, q);
      case Issue(to, q) =>
        AddEffect(s.(stats := s.stats[q.sym.code := s.stats[q.sym.code].(supply := AddAsset(s.stats[q.sym.code].supply, q).value)]), to, q);
      case Retire(q) =>
        SubEffect(s.(stats := s.stats[q.sym.code := s.stats[q.sym.code].(supply := SubAsset(s.stats[q.sym.code].supply, q).value)]), s.issuer, q, false);
      case _ =>
    }
  }

  /** What one spending transfer awards under a live rule. */
  lemma SpendingAwards(s: State, act: Action, allowed: bool, k: (Name, string), id: nat, start: nat)
    requires Backed(s) && Ascending(s.rules) && k in s.rows && start <= Consumed(s, k)
    requires FindRule(s.rules, id).Some? && Live(FindRule(s.rules, id).value)
    requires act.Transfer? && (act.from, act.q.sym.code) == k && Step(s, act, allowed).Some?
    ensures var r := Step(s, act, allowed).value; var step := FindRule(s.rules, id).value.threshold.amount;
            Awarded(r.1, id) == Consumed(r.0, k) / step - Consumed(s, k) / step
  {
    hide FindRule, Packs, Circulating, TransferSpec, Delta, Backed;
    TransferEffect(s, allowed, act.from, act.to, act.q);
    StepKeepsConsumed(s, act, allowed, k);
    var t := Step(s, act, allowed).value.0;
    var rule := FindRule(s.rules, id).value;
    AwardOfRule(s.rules, Consumed(s, k), Consumed(t, k), id);
    Telescope(rule, start, Consumed(s, k), Consumed(t, k));
  }

  /** Over any run within one row's life and with the rule left alone, the badges awarded are the thresholds crossed:
      floor(consumed after / step) - floor(consumed before / step), whatever transfers the spending came in. */
  lemma {:induction false} BadgesTelescope(s: State, trace: Trace, k: (Name, string), id: nat)
    requires Backed(s) && Ascending(s.rules) && k in s.rows
    requires FindRule(s.rules, id).Some? && Live(FindRule(s.rules, id).value)
    requires forall i | 0 <= i < |trace| :: !Disturbs(trace[i].0, k, id)
    ensures var t := Run(s, trace); var step := FindRule(s.rules, id).value.threshold.amount;
            && k in t.rows && Consumed(t, k) >= Consumed(s, k) >= 0
            && Ascending(t.rules) && FindRule(t.rules, id) == FindRule(s.rules, id)
            && AwardedBy(s, trace, k, id) == Consumed(t, k) / step - Consumed(s, k) / step
  {
    hide Backed, Step, Consumed, FindRule, Ascending, Disturbs, Awarded;
    NotNegative(s, k);
    if trace != [] {
      var init, last := trace[..|trace| - 1], trace[|trace| - 1];
      BadgesTelescope(s, init, k, id);
      RunKeepsBacked(s, init);
      var before := Run(s, init);
      if Step(before, last.0, last.1).Some? {
        assert !Disturbs(trace[|trace| - 1].0, k, id);
        StepKeepsRules(before, last.0, last.1, k, id);
        NotClosed(last.0, k, id);
        StepKeepsConsumed(before, last.0, last.1, k);
        if last.0.Transfer? && (last.0.from, last.0.q.sym.code) == k {
          SpendingAwards(before, last.0, last.1, k, id, Consumed(s, k));
        }
      }
    }
  }

  // ---------- Reachable states ----------

  lemma NewRuleAscends(rules: seq<Rule>, rule: Rule)
    requires Ascending(rules) && rule.id == if rules == [] then 0 else rules[|rules| - 1].id + 1
    ensures Ascending(rules + [rule])
  {
  }

  /** Every action keeps the rules in key order. */
  lemma StepKeepsAscending(s: State, act: Action, allowed: bool)
    requires Ascending(s.rules) && Step(s, act, allowed).Some?
    ensures Ascending(Step(s, act, allowed).value.0.rules)
  {
    hide FindRule, BadgeUsed, Replace, Without, Packs, InRange, Ascending;
    match act {
      case AddRule(id, threshold, nid, enabled) =>
        if id == 0 {
          NewRuleAscends(s.rules, Rule(if s.rules == [] then 0 else s.rules[|s.rules| - 1].id + 1, threshold, nid, enabled));
        } else {
          ReplaceFacts(s.rules, Rule(id, threshold, nid, enabled));
          SameIds(s.rules, Replace(s.rules, Rule(id, threshold, nid, enabled)));
        }
      case DelRule(id) => WithoutFacts(s.rules, id);
      case _ =>
    }
  }

  lemma {:induction false} RunKeepsAscending(trace: Trace)
    ensures Ascending(Run(Start(), trace).rules)
  {
    hide Step;
    if trace != [] {
      var init, last := trace[..|trace| - 1], trace[|trace| - 1];
      RunKeepsAscending(init);
      if Step(Run(Start(), init), last.0, last.1).Some? {
        StepKeepsAscending(Run(Start(), init), last.0, last.1);
      }
    }
  }

  /** From every reachable state with the row and a live rule: over any further run within the row's life that leaves the rule alone,
      the badges awarded are the thresholds crossed. */
  lemma ReachableBadgesTelescope(past: Trace, trace: Trace, k: (Name, string), id: nat)
    requires var s := Run(Start(), past); k in s.rows && FindRule(s.rules, id).Some? && Live(FindRule(s.rules, id).value)
    requires forall i | 0 <= i < |trace| :: !Disturbs(trace[i].0, k, id)
    ensures var s := Run(Start(), past); var t := Run(s, trace); var step := FindRule(s.rules, id).value.threshold.amount;
            && k in t.rows && FindRule(t.rules, id) == FindRule(s.rules, id)
            && AwardedBy(s, trace, k, id) == Consumed(t, k) / step - Consumed(s, k) / step
  {
    hide Run, FindRule, AwardedBy, Consumed, Disturbs;
    ReachableIsBacked(past);
    RunKeepsAscending(past);
    BadgesTelescope(Run(Start(), past), trace, k, id);
  }

  lemma NotNegative(s: State, k: (Name, string))
    requires Backed(s) && k in s.rows
    ensures Consumed(s, k) >= 0
  {
    assert RowOk(s, k);
  }

  lemma NotClosed(act: Action, k: (Name, string), id: nat)
    requires !Disturbs(act, k, id)
    ensures !(act.Close? && (act.owner, act.code) == k)
  {
  }

  /** Closing a row forgets what it spent: a reopened row earns the same badges again. */
  lemma CloseForgets(s: State, owner: Name, sym: Symbol)
    requires Backed(s) && (owner, sym.code) in s.rows && s.rows[(owner, sym.code)].balance == Asset(0, sym)
    ensures var closed := CloseSpec(s, true, owner, sym.code).value;
            CloseSpec(s, true, owner, sym.code).Some? && OpenSpec(closed, true, owner, sym).Some?
            && Consumed(OpenSpec(closed, true, owner, sym).value, (owner, sym.code)) == 0
  {
    SymbolsAgree(s, owner, sym.code);
  }
}
