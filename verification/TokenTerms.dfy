/** What issuing, retiring and spending cisum.token do to the tables, in full. */
module TokenTerms {
  import opened Eosio
  import opened TokenModel
  import opened TokenLedger
  import opened TokenBadges

  /** The tables after `amount` units more (or fewer) of a token, all of them in the row of `owner`. */
  ghost function Supplied(s: State, owner: Name, code: string, amount: int): State
    requires code in s.stats
  {
    var k := (owner, code);
    var st := s.stats[code];
    var consumed := if k in s.rows then s.rows[k].consumed else Asset(0, st.supply.sym);
    s.(stats := s.stats[code := Stat(Asset(st.supply.amount + amount, st.supply.sym), st.maxSupply)],
       rows := s.rows[k := Row(Asset(Balance(s, owner, code) + amount, st.supply.sym), consumed)])
  }

  /** Tokens are issued to the issuer or one of the two mining contracts, up to the maximum; all of them go to the account named, and
      nothing else changes. */
  lemma IssueTerms(s: State, allowed: bool, to: Name, q: Asset)
    requires Backed(s)
    ensures var code := q.sym.code;
            IssueSpec(s, allowed, to, q)
            == if allowed && (to == s.issuer || to == POH_CISUM || to == POS_CISUM) && code in s.stats && q.sym == s.stats[code].supply.sym
                  && 0 < q.amount && s.stats[code].supply.amount + q.amount <= s.stats[code].maxSupply.amount
               then Some(Supplied(s, to, code, q.amount)) else Abort
  {
    hide Circulating;
    var code := q.sym.code;
    if code in s.stats {
      WithinSupply(s, to, to + 1, code);
      assert StatOk(code, s.stats[code]);
      if (to, code) in s.rows {
        assert RowOk(s, (to, code));
      }
      var r := IssueSpec(s, allowed, to, q);
      if r.Some? {
        assert r.value.rows == Supplied(s, to, code, q.amount).rows;
      }
    }
  }

  /** Retired tokens come off the balance of the issuer, who must have them, and off the supply, and nothing else changes. */
  lemma RetireTerms(s: State, allowed: bool, q: Asset)
    requires Backed(s)
    ensures var code := q.sym.code;
            RetireSpec(s, allowed, q)
            == if allowed && code in s.stats && q.sym == s.stats[code].supply.sym && 0 < q.amount <= Balance(s, s.issuer, code)
               then Some(Supplied(s, s.issuer, code, 0 - q.amount)) else Abort
  {
    hide Circulating;
    var code := q.sym.code;
    if code in s.stats {
      WithinSupply(s, s.issuer, s.issuer + 1, code);
      assert StatOk(code, s.stats[code]);
      if (s.issuer, code) in s.rows {
        assert RowOk(s, (s.issuer, code));
      }
      var r := RetireSpec(s, allowed, q);
      if r.Some? {
        assert r.value.rows == Supplied(s, s.issuer, code, 0 - q.amount).rows;
      }
    }
  }

  /** The rows after a transfer, counted as spending if `spends`. */
  ghost function Moved(s: State, from: Name, to: Name, q: Asset, spends: bool): State
    requires (from, q.sym.code) in s.rows
  {
    var k, l := (from, q.sym.code), (to, q.sym.code);
    var row := s.rows[k];
    var consumed := if l in s.rows then s.rows[l].consumed else Asset(0, q.sym);
    s.(rows := s.rows[k := Row(Asset(row.balance.amount - q.amount, q.sym), Asset(row.consumed.amount + (if spends then q.amount else 0), q.sym))]
                     [l := Row(Asset(Balance(s, to, q.sym.code) + q.amount, q.sym), consumed)])
  }

  /** A transfer moves the amount from one row to another, and counts it as spent by the sender if the receiver consumes tokens. */
  lemma TransferTerms(s: State, allowed: bool, from: Name, to: Name, q: Asset)
    requires Backed(s)
    ensures var k := (from, q.sym.code); var spends := to in s.consumers;
            var r := TransferSpec(s, allowed, from, to, q);
            if && from != to && allowed && q.sym.code in s.stats && q.sym == s.stats[q.sym.code].supply.sym
               && (from == s.issuer || from in s.whitelist || spends) && 0 < q.amount <= Balance(s, from, q.sym.code)
               && (spends ==> s.rows[k].consumed.amount + q.amount <= MAX_AMOUNT)
            then r.Some? && r.value.0 == Moved(s, from, to, q, spends)
                 && r.value.1 == if spends then Packs(s.rules, s.rows[k].consumed.amount, s.rows[k].consumed.amount + q.amount) else []
            else r.Abort?
  {
    hide Packs, Circulating;
    TransferCommitsIff(s, allowed, from, to, q);
    if TransferSpec(s, allowed, from, to, q).Some? {
      assert RowOk(s, (from, q.sym.code));
      assert TransferSpec(s, allowed, from, to, q).value.0.rows == Moved(s, from, to, q, to in s.consumers).rows;
    }
  }

  // ---------- Badges ----------

  /** What rule `r` hands out when spending goes from `before` to `after`: one badge of its own kind for each multiple of its
      threshold that was passed. */
  ghost predicate Earned(r: Rule, before: nat, after: nat, p: Pack) {
    && r.enabled && r.threshold.sym == CISUM && r.threshold.amount > 0
    && p == Pack(r.id, r.nid, after / r.threshold.amount - before / r.threshold.amount)
    && p.count > 0
  }

  lemma EarnedIs(r: Rule, before: nat, after: nat)
    requires before <= after
    ensures Earned(r, before, after, Pack(r.id, r.nid, Delta(r, before, after))) <==> Delta(r, before, after) > 0
    ensures forall p :: Earned(r, before, after, p) ==> p == Pack(r.id, r.nid, Delta(r, before, after))
  {
  }

  /** The packs of one pass are exactly those that the rules earn. */
  lemma {:induction false} PackIff(rules: seq<Rule>, before: nat, after: nat, p: Pack)
    requires before <= after
    ensures p in Packs(rules, before, after) <==> exists i | 0 <= i < |rules| :: Earned(rules[i], before, after, p)
  {
    hide Earned, Delta;
    if rules != [] {
      var init, last := rules[..|rules| - 1], rules[|rules| - 1];
      PackIff(init, before, after, p);
      EarnedIs(last, before, after);
      if i :| 0 <= i < |init| && Earned(init[i], before, after, p) {
        assert Earned(rules[i], before, after, p);
      }
      if i :| 0 <= i < |rules| && Earned(rules[i], before, after, p) {
        assert i < |init| ==> Earned(init[i], before, after, p);
      }
      assert Earned(last, before, after, p) ==> Earned(rules[|rules| - 1], before, after, p);
    }
  }

  ghost predicate OneRulePerBadge(rules: seq<Rule>) {
    forall i, j | 0 <= i < j < |rules| :: rules[i].nid != rules[j].nid
  }

  lemma {:induction false} WithoutIsPart(rules: seq<Rule>, id: nat)
    requires OneRulePerBadge(rules)
    ensures OneRulePerBadge(Without(rules, id))
    ensures forall i | 0 <= i < |Without(rules, id)| :: exists j | 0 <= j < |rules| :: rules[j] == Without(rules, id)[i]
  {
    if rules != [] {
      var rest, last := rules[..|rules| - 1], rules[|rules| - 1];
      WithoutIsPart(rest, id);
      var kept := Without(rest, id);
      forall i | 0 <= i < |kept|
        ensures exists j | 0 <= j < |rules| - 1 :: rules[j] == kept[i]
      {
        var j :| 0 <= j < |rest| && rest[j] == kept[i];
        assert rules[j] == kept[i];
      }
      assert rules[|rules| - 1] == last;
    }
  }

  lemma {:induction false} ReplacedAt(rules: seq<Rule>, rule: Rule)
    ensures |Replace(rules, rule)| == |rules|
    ensures forall i | 0 <= i < |rules| :: Replace(rules, rule)[i] == if rules[i].id == rule.id then rule else rules[i]
  {
    if rules != [] {
      ReplacedAt(rules[..|rules| - 1], rule);
    }
  }

  lemma {:induction false} FoundAt(rules: seq<Rule>, id: nat) returns (at: nat)
    requires FindRule(rules, id).Some?
    ensures at < |rules| && rules[at] == FindRule(rules, id).value && rules[at].id == id
  {
    at := |rules| - 1;
    if rules[at].id != id {
      at := FoundAt(rules[..at], id);
    }
  }

  lemma ReplaceKeepsBadges(rules: seq<Rule>, rule: Rule)
    requires Ascending(rules) && OneRulePerBadge(rules) && FindRule(rules, rule.id).Some?
    requires FindRule(rules, rule.id).value.nid != rule.nid ==> !BadgeUsed(rules, rule.nid)
    ensures OneRulePerBadge(Replace(rules, rule))
  {
    var at := FoundAt(rules, rule.id);
    ReplacedAt(rules, rule);
  }

  lemma StepKeepsBadges(s: State, act: Action, allowed: bool)
    requires Ascending(s.rules) && OneRulePerBadge(s.rules) && Step(s, act, allowed).Some?
    ensures OneRulePerBadge(Step(s, act, allowed).value.0.rules)
  {
    hide FindRule, Replace, Without, Packs, InRange;
    match act {
      case AddRule(id, threshold, nid, enabled) =>
        if id != 0 {
          ReplaceKeepsBadges(s.rules, Rule(id, threshold, nid, enabled));
        }
      case DelRule(id) => WithoutIsPart(s.rules, id);
      case _ =>
    }
  }

  /** In every reachable state no two rules hand out the same badge. */
  lemma {:induction false} ReachableBadgesDiffer(trace: Trace)
    ensures OneRulePerBadge(Run(Start(), trace).rules)
  {
    hide Step;
    if trace != [] {
      var init, last := trace[..|trace| - 1], trace[|trace| - 1];
      ReachableBadgesDiffer(init);
      RunKeepsAscending(init);
      if Step(Run(Start(), init), last.0, last.1).Some? {
        StepKeepsBadges(Run(Start(), init), last.0, last.1);
      }
    }
  }

  // ---------- Rules and permissions ----------

  ghost predicate HasRule(rules: seq<Rule>, id: nat) { exists i | 0 <= i < |rules| :: rules[i].id == id }

  lemma {:induction false} FoundIff(rules: seq<Rule>, id: nat)
    ensures FindRule(rules, id).Some? <==> HasRule(rules, id)
  {
    if rules != [] {
      var init := rules[..|rules| - 1];
      FoundIff(init, id);
      if i :| 0 <= i < |init| && init[i].id == id {
        assert rules[i].id == id;
      }
      if i :| 0 <= i < |rules| && rules[i].id == id {
        assert i < |init| ==> init[i].id == id;
      }
      assert rules[|rules| - 1].id == id ==> HasRule(rules, id);
    }
  }

  /** A rule needs permission, a threshold in a token that exists, and a badge that no other rule hands out. A new one comes last, with
      the next id; changing one leaves all others as they are. */
  lemma AddRuleTerms(s: State, allowed: bool, id: nat, threshold: Asset, nid: nat, enabled: bool)
    requires Ascending(s.rules) && OneRulePerBadge(s.rules)
    ensures var r := AddRuleSpec(s, allowed, id, threshold, nid, enabled);
            && (r.Some? <==>
                  && allowed && threshold.amount > 0 && threshold.sym.code in s.stats && nid != 0
                  && (id != 0 ==> HasRule(s.rules, id))
                  && (forall i | 0 <= i < |s.rules| :: s.rules[i].nid == nid ==> id != 0 && s.rules[i].id == id))
            && (r.Some? ==>
                  && r.value == s.(rules := r.value.rules)
                  && (if id == 0 then
                        r.value.rules == s.rules + [Rule(if s.rules == [] then 0 else s.rules[|s.rules| - 1].id + 1, threshold, nid, enabled)]
                      else
                        && |r.value.rules| == |s.rules|
                        && forall i | 0 <= i < |s.rules| :: r.value.rules[i] == if s.rules[i].id == id then Rule(id, threshold, nid, enabled) else s.rules[i]))
  {
    hide FindRule, Replace;
    FoundIff(s.rules, id);
    ReplacedAt(s.rules, Rule(id, threshold, nid, enabled));
    if FindRule(s.rules, id).Some? {
      var at := FoundAt(s.rules, id);
    }
  }

  lemma {:induction false} WithoutFinds(rules: seq<Rule>, id: nat)
    ensures !HasRule(Without(rules, id), id)
  {
    if rules != [] {
      var rest := Without(rules[..|rules| - 1], id);
      WithoutFinds(rules[..|rules| - 1], id);
      assert forall i | 0 <= i < |rest| :: rest[i].id != id;
    }
  }

  /** Deleting needs permission and the rule; the rule is gone and every other is found as before. */
  lemma DelRuleTerms(s: State, allowed: bool, id: nat)
    requires Ascending(s.rules)
    ensures var r := DelRuleSpec(s, allowed, id);
            && (r.Some? <==> allowed && HasRule(s.rules, id))
            && (r.Some? ==>
                  && r.value == s.(rules := r.value.rules) && !HasRule(r.value.rules, id)
                  && forall other: nat | other != id :: FindRule(r.value.rules, other) == FindRule(s.rules, other))
  {
    hide FindRule, Without;
    FoundIff(s.rules, id);
    WithoutFacts(s.rules, id);
    WithoutFinds(s.rules, id);
  }

  /** Nothing at all happens without permission. */
  lemma NothingUnauthorized(s: State, act: Action)
    ensures Step(s, act, false).Abort?
  {
  }
}
