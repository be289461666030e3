/** What every run of cisum.token keeps: the supply is the sum of all balances and never exceeds its maximum. */
module TokenLedger {
  import opened Eosio
  import opened Sums
  import opened TokenModel

  ghost function BalancesOf(s: State, code: string): map<(Name, string), int> {
    map k | k in s.rows :: if k.1 == code then s.rows[k].balance.amount else 0
  }

  /** All tokens of one symbol, over every holder. */
  ghost function Circulating(s: State, code: string): int { Sum(BalancesOf(s, code)) }

  ghost predicate RowOk(s: State, k: (Name, string)) {
    && k in s.rows && k.1 in s.stats
    && s.rows[k].balance.sym == s.rows[k].consumed.sym == s.stats[k.1].supply.sym
    && 0 <= s.rows[k].balance.amount && 0 <= s.rows[k].consumed.amount
  }

  ghost predicate StatOk(code: string, st: Stat) {
    && st.supply.sym == st.maxSupply.sym && st.supply.sym.code == code
    && 0 <= st.supply.amount <= st.maxSupply.amount <= MAX_AMOUNT
  }

  ghost predicate Backed(s: State) {
    && (forall k | k in s.rows :: RowOk(s, k))
    && (forall c | c in s.stats :: StatOk(c, s.stats[c]))
    && (forall c {:trigger Circulating(s, c)} | c in s.stats :: s.stats[c].supply.amount == Circulating(s, c))
  }

  function Balance(s: State, owner: Name, code: string): int {
    if (owner, code) in s.rows then s.rows[(owner, code)].balance.amount else 0
  }

  lemma RowSet(s: State, t: State, k: (Name, string))
    requires k in t.rows && t.rows == s.rows[k := t.rows[k]]
    ensures forall c: string {:trigger Circulating(t, c)} ::
              Circulating(t, c) == Circulating(s, c) + if c == k.1 then t.rows[k].balance.amount - Balance(s, k.0, k.1) else 0
  {
    forall c: string
      ensures Circulating(t, c) == Circulating(s, c) + if c == k.1 then t.rows[k].balance.amount - Balance(s, k.0, k.1) else 0
    {
      var v := if k.1 == c then t.rows[k].balance.amount else 0;
      assert BalancesOf(t, c) == BalancesOf(s, c)[k := v];
      SumSet(BalancesOf(s, c), k, v);
    }
  }

  lemma SameRows(s: State, t: State)
    requires t.rows == s.rows
    ensures forall c: string {:trigger Circulating(t, c)} :: Circulating(t, c) == Circulating(s, c)
  {
    assert forall c: string :: BalancesOf(t, c) == BalancesOf(s, c);
  }

  /** No two holders together have more than the supply. */
  lemma WithinSupply(s: State, one: Name, two: Name, code: string)
    requires Backed(s) && code in s.stats && one != two
    ensures 0 <= Balance(s, one, code) && 0 <= Balance(s, two, code)
    ensures Balance(s, one, code) + Balance(s, two, code) <= s.stats[code].supply.amount
  {
    var m := BalancesOf(s, code);
    assert s.stats[code].supply.amount == Circulating(s, code);
    assert forall k | k in s.rows :: RowOk(s, k);
    var rest := m - {(one, code)};
    if (one, code) in s.rows {
      SumRemove(m, (one, code));
    } else {
      assert rest == m;
    }
    SumNonNegative(rest);
    if (two, code) in s.rows {
      assert rest[(two, code)] == Balance(s, two, code);
    }
  }

  // ---------- Debits and credits ----------

  lemma SubEffect(s: State, owner: Name, q: Asset, spends: bool)
    requires SubBalance(s, owner, q, spends).Some?
    ensures var t := SubBalance(s, owner, q, spends).value; var k := (owner, q.sym.code);
            && q.amount > 0 && k in s.rows
            && t == s.(rows := s.rows[k := t.rows[k]])
            && t.rows[k].balance == Asset(s.rows[k].balance.amount - q.amount, q.sym) && s.rows[k].balance.sym == q.sym
            && t.rows[k].balance.amount >= 0
            && t.rows[k].consumed == s.rows[k].consumed.(amount := s.rows[k].consumed.amount + if spends then q.amount else 0)
  {
  }

  lemma AddEffect(s: State, owner: Name, q: Asset)
    requires AddBalance(s, owner, q).Some?
    ensures var t := AddBalance(s, owner, q).value; var k := (owner, q.sym.code);
            && q.amount > 0
            && t == s.(rows := s.rows[k := t.rows[k]])
            && t.rows[k].balance == Asset(Balance(s, owner, q.sym.code) + q.amount, q.sym)
            && t.rows[k].consumed == (if k in s.rows then s.rows[k].consumed else Asset(0, q.sym))
            && (k in s.rows ==> s.rows[k].balance.sym == q.sym)
  {
  }

  lemma RowsKept(s: State, t: State, k: (Name, string))
    requires (forall j | j in s.rows :: RowOk(s, j)) && RowOk(t, k)
    requires t.rows == s.rows[k := t.rows[k]]
    requires forall c | c in s.stats :: c in t.stats && t.stats[c].supply.sym == s.stats[c].supply.sym
    ensures forall j | j in t.rows :: RowOk(t, j)
  {
    forall j | j in t.rows
      ensures RowOk(t, j)
    {
      if j != k {
        assert RowOk(s, j);
      }
    }
  }

  lemma IssueKeepsBacked(s: State, allowed: bool, to: Name, q: Asset)
    requires Backed(s) && IssueSpec(s, allowed, to, q).Some?
    ensures Backed(IssueSpec(s, allowed, to, q).value)
  {
    hide AddBalance, RowOk, Circulating;
    var t := IssueSpec(s, allowed, to, q).value;
    var m := s.(stats := s.stats[q.sym.code := s.stats[q.sym.code].(supply := AddAsset(s.stats[q.sym.code].supply, q).value)]);
    AddEffect(m, to, q);
    SameRows(s, m);
    RowSet(m, t, (to, q.sym.code));
    Credited(s, t, to, q);
    RowsKept(s, t, (to, q.sym.code));
  }

  /** The row credited is in order when its stat is. */
  lemma Credited(s: State, t: State, owner: Name, q: Asset)
    requires (forall j | j in s.rows :: RowOk(s, j)) && q.amount > 0
    requires var k := (owner, q.sym.code);
             && k in t.rows && k.1 in t.stats && t.stats[k.1].supply.sym == q.sym
             && t.rows[k].balance == Asset(Balance(s, owner, k.1) + q.amount, q.sym)
             && t.rows[k].consumed == (if k in s.rows then s.rows[k].consumed else Asset(0, q.sym))
             && k.1 in s.stats && s.stats[k.1].supply.sym == q.sym
    ensures RowOk(t, (owner, q.sym.code))
  {
    var k := (owner, q.sym.code);
    if k in s.rows {
      assert RowOk(s, k);
    }
  }

  lemma RetireKeepsBacked(s: State, allowed: bool, q: Asset)
    requires Backed(s) && RetireSpec(s, allowed, q).Some?
    ensures Backed(RetireSpec(s, allowed, q).value)
  {
    hide SubBalance, RowOk, Circulating;
    var t := RetireSpec(s, allowed, q).value;
    var code := q.sym.code;
    var m := s.(stats := s.stats[code := s.stats[code].(supply := SubAsset(s.stats[code].supply, q).value)]);
    SubEffect(m, s.issuer, q, false);
    WithinSupply(s, s.issuer, s.issuer + 1, code);
    SameRows(s, m);
    RowSet(m, t, (s.issuer, code));
    SymbolsAgree(s, s.issuer, code);
    Debited(s, t, s.issuer, q);
    RowsKept(s, t, (s.issuer, code));
  }

  lemma Debited(s: State, t: State, owner: Name, q: Asset)
    requires (forall j | j in s.rows :: RowOk(s, j))
    requires var k := (owner, q.sym.code);
             && k in s.rows && k in t.rows && k.1 in t.stats && t.stats[k.1].supply.sym == s.rows[k].balance.sym == t.rows[k].balance.sym == t.rows[k].consumed.sym
             && t.rows[k].balance.amount >= 0 && t.rows[k].consumed.amount >= s.rows[k].consumed.amount
    ensures RowOk(t, (owner, q.sym.code))
  {
    assert RowOk(s, (owner, q.sym.code));
  }

  lemma TransferEffect(s: State, allowed: bool, from: Name, to: Name, q: Asset)
    requires Backed(s) && TransferSpec(s, allowed, from, to, q).Some?
    ensures var r := TransferSpec(s, allowed, from, to, q).value; var k, l := (from, q.sym.code), (to, q.sym.code); var t := r.0;
            && Backed(t)
            && q.amount > 0 && k in s.rows && k in t.rows && l in t.rows
            && t == s.(rows := s.rows[k := t.rows[k]][l := t.rows[l]])
            && t.rows[k].balance.amount == s.rows[k].balance.amount - q.amount
            && t.rows[l].balance.amount == Balance(s, to, q.sym.code) + q.amount
            && t.rows[k].consumed.amount == s.rows[k].consumed.amount + (if to in s.consumers then q.amount else 0)
            && (l in s.rows ==> t.rows[l].consumed == s.rows[l].consumed)
            && r.1 == if to in s.consumers then Packs(s.rules, s.rows[k].consumed.amount, t.rows[k].consumed.amount) else []
  {
    hide SubBalance, AddBalance, RowOk, Circulating, Packs, StatOk;
    var code := q.sym.code;
    var spends := to in s.consumers;
    var m := SubBalance(s, from, q, spends).value;
    var t := AddBalance(m, to, q).value;
    SubEffect(s, from, q, spends);
    AddEffect(m, to, q);
    RowSet(s, m, (from, code));
    RowSet(m, t, (to, code));
    SymbolsAgree(s, from, code);
    Debited(s, m, from, q);
    RowsKept(s, m, (from, code));
    Credited(m, t, to, q);
    RowsKept(m, t, (to, code));
  }

  lemma SymbolsAgree(s: State, owner: Name, code: string)
    requires Backed(s) && (owner, code) in s.rows
    ensures code in s.stats && s.rows[(owner, code)].balance.sym == s.rows[(owner, code)].consumed.sym == s.stats[code].supply.sym
  {
    assert RowOk(s, (owner, code));
  }

  /** A transfer needs the parties, the amount and the permission to be right and the sender to have enough; the receiver's
      balance never overflows, and the spending counter only when it would pass 2^62 - 1. */
  lemma TransferCommitsIff(s: State, allowed: bool, from: Name, to: Name, q: Asset)
    requires Backed(s)
    ensures TransferSpec(s, allowed, from, to, q).Some? <==>
              && from != to && allowed && q.sym.code in s.stats && q.sym == s.stats[q.sym.code].supply.sym
              && (from == s.issuer || from in s.whitelist || to in s.consumers)
              && 0 < q.amount <= Balance(s, from, q.sym.code)
              && (to in s.consumers ==> s.rows[(from, q.sym.code)].consumed.amount + q.amount <= MAX_AMOUNT)
  {
    hide Packs, Circulating;
    var code := q.sym.code;
    if code in s.stats && from != to {
      WithinSupply(s, from, to, code);
      assert StatOk(code, s.stats[code]);
      if (from, code) in s.rows {
        assert RowOk(s, (from, code));
      }
      if (to, code) in s.rows {
        assert RowOk(s, (to, code));
      }
    }
  }

  // ---------- Steps and runs ----------

  lemma RowStepKeepsBacked(s: State, act: Action, allowed: bool)
    requires Backed(s) && (act.Create? || act.Open? || act.Close?) && Step(s, act, allowed).Some?
    ensures Backed(Step(s, act, allowed).value.0)
  {
    hide RowOk, Circulating;
    var t := Step(s, act, allowed).value.0;
    match act
    case Create(maxSupply) =>
      SameRows(s, t);
      NothingYet(s, maxSupply.sym.code);
      forall k | k in t.rows
        ensures RowOk(t, k)
      {
        RowCarries(s, t, k);
      }
    case Open(owner, sym) =>
      if t != s {
        RowSet(s, t, (owner, sym.code));
        Opened(t, owner, sym);
        RowsKept(s, t, (owner, sym.code));
      }
    case Close(owner, code) => Closed(s, t, owner, code);
  }

  lemma RowCarries(s: State, t: State, k: (Name, string))
    requires RowOk(s, k) && t.rows == s.rows && k.1 in t.stats && t.stats[k.1].supply.sym == s.stats[k.1].supply.sym
    ensures RowOk(t, k)
  {
  }

  lemma Opened(t: State, owner: Name, sym: Symbol)
    requires (owner, sym.code) in t.rows && t.rows[(owner, sym.code)] == Row(Asset(0, sym), Asset(0, sym))
    requires sym.code in t.stats && t.stats[sym.code].supply.sym == sym
    ensures RowOk(t, (owner, sym.code))
  {
  }

  lemma NothingYet(s: State, code: string)
    requires (forall k | k in s.rows :: RowOk(s, k)) && code !in s.stats
    ensures Circulating(s, code) == 0 && forall k | k in s.rows :: k.1 in s.stats && k.1 != code
  {
    forall k | k in s.rows
      ensures k.1 in s.stats && BalancesOf(s, code)[k] == 0
    {
      assert RowOk(s, k);
    }
    SumZero(BalancesOf(s, code));
  }

  lemma Closed(s: State, t: State, owner: Name, code: string)
    requires Backed(s) && (owner, code) in s.rows && s.rows[(owner, code)].balance.amount == 0
    requires t == s.(rows := s.rows - {(owner, code)})
    ensures Backed(t)
  {
    hide StatOk;
    forall c: string
      ensures Circulating(t, c) == Circulating(s, c)
    {
      assert BalancesOf(t, c) == BalancesOf(s, c) - {(owner, code)};
      SumRemove(BalancesOf(s, c), (owner, code));
    }
    forall k | k in t.rows
      ensures RowOk(t, k)
    {
      assert RowOk(s, k);
    }
  }

  lemma SettingsKeepBacked(s: State, t: State)
    requires Backed(s) && t.rows == s.rows && t.stats == s.stats
    ensures Backed(t)
  {
    hide Circulating, StatOk;
    SameRows(s, t);
    forall k | k in t.rows
      ensures RowOk(t, k)
    {
      assert RowOk(s, k);
    }
  }

  lemma StepKeepsBacked(s: State, act: Action, allowed: bool)
    requires Backed(s) && Step(s, act, allowed).Some?
    ensures Backed(Step(s, act, allowed).value.0)
  {
    hide Backed, IssueSpec, RetireSpec, TransferSpec, CreateSpec, OpenSpec, CloseSpec, FindRule, BadgeUsed, Replace, Without;
    match act
    case Issue(to, q) => IssueKeepsBacked(s, allowed, to, q);
    case Retire(q) => RetireKeepsBacked(s, allowed, q);
    case Transfer(from, to, q) => TransferEffect(s, allowed, from, to, q);
    case Create(_) => RowStepKeepsBacked(s, act, allowed);
    case Open(_, _) => RowStepKeepsBacked(s, act, allowed);
    case Close(_, _) => RowStepKeepsBacked(s, act, allowed);
    case _ => SettingsKeepBacked(s, Step(s, act, allowed).value.0);
  }

  /** In every reachable state the supply of each symbol is the sum of all its balances, none negative, within the maximum. */
  lemma {:induction false} RunKeepsBacked(s: State, trace: Trace)
    requires Backed(s)
    ensures Backed(Run(s, trace))
  {
    hide Backed, Step;
    if trace != [] {
      var init, last := trace[..|trace| - 1], trace[|trace| - 1];
      RunKeepsBacked(s, init);
      if Step(Run(s, init), last.0, last.1).Some? {
        StepKeepsBacked(Run(s, init), last.0, last.1);
      }
    }
  }

  lemma StartIsBacked()
    ensures Backed(Start())
  {
  }

  /** Every reachable state is such a state. */
  lemma ReachableIsBacked(trace: Trace)
    ensures Backed(Run(Start(), trace))
  {
    StartIsBacked();
    RunKeepsBacked(Start(), trace);
  }
}
