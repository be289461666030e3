/** The contract object of cisum.token. */
module TokenContract {
  import opened Eosio
  import opened TokenModel

  type Rows = map<(Name, string), Row>

  ghost function RowsOf(s: Option<State>): Option<Rows> {
    match s
    case Abort => Abort
    case Some(t) => Some(t.rows)
  }

  class CisumToken {
    var issuer: Name
    var whitelist: set<Name>
    var consumers: set<Name>
    var stats: map<string, Stat>
    var rows: Rows
    var rules: seq<Rule>

    ghost function Snapshot(): State
      reads this
    {
      State(issuer, whitelist, consumers, stats, rows, rules)
    }

    constructor ()
      ensures Snapshot() == Start()
    {
      issuer, whitelist, consumers := 0, {}, {};
      stats, rows, rules := map[], map[], [];
    }

    method Debit(accounts: Rows, owner: Name, q: Asset, spends: bool) returns (r: Option<Rows>)
      ensures forall s: State | s.rows == accounts :: r == RowsOf(SubBalance(s, owner, q, spends))
      ensures r.Some? ==> (owner, q.sym.code) in accounts && r.value.Keys == accounts.Keys
    {
      hide InRange;
      var key := (owner, q.sym.code);
      var _ :- Check(InRange(q.amount));
      var _ :- Check(q.amount > 0);
      var _ :- Check(key in accounts);
      var row := accounts[key];
      var _ :- Check(row.balance.amount >= q.amount);
      var balance :- SubAsset(row.balance, q);
      var consumed := row.consumed;
      if spends {
        consumed :- AddAsset(consumed, q);
      }
      return Some(accounts[key := Row(balance, consumed)]);
    }

    method Credit(accounts: Rows, owner: Name, q: Asset) returns (r: Option<Rows>)
      ensures forall s: State | s.rows == accounts :: r == RowsOf(AddBalance(s, owner, q))
      ensures r.Some? ==> accounts.Keys <= r.value.Keys
    {
      hide InRange;
      var key := (owner, q.sym.code);
      var _ :- Check(InRange(q.amount));
      var _ :- Check(q.amount > 0);
      if key !in accounts {
        return Some(accounts[key := Row(q, Asset(0, q.sym))]);
      }
      var row := accounts[key];
      var balance :- AddAsset(row.balance, q);
      return Some(accounts[key := row.(balance := balance)]);
    }

    method Create(allowed: bool, maxSupply: Asset) returns (r: Option<()>)
      modifies this
      ensures Applied(r, CreateSpec(old(Snapshot()), allowed, maxSupply), old(Snapshot()), Snapshot())
    {
      var _ :- Check(allowed);
      var _ :- Check(0 < maxSupply.amount <= MAX_AMOUNT);
      var _ :- Check(maxSupply.sym.code !in stats);
      stats := stats[maxSupply.sym.code := Stat(Asset(0, maxSupply.sym), maxSupply)];
      return Some(());
    }

    method Issue(allowed: bool, to: Name, q: Asset) returns (r: Option<()>)
      modifies this
      ensures Applied(r, IssueSpec(old(Snapshot()), allowed, to, q), old(Snapshot()), Snapshot())
    {
      hide InRange, SubBalance;
      var code := q.sym.code;
      var _ :- Check(allowed && (to == issuer || to == POH_CISUM || to == POS_CISUM));
      var _ :- Check(InRange(q.amount) && q.amount > 0 && code in stats);
      var st := stats[code];
      var _ :- Check(q.amount <= st.maxSupply.amount - st.supply.amount);
      var supply :- AddAsset(st.supply, q);
      var accounts :- Credit(rows, to, q);
      ghost var funded := Snapshot().(stats := stats[code := st.(supply := supply)]);
      assert RowsOf(AddBalance(funded, to, q)) == Some(accounts);
      stats := stats[code := st.(supply := supply)];
      rows := accounts;
      return Some(());
    }

    method Retire(allowed: bool, q: Asset) returns (r: Option<()>)
      modifies this
      ensures Applied(r, RetireSpec(old(Snapshot()), allowed, q), old(Snapshot()), Snapshot())
    {
      hide InRange;
      var code := q.sym.code;
      var _ :- Check(allowed && InRange(q.amount) && q.amount > 0 && code in stats);
      var st := stats[code];
      var supply :- SubAsset(st.supply, q);
      var accounts :- Debit(rows, issuer, q, false);
      stats := stats[code := st.(supply := supply)];
      rows := accounts;
      return Some(());
    }

    /** One pack per rule whose threshold was crossed. */
    method TryAwardBadges(before: int, after: int) returns (packs: seq<Pack>)
      ensures packs == Packs(rules, before, after)
    {
      packs := [];
      for i := 0 to |rules|
        invariant packs == Packs(rules[..i], before, after)
      {
        var rule := rules[i];
        assert rules[..i + 1][..i] == rules[..i];
        if !rule.enabled || rule.threshold.sym != CISUM || rule.threshold.amount <= 0 || after <= before {
          continue;
        }
        var step := rule.threshold.amount;
        var delta := TruncDiv(after, step) - TruncDiv(before, step);
        if delta > 0 {
          packs := packs + [Pack(rule.id, rule.nid, delta)];
        }
      }
      assert rules[..|rules|] == rules;
    }

    method Transfer(allowed: bool, from: Name, to: Name, q: Asset) returns (r: Option<seq<Pack>>)
      modifies this
      ensures AppliedWith(r, TransferSpec(old(Snapshot()), allowed, from, to, q), old(Snapshot()), Snapshot())
    {
      hide InRange, Packs;
      var code := q.sym.code;
      var _ :- Check(from != to && allowed && code in stats);
      var _ :- Check(InRange(q.amount) && q.amount > 0 && q.sym == stats[code].supply.sym);
      var permitted := from == issuer || from in whitelist;
      var countConsumed := false;
      if to in consumers {
        permitted := true;
        countConsumed := true;
      }
      var _ :- Check(permitted);
      var taken :- Debit(rows, from, q, countConsumed);
      var before := rows[(from, code)].consumed.amount;
      var given :- Credit(taken, to, q);
      rows := given;
      var packs: seq<Pack> := [];
      if countConsumed {
        packs := TryAwardBadges(before, given[(from, code)].consumed.amount);
      }
      return Some(packs);
    }

    method Close(allowed: bool, owner: Name, code: string) returns (r: Option<()>)
      modifies this
      ensures Applied(r, CloseSpec(old(Snapshot()), allowed, owner, code), old(Snapshot()), Snapshot())
    {
      var _ :- Check(allowed);
      var _ :- Check((owner, code) in rows);
      var _ :- Check(rows[(owner, code)].balance.amount == 0);
      rows := rows - {(owner, code)};
      return Some(());
    }
  }
}
