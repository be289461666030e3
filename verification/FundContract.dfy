/** The contract object of poh.cisum, as far as inviter funds go. */
module FundContract {
  import opened Eosio
  import opened FundModel

  /** The entries of a map before, at and after a position. */
  lemma ServePrefix(all: Balances, k: nat, invitee: Name, now: nat)
    requires k < |all|
    ensures all[..k + 1][..k] == all[..k] && all[..k + 1][k] == all[k]
  {
  }

  class PohCisum {
    var registrar: Name
    var rows: map<Name, Balances>

    ghost function Snapshot(): State
      reads this
    {
      State(registrar, rows)
    }

    constructor (registrar: Name)
      ensures Snapshot() == State(registrar, map[])
    {
      this.registrar := registrar;
      rows := map[];
    }

    method MergeFund(inviter: Name, token: Token, more: Fund) returns (r: Option<()>)
      modifies this
      ensures Applied(r, MergeSpec(old(Snapshot()), inviter, token, more), old(Snapshot()), Snapshot())
    {
      hide Insert, Update, HasToken, InRange;
      var balances := if inviter in rows then rows[inviter] else [];
      if !HasToken(balances, token) {
        var _ :- Check(more.reward > 0);
        var _ :- Check(more.start > 0 && more.end > 0);
        var _ :- Check(more.start < more.end);
        rows := rows[inviter := Insert(balances, Entry(token, more))];
        return Some(());
      }
      var fund := FundOf(balances, token);
      var _ :- Check(InRange(fund.available + more.available));
      fund := fund.(available := fund.available + more.available);
      if more.title != "" {
        fund := fund.(title := more.title);
      }
      if more.reward > 0 {
        fund := fund.(reward := more.reward);
      }
      if more.start > 0 {
        fund := fund.(start := more.start);
      }
      if more.end > 0 {
        fund := fund.(end := more.end);
      }
      rows := rows[inviter := Update(balances, token, fund)];
      return Some(());
    }

    method OnTransfer(from: Name, bank: Name, quantity: Asset, terms: Terms, now: nat) returns (r: Option<()>)
      modifies this
      ensures Applied(r, RefuelSpec(old(Snapshot()), from, bank, quantity, terms, now), old(Snapshot()), Snapshot())
    {
      hide MergeSpec, InRange;
      var _ :- Check(quantity.amount > 0);
      var mul: S64 := 1;
      for i := 0 to quantity.sym.precision
        invariant mul == PowerWrapped(i)
        invariant Snapshot() == old(Snapshot())
      {
        mul := WrapS64(mul * 10);
      }
      hide PowerWrapped, WrapS64;
      match terms
      case NoTerms =>
        r := MergeFund(from, Token(quantity.sym, bank), Fund("", quantity.amount, 0, 0, 0));
      case Terms(title, reward, start, end) =>
        var _ :- Check(|title| <= 64 && reward > 0 && start > now && end > start);
        var units := WrapS64(reward * mul);
        var _ :- Check(InRange(units) && units <= quantity.amount);
        r := MergeFund(from, Token(quantity.sym, bank), Fund(title, quantity.amount, units, start, end));
    }

    /** Pays from every eligible entry, erasing entries from the list that the loop walks. */
    method ServeAll(all: Balances, invitee: Name, now: nat) returns (balances: Balances, outs: seq<Payout>)
      ensures (balances, outs) == Serve(all, invitee, now)
    {
      hide Serve, Eligible;
      balances, outs := all, [];
      var it := 0;
      ghost var done := 0;
      NothingServed(all, invitee, now);
      while it < |balances|
        invariant done <= |all| && it == |Serve(all[..done], invitee, now).0|
        invariant balances == Serve(all[..done], invitee, now).0 + all[done..]
        invariant outs == Serve(all[..done], invitee, now).1
        decreases |all| - done
      {
        ghost var kept := Serve(all[..done], invitee, now).0;
        ghost var rest := all[done + 1..];
        assert all[done..] == [all[done]] + rest;
        Splice(kept, all[done], rest);
        Turn(all, done, invitee, now);
        var e := balances[it];
        done := done + 1;
        if !Eligible(e.fund, now) {
          it := it + 1;
          continue;
        }
        var payout := e.fund.reward;
        var left := e.fund.available - payout;
        var eraseRecord := left == 0;
        if e.fund.available < e.fund.reward {
          payout, left, eraseRecord := e.fund.available, 0, true;
        }
        if payout > 0 {
          outs := outs + [Payout(e.token, invitee, payout)];
        }
        if eraseRecord {
          balances := balances[..it] + balances[it + 1..];
        } else {
          balances := balances[it := e.(fund := e.fund.(available := left))];
          it := it + 1;
        }
      }
      assert done == |all| && all[..done] == all && all[done..] == [];
      assert balances == Serve(all, invitee, now).0;
    }

    static lemma NothingServed(all: Balances, invitee: Name, now: nat)
      ensures Serve(all[..0], invitee, now) == ([], [])
    {
    }

    /** Reading, erasing and replacing the entry between two parts. */
    static lemma Splice(kept: Balances, e: Entry, rest: Balances)
      ensures var all := kept + ([e] + rest);
              && |all| == |kept| + 1 + |rest| && all[|kept|] == e
              && all[..|kept|] + all[|kept| + 1..] == kept + rest
              && all == kept + [e] + rest
              && forall f: Entry :: all[|kept| := f] == kept + [f] + rest
    {
      var all := kept + ([e] + rest);
      forall f: Entry
        ensures all[|kept| := f] == kept + [f] + rest
      {
      }
    }

    static lemma Turn(all: Balances, k: nat, invitee: Name, now: nat)
      requires k < |all|
      ensures var before, after, e := Serve(all[..k], invitee, now), Serve(all[..k + 1], invitee, now), all[k];
              if !Eligible(e.fund, now) then after == (before.0 + [e], before.1)
              else
                var pay := Share(e.fund);
                var left := e.fund.available - pay;
                after == (if left == 0 then before.0 else before.0 + [e.(fund := e.fund.(available := left))],
                          if pay > 0 then before.1 + [Payout(e.token, invitee, pay)] else before.1)
    {
      hide Eligible, Share;
      ServePrefix(all, k, invitee, now);
    }

    method RegisterReward(inviter: Name, invitee: Name, allowed: bool, now: nat) returns (r: Option<seq<Payout>>)
      modifies this
      ensures AppliedWith(r, RegisterSpec(old(Snapshot()), inviter, invitee, allowed, now), old(Snapshot()), Snapshot())
    {
      hide Serve;
      var _ :- Check(allowed);
      var _ :- Check(inviter != invitee);
      if inviter !in rows {
        return Some([]);
      }
      var balances, outs := ServeAll(rows[inviter], invitee, now);
      rows := rows[inviter := balances];
      if balances == [] {
        assert rows - {inviter} == old(rows) - {inviter};
        rows := rows - {inviter};
      }
      return Some(outs);
    }

    method SetFundInfo(allowed: bool, inviter: Name, token: Token, title: string, start: Maybe, end: Maybe) returns (r: Option<()>)
      modifies this
      ensures Applied(r, SetInfoSpec(old(Snapshot()), allowed, inviter, token, title, start, end), old(Snapshot()), Snapshot())
    {
      hide Update, HasToken;
      var _ :- Check(allowed);
      var _ :- Check(inviter in rows);
      var _ :- Check(HasToken(rows[inviter], token));
      var fund := FundOf(rows[inviter], token);
      if title != "" {
        fund := fund.(title := title);
      }
      if start.Present? {
        fund := fund.(start := start.value);
      }
      if end.Present? {
        var _ :- Check(end.value > fund.start);
        fund := fund.(end := end.value);
      }
      rows := rows[inviter := Update(rows[inviter], token, fund)];
      return Some(());
    }

    method SetRegistrar(allowed: bool, who: Name) returns (r: Option<()>)
      modifies this
      ensures Applied(r, SetRegistrarSpec(old(Snapshot()), allowed, who), old(Snapshot()), Snapshot())
    {
      var _ :- Check(allowed);
      registrar := who;
      return Some(());
    }

    method RedeemFund(oper: Name, inviter: Name, now: nat) returns (r: Option<seq<Payout>>)
      modifies this
      ensures AppliedWith(r, RedeemSpec(old(Snapshot()), oper, inviter, now), old(Snapshot()), Snapshot())
    {
      var _ :- Check(inviter in rows);
      var balances := rows[inviter];
      if oper != inviter && !(registrar != 0 && oper == registrar) {
        var canClose := true;
        var i := 0;
        while i < |balances| && canClose
          invariant 0 <= i <= |balances|
          invariant canClose <==> AllEnded(balances[..i], now)
          invariant canClose || !AllEnded(balances, now)
        {
          assert balances[..i + 1][..i] == balances[..i];
          canClose := balances[i].fund.end <= now;
          i := i + 1;
        }
        assert canClose ==> balances[..i] == balances;
        var _ :- Check(canClose);
      }
      var outs: seq<Payout> := [];
      for i := 0 to |balances|
        invariant outs == Refunds(balances[..i], inviter)
      {
        assert balances[..i + 1][..i] == balances[..i];
        if balances[i].fund.available > 0 {
          outs := outs + [Payout(balances[i].token, inviter, balances[i].fund.available)];
        }
      }
      assert balances[..|balances|] == balances;
      rows := rows - {inviter};
      return Some(outs);
    }
  }
}
