/** The stock ledger of show.cisum over whole runs, and what its overflow checks and its batch check are worth. */
module ShowStock {
  import opened Eosio
  import opened Sums
  import opened TicketLedger
  import opened GrabModel
  import opened TicketWorld
  import opened TicketEscrow
  import TicketRuns
  import S = ShowModel

  // ---------- Tickets lent to grab.cisum ----------

  /** What a committed transaction adds to the tickets of `key` that are out: lent by `issuetograb`, less those returned. */
  ghost function Lent(w: World, act: Action, env: Env, key: S.Key): int {
    match act
    case IssueToGrab(_, showId, q, _) => if (showId, q.nid) == key then q.amount else 0
    case SubGrab(kind, id, q) =>
      var done := SubGrabSpec(w.grab, env.allowed, kind, id, q);
      if done.Some? && (done.value.1, q.nid) == key then 0 - q.amount else 0
    case _ => 0
  }

  ghost function LentOut(trace: seq<Event>, key: S.Key): int {
    if trace == [] then 0
    else
      var init, last := trace[..|trace| - 1], trace[|trace| - 1];
      var w := Run(Empty(), init);
      LentOut(init, key) + if Step(w, last.act, last.env).Some? then Lent(w, last.act, last.env, key) else 0
  }

  /** The ledger in 32-bit counters: stock, sold and lent tickets add up to the total modulo 2^32, and every ticket sold was
      issued. A row that was never created has lent nothing. */
  ghost predicate Congruent(s: S.Show, key: S.Key, out: int) {
    if key in s.tickets then
      var row := s.tickets[key];
      (row.stock + row.sold + out - row.total) % TWO_32 == 0 && row.issued == row.sold
    else
      out == 0
  }

  /** The ledger in numbers. */
  ghost predicate Exact(s: S.Show, key: S.Key, out: int) {
    && out >= 0
    && (if key in s.tickets then s.tickets[key].stock + s.tickets[key].sold + out == s.tickets[key].total else out == 0)
  }

  /** Tickets newly minted for `key` still fit the total. */
  ghost predicate MintFits(s: S.Show, act: Action, key: S.Key) {
    act.IssueNft? && (act.showId, act.q.nid) == key && key in s.tickets ==> s.tickets[key].total + act.q.amount < TWO_32
  }

  ghost predicate Keeps(s: S.Show, t: S.Show, key: S.Key, out: int, change: int, fits: bool) {
    && (Congruent(s, key, out) ==> Congruent(t, key, out + change))
    && (Exact(s, key, out) && fits && out + change >= 0 ==> Exact(t, key, out + change))
  }

  // ---------- One table operation at a time ----------

  lemma MintKeeps(s: S.Show, showId: nat, q: NAsset, key: S.Key, out: int, fits: bool)
    requires S.MintSpec(s, showId, q).Some?
    requires fits && (showId, q.nid) == key ==> s.tickets[key].total + q.amount < TWO_32
    ensures Keeps(s, S.MintSpec(s, showId, q).value, key, out, 0, fits)
  {
    if fits && (showId, q.nid) == key && Exact(s, key, out) {
      assert s.tickets[key].stock <= s.tickets[key].total;
    }
  }

  lemma SellKeeps(s: S.Show, which: S.Key, count: S.U32, now: nat, key: S.Key, out: int)
    requires S.SellSpec(s, which, count, now).Some?
    ensures Keeps(s, S.SellSpec(s, which, count, now).value, key, out, 0, true)
  {
  }

  lemma LendKeeps(s: S.Show, showId: nat, q: NAsset, key: S.Key, out: int)
    requires S.LendSpec(s, showId, q).Some?
    ensures Keeps(s, S.LendSpec(s, showId, q).value, key, out, if (showId, q.nid) == key then q.amount else 0, true)
  {
  }

  lemma TakeBackKeeps(s: S.Show, showId: nat, q: NAsset, key: S.Key, out: int)
    requires q.amount > 0 && S.TakeBackSpec(s, showId, q).Some?
    ensures Keeps(s, S.TakeBackSpec(s, showId, q).value, key, out, if (showId, q.nid) == key then 0 - q.amount else 0, true)
  {
  }

  lemma ShrinkKeeps(s: S.Show, showId: nat, q: NAsset, key: S.Key, out: int)
    requires S.ShrinkSpec(s, showId, q).Some?
    ensures Keeps(s, S.ShrinkSpec(s, showId, q).value, key, out, 0, true)
  {
  }

  lemma SameShow(s: S.Show, key: S.Key, out: int)
    ensures Keeps(s, s, key, out, 0, true)
  {
  }

  // ---------- Whole transactions ----------

  /** Only grab.cisum can return tickets. */
  lemma SendKeepsShow(w: World, env: Env, from: Name, to: Name, assets: seq<NAsset>, memo: Memo)
    requires from != GRAB_CISUM && Send(w, env, from, to, assets, memo).Some?
    ensures Send(w, env, from, to, assets, memo).value.show == w.show
  {
    hide OnTicketSpec, MoveAll, Dispatch;
  }

  lemma IssueTicketKeeps(w: World, env: Env, user: Name, which: S.Key, count: S.U32, memo: Memo, key: S.Key, out: int)
    requires IssueTicketSpec(w, env, user, which, count, memo).Some?
    ensures Keeps(w.show, IssueTicketSpec(w, env, user, which, count, memo).value.show, key, out, 0, true)
  {
    hide Send, S.SellSpec, Keeps;
    var show := S.SellSpec(w.show, which, count, env.now).value;
    SellKeeps(w.show, which, count, env.now, key, out);
    SendKeepsShow(w.(show := show), env, SHOW_CISUM, user, [NAsset(count, which.1)], memo);
  }

  lemma {:induction false} IssueEachKeeps(w: World, env: Env, recipients: seq<Name>, which: S.Key, count: S.U32, key: S.Key, out: int)
    requires IssueEach(w, env, recipients, which, count).Some?
    ensures Keeps(w.show, IssueEach(w, env, recipients, which, count).value.show, key, out, 0, true)
  {
    hide IssueTicketSpec, Congruent, Exact;
    if recipients != [] {
      var init := recipients[..|recipients| - 1];
      IssueEachKeeps(w, env, init, which, count, key, out);
      IssueTicketKeeps(IssueEach(w, env, init, which, count).value, env, recipients[|recipients| - 1], which, count, OtherMemo, key, out);
    }
  }

  lemma SubGrabKeeps(w: World, act: Action, env: Env, key: S.Key, out: int)
    requires act.SubGrab? && GrabStep(w, act, env).Some?
    ensures Keeps(w.show, GrabStep(w, act, env).value.show, key, out, Lent(w, act, env, key), true)
  {
    hide Keeps, OnTicketSpec, MoveAll, Dispatch, S.TakeBackSpec;
    var done := SubGrabSpec(w.grab, env.allowed, act.kind, act.id, act.tickets).value;
    TakeBackKeeps(w.show, done.1, act.tickets, key, out);
  }

  lemma GrabStepKeeps(w: World, act: Action, env: Env, key: S.Key, out: int)
    requires GrabStep(w, act, env).Some?
    ensures Keeps(w.show, GrabStep(w, act, env).value.show, key, out, Lent(w, act, env, key), true)
  {
    hide Keeps, Send, Dispatch, SubGrabSpec, AddTokenSpec, AddSaleSpec, SetSaleSpec, AddUpgradeSpec, SetUpgradeSpec, PayGrabSpec, DelSaleSpec, DelUpgradeSpec;
    SameShow(w.show, key, out);
    if act.SubGrab? {
      SubGrabKeeps(w, act, env, key, out);
    }
  }

  lemma NftStepKeeps(w: World, act: Action, env: Env, key: S.Key, out: int)
    requires NftStep(w, act, env).Some?
    ensures Keeps(w.show, NftStep(w, act, env).value.show, key, out, 0, true)
  {
    hide Keeps, Send, CreateSpec, IssueSpec, RetireSpec;
    SameShow(w.show, key, out);
    match act
    case NftTransfer(from, to, assets, memo) => SendKeepsShow(w, env, from, to, assets, memo);
    case _ =>
  }

  lemma SetUpKeeps(w: World, act: Action, env: Env, key: S.Key, out: int)
    requires act.NewShow? || act.NewTicket? || act.SetTicket? || (act.DelShow? && act.showId != key.0)
    requires ShowStep(w, act, env).Some?
    ensures Keeps(w.show, ShowStep(w, act, env).value.show, key, out, 0, true)
  {
  }

  lemma ShowStepKeeps(w: World, act: Action, env: Env, key: S.Key, out: int, fits: bool)
    requires ShowStep(w, act, env).Some? && !(act.DelShow? && act.showId == key.0)
    requires fits ==> MintFits(w.show, act, key)
    ensures Keeps(w.show, ShowStep(w, act, env).value.show, key, out, Lent(w, act, env, key), fits)
  {
    hide Send, IssueTicketSpec, IssueEach, BatchChecks, IssueSpec, Congruent, Exact, S.MintSpec, S.ShrinkSpec, S.LendSpec;
    hide S.NewShowSpec, S.NewTicketSpec, S.SetTicketSpec, S.DelShowSpec;
    match act
    case IssueNft(showId, q) =>
      MintNamesKey(w.show, showId, q);
      MintKeeps(w.show, showId, q, key, out, fits);
    case IssueTicket(user, which, count, memo) => IssueTicketKeeps(w, env, user, which, count, memo, key, out);
    case BatchReward(recipients, which, count) => IssueEachKeeps(w, env, recipients, which, count, key, out);
    case IssueToGrab(to, showId, q, memo) =>
      LendKeeps(w.show, showId, q, key, out);
      SendKeepsShow(w.(show := S.LendSpec(w.show, showId, q).value), env, SHOW_CISUM, to, [q], memo);
    case ShowRetire(showId, q) => ShrinkKeeps(w.show, showId, q, key, out);
    case NewShow(_) => SetUpKeeps(w, act, env, key, out);
    case NewTicket(_, _) => SetUpKeeps(w, act, env, key, out);
    case SetTicket(_, _) => SetUpKeeps(w, act, env, key, out);
    case DelShow(_) => SetUpKeeps(w, act, env, key, out);
    case _ =>
  }

  lemma MintNamesKey(s: S.Show, showId: nat, q: NAsset)
    ensures S.MintSpec(s, showId, q).Some? ==> (showId, q.nid) in s.tickets
  {
  }

  lemma StepKeeps(w: World, act: Action, env: Env, key: S.Key, out: int, fits: bool)
    requires Step(w, act, env).Some? && !(act.DelShow? && act.showId == key.0)
    requires fits ==> MintFits(w.show, act, key)
    ensures Keeps(w.show, Step(w, act, env).value.show, key, out, Lent(w, act, env, key), fits)
  {
    hide NftStep, ShowStep, GrabStep, Congruent, Exact, SubGrabSpec;
    if ShowStep(w, act, env).Some? {
      ShowStepKeeps(w, act, env, key, out, fits);
    }
    if NftStep(w, act, env).Some? {
      NftStepKeeps(w, act, env, key, out);
    }
    if GrabStep(w, act, env).Some? {
      GrabStepKeeps(w, act, env, key, out);
    }
  }

  // ---------- Runs ----------

  ghost predicate NeverClosed(trace: seq<Event>, key: S.Key) {
    forall i | 0 <= i < |trace| :: !(trace[i].act.DelShow? && trace[i].act.showId == key.0)
  }

  /** Every mint fits the 32-bit total, and returns never exceed what was lent. */
  ghost predicate Orderly(trace: seq<Event>, key: S.Key) {
    && (forall i {:trigger trace[i]} | 0 <= i < |trace| :: MintFits(Run(Empty(), trace[..i]).show, trace[i].act, key))
    && (forall i {:trigger trace[..i]} | 0 <= i <= |trace| :: LentOut(trace[..i], key) >= 0)
  }

  /** After every run that does not close the show, whatever was minted, sold, lent, returned or retired: stock + sold + lent
      is the total modulo 2^32, and issued is sold. */
  lemma {:induction false} RunKeepsStock(trace: seq<Event>, key: S.Key)
    requires NeverClosed(trace, key)
    ensures Congruent(Run(Empty(), trace).show, key, LentOut(trace, key))
  {
    hide Step, Lent, Congruent;
    if trace == [] {
      EmptyStock(key);
    } else {
      var init, last := trace[..|trace| - 1], trace[|trace| - 1];
      RunKeepsStock(init, key);
      var w := Run(Empty(), init);
      if Step(w, last.act, last.env).Some? {
        StepKeeps(w, last.act, last.env, key, LentOut(init, key), false);
      }
    }
  }

  lemma EmptyStock(key: S.Key)
    ensures Congruent(Empty().show, key, 0) && Exact(Empty().show, key, 0)
  {
  }

  lemma OrderlyPrefix(trace: seq<Event>, key: S.Key)
    requires trace != [] && Orderly(trace, key)
    ensures Orderly(trace[..|trace| - 1], key)
  {
    var init := trace[..|trace| - 1];
    assert forall i | 0 <= i <= |init| :: init[..i] == trace[..i];
    assert forall i | 0 <= i < |init| :: init[i] == trace[i];
  }

  /** In an orderly run the ledger is exact: nothing wraps, and stock + sold + lent = total. */
  lemma {:induction false} OrderlyRunIsExact(trace: seq<Event>, key: S.Key)
    requires NeverClosed(trace, key) && Orderly(trace, key)
    ensures Exact(Run(Empty(), trace).show, key, LentOut(trace, key))
  {
    hide Step, Lent, Exact, Congruent, MintFits;
    if trace == [] {
      EmptyStock(key);
    } else {
      var n := |trace| - 1;
      var init, last := trace[..n], trace[n];
      OrderlyPrefix(trace, key);
      OrderlyRunIsExact(init, key);
      var w := Run(Empty(), init);
      assert trace[..|trace|] == trace;
      if Step(w, last.act, last.env).Some? {
        StepKeeps(w, last.act, last.env, key, LentOut(init, key), true);
      }
    }
  }

  // ---------- The overflow checks ----------

  /** The row and what is out can be told from their values modulo 2^32. */
  ghost predicate Countable(s: S.Show, key: S.Key, out: int) {
    key in s.tickets && s.tickets[key].stock + s.tickets[key].sold < TWO_32 && 0 <= s.tickets[key].total - out < TWO_32
  }

  lemma CountableIsExact(s: S.Show, key: S.Key, out: int)
    requires Congruent(s, key, out) && Countable(s, key, out)
    ensures s.tickets[key].stock + s.tickets[key].sold + out == s.tickets[key].total
  {
  }

  ghost predicate Open(s: S.Show, key: S.Key, now: nat) {
    key in s.tickets && key.0 in s.shows && now <= s.tickets[key].saleEndsAt
  }

  /** After any run that does not close the show: a sale within stock of an open show is stopped by "sold overflow" if and only if it
      exceeds stock plus what is out; and there is such a sale if and only if more came back than was lent and stock is left. */
  lemma SoldOverflowIff(trace: seq<Event>, key: S.Key, now: nat)
    requires NeverClosed(trace, key)
    ensures var s := Run(Empty(), trace).show; var out := LentOut(trace, key);
            Countable(s, key, out) && Open(s, key, now) ==>
              && (forall count: S.U32 | 0 < count <= s.tickets[key].stock :: S.SellSpec(s, key, count, now).Abort? <==> count > s.tickets[key].stock + out)
              && ((exists count: S.U32 :: 0 < count <= s.tickets[key].stock && S.SellSpec(s, key, count, now).Abort?) <==> out < 0 < s.tickets[key].stock)
  {
    hide Run, LentOut, NeverClosed, Congruent;
    RunKeepsStock(trace, key);
    var s := Run(Empty(), trace).show;
    var out := LentOut(trace, key);
    if Countable(s, key, out) && Open(s, key, now) {
      CountableIsExact(s, key, out);
      if out < 0 < s.tickets[key].stock {
        assert S.SellSpec(s, key, s.tickets[key].stock, now).Abort?;
      }
    }
  }

  /** While no more comes back than was lent, neither "sold overflow" nor "stock overflow" ever stops an action. */
  lemma OverflowChecksNeverFire(trace: seq<Event>, key: S.Key, count: S.U32, now: nat, amount: nat)
    requires NeverClosed(trace, key) && Orderly(trace, key)
    ensures var s := Run(Empty(), trace).show;
            && (key in s.tickets && key.0 in s.shows && 0 < count <= s.tickets[key].stock && now <= s.tickets[key].saleEndsAt
                ==> S.SellSpec(s, key, count, now).Some?)
            && (key in s.tickets && key.0 > 0 && amount <= LentOut(trace, key)
                ==> S.TakeBackSpec(s, key.0, NAsset(amount, key.1)).Some?)
  {
    hide Run, LentOut, Orderly;
    OrderlyRunIsExact(trace, key);
  }

  // ---------- Batches ----------

  /** An inner `issue` of a batch that finds the stock, an open sale and the tickets themselves cannot fail. */
  lemma IssueWorks(w: World, env: Env, user: Name, key: S.Key, count: S.U32, out: int)
    requires Escrowed(w) && Exact(w.show, key, out) && env.allowed
    requires key in w.show.tickets && key.0 in w.show.shows && env.now <= w.show.tickets[key].saleEndsAt
    requires 0 < count <= w.show.tickets[key].stock && IsUser(user)
    ensures IssueTicketSpec(w, env, user, key, count, OtherMemo).Some?
  {
    hide RowsOk, GrabDue;
    var q := NAsset(count, key.1);
    var one := [q];
    assert one[..0] == [];
    SumNonNegative(ShelfStock(w.show, key.1));
    assert ShelfStock(w.show, key.1)[key] == w.show.tickets[key].stock;
    assert Held(w.nft, SHOW_CISUM, key.1) >= ShowDue(w.show, key.1) >= count;
    assert (SHOW_CISUM, key.1) in w.nft.balances;
    CreditNeverOverflows(w.nft, SHOW_CISUM, user, q);
    assert MoveAll(w.nft, SHOW_CISUM, user, []) == Some(w.nft);
    assert MoveAll(w.nft, SHOW_CISUM, user, one) == Move(w.nft, SHOW_CISUM, user, q);
  }

  /** What one inner `issue` does to the row. */
  lemma IssueSells(w: World, env: Env, user: Name, key: S.Key, count: S.U32)
    requires key in w.show.tickets && IssueTicketSpec(w, env, user, key, count, OtherMemo).Some?
    ensures var s := IssueTicketSpec(w, env, user, key, count, OtherMemo).value.show;
            && s.shows == w.show.shows && key in s.tickets
            && s.tickets[key].stock == w.show.tickets[key].stock - count
            && s.tickets[key].saleEndsAt == w.show.tickets[key].saleEndsAt
  {
    hide Send;
    var show := S.SellSpec(w.show, key, count, env.now).value;
    SendKeepsShow(w.(show := show), env, SHOW_CISUM, user, [NAsset(count, key.1)], OtherMemo);
  }

  /** Recipients whose tickets are covered by the stock are all served. */
  lemma {:induction false} CoveredRecipientsAreServed(w: World, env: Env, recipients: seq<Name>, key: S.Key, count: S.U32, out: int)
    requires Escrowed(w) && Exact(w.show, key, out) && env.allowed && Open(w.show, key, env.now)
    requires count > 0 && count * |recipients| <= w.show.tickets[key].stock
    requires forall i | 0 <= i < |recipients| :: IsUser(recipients[i])
    ensures var r := IssueEach(w, env, recipients, key, count);
            && r.Some? && Escrowed(r.value) && Exact(r.value.show, key, out) && Open(r.value.show, key, env.now)
            && r.value.show.tickets[key].stock == w.show.tickets[key].stock - count * |recipients|
  {
    hide Escrowed, Exact, IssueTicketSpec;
    if recipients != [] {
      var n := |recipients| - 1;
      var init, user := recipients[..n], recipients[n];
      assert count * |recipients| == count * n + count;
      CoveredRecipientsAreServed(w, env, init, key, count, out);
      var before := IssueEach(w, env, init, key, count).value;
      IssueWorks(before, env, user, key, count, out);
      IssueSells(before, env, user, key, count);
      TicketRuns.IssueTicketKeepsEscrowed(before, env, user, key, count, OtherMemo);
      IssueEachKeeps(w, env, recipients, key, count, key, out);
      KeptExact(w.show, IssueTicketSpec(before, env, user, key, count, OtherMemo).value.show, key, out);
    }
  }

  lemma KeptExact(s: S.Show, t: S.Show, key: S.Key, out: int)
    requires Keeps(s, t, key, out, 0, true) && Exact(s, key, out)
    ensures Exact(t, key, out)
  {
  }

  /** In an orderly run, a `batchreward` that passes its own checks commits exactly when it hands out at least one ticket each,
      the show is open for sale, and no recipient is one of the two contracts: no inner `issue` ever fails for stock. */
  lemma BatchCommitsIff(trace: seq<Event>, env: Env, recipients: seq<Name>, key: S.Key, count: S.U32)
    requires NeverClosed(trace, key) && Orderly(trace, key)
    requires BatchChecks(Run(Empty(), trace), env, recipients, key, count)
    ensures var w := Run(Empty(), trace);
            Step(w, BatchReward(recipients, key, count), env).Some?
            <==> count > 0 && Open(w.show, key, env.now) && forall i | 0 <= i < |recipients| :: IsUser(recipients[i])
  {
    hide Run, LentOut, Orderly, NeverClosed, Escrowed, Exact, IssueEach, IsUser;
    var w := Run(Empty(), trace);
    TicketRuns.RunKeepsEscrowed(trace);
    OrderlyRunIsExact(trace, key);
    var good := count > 0 && Open(w.show, key, env.now) && forall i | 0 <= i < |recipients| :: IsUser(recipients[i]);
    if good {
      CoveredRecipientsAreServed(w, env, recipients, key, count, LentOut(trace, key));
    } else if IssueEach(w, env, recipients, key, count).Some? {
      ServedMeansGood(w, env, recipients, key, count);
    }
  }

  lemma OneServed(w: World, env: Env, user: Name, key: S.Key, count: S.U32)
    requires key in w.show.tickets && IssueTicketSpec(w, env, user, key, count, OtherMemo).Some?
    ensures count > 0 && Open(w.show, key, env.now) && IsUser(user)
  {
    hide MoveAll, Dispatch;
  }

  lemma {:induction false} ServedMeansGood(w: World, env: Env, recipients: seq<Name>, key: S.Key, count: S.U32)
    requires key in w.show.tickets && IssueEach(w, env, recipients, key, count).Some?
    ensures var v := IssueEach(w, env, recipients, key, count).value;
            key in v.show.tickets && (Open(v.show, key, env.now) <==> Open(w.show, key, env.now))
    ensures recipients != [] ==> count > 0 && Open(w.show, key, env.now)
    ensures forall i | 0 <= i < |recipients| :: IsUser(recipients[i])
  {
    hide IssueTicketSpec, IsUser;
    if recipients != [] {
      var n := |recipients| - 1;
      ServedMeansGood(w, env, recipients[..n], key, count);
      var before := IssueEach(w, env, recipients[..n], key, count).value;
      OneServed(before, env, recipients[n], key, count);
      IssueSells(before, env, recipients[n], key, count);
      assert forall i | 0 <= i < n :: recipients[i] == recipients[..n][i];
    }
  }
}
