/** What selling, rewarding and lending out the tickets of a show need and do, while no more tickets come back than were lent. */
module ShowTerms {
  import opened Eosio
  import opened Sums
  import opened TicketLedger
  import opened GrabModel
  import opened TicketWorld
  import opened TicketEscrow
  import opened ShowStock
  import TicketRuns
  import TicketTerms
  import SafeMath
  import UpgradeTerms
  import GrabTerms
  import S = ShowModel

  /** The row after `n` of its tickets were handed out: counters in numbers, nothing wraps. */
  ghost function Sold(s: S.Show, key: S.Key, n: nat): S.Show
    requires key in s.tickets && n <= s.tickets[key].stock && s.tickets[key].sold + n < TWO_32 && s.tickets[key].issued + n < TWO_32
  {
    var row := s.tickets[key];
    s.(tickets := s.tickets[key := row.(sold := row.sold + n, stock := row.stock - n, issued := row.issued + n)])
  }

  /** The row counts in numbers: what is handed out of the stock fits both counters. */
  ghost predicate Counted(s: S.Show, key: S.Key) {
    key in s.tickets ==> s.tickets[key].issued == s.tickets[key].sold && s.tickets[key].sold + s.tickets[key].stock <= s.tickets[key].total
  }

  ghost predicate OnSale(s: S.Show, key: S.Key, now: nat) {
    key.0 in s.shows && key in s.tickets && now <= s.tickets[key].saleEndsAt
  }

  /** show.cisum has the tickets it counts as stock. */
  ghost predicate Stocked(w: World, key: S.Key) {
    SupplyOk(w.nft) && (key in w.show.tickets ==> w.show.tickets[key].stock <= Held(w.nft, SHOW_CISUM, key.1))
  }

  lemma StockIsHeld(w: World, key: S.Key)
    requires Escrowed(w)
    ensures Stocked(w, key)
  {
    hide RowsOk, GrabDue;
    if key in w.show.tickets {
      SumNonNegative(ShelfStock(w.show, key.1));
      assert ShelfStock(w.show, key.1)[key] == w.show.tickets[key].stock;
      assert Held(w.nft, SHOW_CISUM, key.1) >= ShowDue(w.show, key.1);
    }
  }

  lemma SellTerms(s: S.Show, key: S.Key, count: S.U32, now: nat)
    requires Counted(s, key)
    ensures S.SellSpec(s, key, count, now)
            == if OnSale(s, key, now) && 0 < count <= s.tickets[key].stock then Some(Sold(s, key, count)) else Abort
  {
  }

  /** Handing `n` tickets from show.cisum to `user` changes these two balances alone. */
  ghost predicate HandedOut(l: Ledger, m: Ledger, user: Name, nid: Nid, n: nat) {
    forall o: Name, k: Nid :: Held(m, o, k) == Held(l, o, k) + (if o == user && k == nid then n else 0) - (if o == SHOW_CISUM && k == nid then n else 0)
  }

  lemma OneAsset(l: Ledger, from: Name, q: NAsset)
    ensures TicketTerms.Covered(l, from, [q]) ==> 0 < q.amount <= Held(l, from, q.nid)
    ensures SupplyOk(l) && 0 < q.amount <= Held(l, from, q.nid) ==> TicketTerms.Covered(l, from, [q])
    ensures forall n: Nid :: Carried([q], n) == if n == q.nid then q.amount else 0
  {
    assert [q][..0] == [];
    assert q in [q];
    assert Carried([q], q.nid) == q.amount;
    if SupplyOk(l) && 0 < q.amount <= Held(l, from, q.nid) {
      assert (from, q.nid) in l.balances;
      forall n: Nid
        ensures Carried([q], n) <= Held(l, from, n)
      {
      }
    }
  }

  /** `issue` to a user, from any state with the stock in hand. */
  lemma IssueOutcome(w: World, env: Env, user: Name, key: S.Key, count: S.U32, memo: Memo)
    requires Stocked(w, key) && Counted(w.show, key) && IsUser(user)
    ensures var r := IssueTicketSpec(w, env, user, key, count, memo);
            if env.allowed && OnSale(w.show, key, env.now) && 0 < count <= w.show.tickets[key].stock then
              && r.Some? && r.value.show == Sold(w.show, key, count) && r.value.grab == w.grab
              && SupplyOk(r.value.nft) && HandedOut(w.nft, r.value.nft, user, key.1, count)
            else r.Abort?
  {
    hide Held, MoveAll, SupplyOk, TicketTerms.Covered, S.SellSpec, Sold, Carried;
    SellTerms(w.show, key, count, env.now);
    var q := NAsset(count, key.1);
    OneAsset(w.nft, SHOW_CISUM, q);
    TicketTerms.TransferCommitsIff(w.nft, SHOW_CISUM, user, [q], env.allowed);
    if TransferSpec(w.nft, SHOW_CISUM, user, [q], env.allowed).Some? {
      MoveAllEffect(w.nft, SHOW_CISUM, user, [q]);
    }
  }

  lemma OrderlyIsCounted(trace: seq<Event>, key: S.Key)
    requires NeverClosed(trace, key) && Orderly(trace, key)
    ensures Counted(Run(Empty(), trace).show, key) && Stocked(Run(Empty(), trace), key)
  {
    hide Run, LentOut, NeverClosed, Orderly;
    OrderlyRunIsExact(trace, key);
    RunKeepsStock(trace, key);
    TicketRuns.RunKeepsEscrowed(trace);
    StockIsHeld(Run(Empty(), trace), key);
  }

  /** In an orderly run `issue` to a user commits if and only if it is authorized, the show is on sale and has the tickets; it then moves
      that many tickets from the contract to the user and from the stock to what is sold, and nothing else. */
  lemma IssueTerms(trace: seq<Event>, env: Env, user: Name, key: S.Key, count: S.U32, memo: Memo)
    requires NeverClosed(trace, key) && Orderly(trace, key) && IsUser(user)
    ensures Counted(Run(Empty(), trace).show, key)
    ensures var w := Run(Empty(), trace); var r := Step(w, IssueTicket(user, key, count, memo), env);
            if env.allowed && OnSale(w.show, key, env.now) && 0 < count <= w.show.tickets[key].stock then
              && r.Some? && r.value.show == Sold(w.show, key, count) && r.value.grab == w.grab
              && HandedOut(w.nft, r.value.nft, user, key.1, count)
            else r.Abort?
  {
    hide Run, Orderly, NeverClosed, IssueTicketSpec, HandedOut, Sold, SupplyOk;
    OrderlyIsCounted(trace, key);
    IssueOutcome(Run(Empty(), trace), env, user, key, count, memo);
  }

  // ---------- Batches ----------

  /** How often an account is listed. */
  function Times(recipients: seq<Name>, o: Name): nat {
    if recipients == [] then 0
    else Times(recipients[..|recipients| - 1], o) + if recipients[|recipients| - 1] == o then 1 else 0
  }

  /** What an account has of a kind after `count` tickets went from show.cisum to every recipient, as often as listed. */
  ghost predicate Served(l: Ledger, m: Ledger, recipients: seq<Name>, nid: Nid, count: nat, o: Name, k: Nid) {
    Held(m, o, k) == Held(l, o, k) + if k != nid then 0 else count * Times(recipients, o) - (if o == SHOW_CISUM then count * |recipients| else 0)
  }

  /** No balance changes but the recipients' and the contract's. */
  ghost predicate HandedToEach(l: Ledger, m: Ledger, recipients: seq<Name>, nid: Nid, count: nat) {
    forall o: Name, k: Nid :: Served(l, m, recipients, nid, count, o, k)
  }

  lemma OneMoreRecipient(l: Ledger, middle: Ledger, m: Ledger, recipients: seq<Name>, nid: Nid, count: nat)
    requires recipients != [] && HandedToEach(l, middle, recipients[..|recipients| - 1], nid, count)
    requires HandedOut(middle, m, recipients[|recipients| - 1], nid, count)
    ensures HandedToEach(l, m, recipients, nid, count)
  {
    hide Held, Times;
    var n := |recipients| - 1;
    var init, last := recipients[..n], recipients[n];
    forall o: Name, k: Nid
      ensures Served(l, m, recipients, nid, count, o, k)
    {
      LastTimes(recipients, o);
      Distribute(count, Times(init, o));
      Distribute(count, n);
      assert Served(l, middle, init, nid, count, o, k);
      assert Held(m, o, k) == Held(middle, o, k) + (if o == last && k == nid then count else 0) - (if o == SHOW_CISUM && k == nid then count else 0);
    }
  }

  lemma LastTimes(recipients: seq<Name>, o: Name)
    requires recipients != []
    ensures Times(recipients, o) == Times(recipients[..|recipients| - 1], o) + if recipients[|recipients| - 1] == o then 1 else 0
  {
  }

  lemma Distribute(c: int, n: int)
    ensures c * (n + 1) == c * n + c && c * 0 == 0
  {
  }

  lemma SoldTwice(s: S.Show, key: S.Key, a: nat, b: nat)
    requires Counted(s, key) && key in s.tickets && a + b <= s.tickets[key].stock
    ensures Counted(Sold(s, key, a), key) && Sold(Sold(s, key, a), key, b) == Sold(s, key, a + b)
  {
  }

  lemma SoldNone(s: S.Show, key: S.Key)
    requires Counted(s, key) && key in s.tickets
    ensures Sold(s, key, 0) == s
  {
    assert s.tickets[key := s.tickets[key]] == s.tickets;
  }

  lemma StillStocked(l: Ledger, m: Ledger, user: Name, nid: Nid, n: nat)
    requires HandedOut(l, m, user, nid, n) && user != SHOW_CISUM
    ensures Held(m, SHOW_CISUM, nid) == Held(l, SHOW_CISUM, nid) - n
  {
    hide Held;
  }

  lemma NobodyServed(l: Ledger, nid: Nid, count: nat)
    ensures HandedToEach(l, l, [], nid, count)
  {
    forall o: Name, k: Nid
      ensures Served(l, l, [], nid, count, o, k)
    {
      Distribute(count, 0);
    }
  }

  /** The inner `issue`s of a batch, from any state with the stock in hand, for a show on sale: all commit or none does. */
  lemma {:induction false} EachOutcome(w: World, env: Env, recipients: seq<Name>, key: S.Key, count: S.U32)
    requires Stocked(w, key) && Counted(w.show, key)
    requires env.allowed && OnSale(w.show, key, env.now) && count > 0 && forall i | 0 <= i < |recipients| :: IsUser(recipients[i])
    ensures var n := count * |recipients|; var r := IssueEach(w, env, recipients, key, count);
            && n >= 0
            && (if n <= w.show.tickets[key].stock then
                  && r.Some? && r.value.show == Sold(w.show, key, n) && r.value.grab == w.grab && Stocked(r.value, key)
                  && HandedToEach(w.nft, r.value.nft, recipients, key.1, count)
                else r.Abort?)
  {
    hide IssueTicketSpec, Held, SupplyOk, HandedOut, HandedToEach;
    if recipients == [] {
      SoldNone(w.show, key);
      NobodyServed(w.nft, key.1, count);
    } else {
      var k := |recipients| - 1;
      var init, user := recipients[..k], recipients[k];
      EachOutcome(w, env, init, key, count);
      Distribute(count, k);
      if IssueEach(w, env, init, key, count).Some? {
        var before := IssueEach(w, env, init, key, count).value;
        SoldTwice(w.show, key, count * k, 0);
        IssueOutcome(before, env, user, key, count, OtherMemo);
        if count * |recipients| <= w.show.tickets[key].stock {
          SoldTwice(w.show, key, count * k, count);
          var after := IssueTicketSpec(before, env, user, key, count, OtherMemo).value;
          StillStocked(before.nft, after.nft, user, key.1, count);
          OneMoreRecipient(w.nft, before.nft, after.nft, recipients, key.1, count);
        }
      }
    }
  }

  lemma SmallBatchFits(n: nat, count: S.U32)
    requires 0 < n <= 500
    ensures count <= (TWO_64 - 1) / n
  {
    SafeMath.QuotientBounds(TWO_64 - 1, n);
    if count > (TWO_64 - 1) / n {
      SafeMath.MulOrder((TWO_64 - 1) / n + 1, count, n);
      SafeMath.MulOrder(n, 500, count);
    }
  }

  /** In an orderly run `batchreward` commits if and only if it is authorized, names between 1 and 500 users, the show is on sale and its
      stock covers `count` tickets for each; every recipient then has that many more for each time listed. */
  lemma BatchTerms(trace: seq<Event>, env: Env, recipients: seq<Name>, key: S.Key, count: S.U32)
    requires NeverClosed(trace, key) && Orderly(trace, key)
    ensures Counted(Run(Empty(), trace).show, key)
    ensures var w := Run(Empty(), trace); var r := Step(w, BatchReward(recipients, key, count), env);
            if && env.allowed && 0 < |recipients| <= 500 && OnSale(w.show, key, env.now) && (forall i | 0 <= i < |recipients| :: IsUser(recipients[i]))
               && 0 < count * |recipients| <= w.show.tickets[key].stock
            then
              && r.Some? && r.value.show == Sold(w.show, key, count * |recipients|) && r.value.grab == w.grab
              && HandedToEach(w.nft, r.value.nft, recipients, key.1, count)
            else r.Abort?
  {
    hide Run, Orderly, NeverClosed, IssueEach, HandedToEach, Sold, SupplyOk, Held, IsUser;
    var w := Run(Empty(), trace);
    OrderlyIsCounted(trace, key);
    if |recipients| > 0 {
      SafeMath.MulOrder(0, |recipients|, count);
      if |recipients| <= 500 {
        SmallBatchFits(|recipients|, count);
      }
      if count > 0 {
        SafeMath.MulOrder(1, |recipients|, count);
      }
      if key in w.show.tickets && IssueEach(w, env, recipients, key, count).Some? {
        ServedMeansGood(w, env, recipients, key, count);
      }
      if env.allowed && OnSale(w.show, key, env.now) && count > 0 && forall i | 0 <= i < |recipients| :: IsUser(recipients[i]) {
        EachOutcome(w, env, recipients, key, count);
      }
    }
  }

  // ---------- Lending to rush sales ----------

  /** `q` moved between the two contracts, and no other balance changed. */
  ghost predicate Moved(l: Ledger, m: Ledger, from: Name, to: Name, q: NAsset) {
    forall o: Name, k: Nid :: Held(m, o, k) == Held(l, o, k) + (if o == to && k == q.nid then q.amount else 0) - (if o == from && k == q.nid then q.amount else 0)
  }

  lemma MoveOne(l: Ledger, from: Name, to: Name, q: NAsset)
    requires SupplyOk(l) && from != to
    ensures TransferSpec(l, from, to, [q], true).Some? <==> 0 < q.amount <= Held(l, from, q.nid)
    ensures TransferSpec(l, from, to, [q], true).Some? ==> Moved(l, TransferSpec(l, from, to, [q], true).value, from, to, q)
  {
    hide Held, MoveAll, SupplyOk, TicketTerms.Covered, Carried;
    OneAsset(l, from, q);
    TicketTerms.TransferCommitsIff(l, from, to, [q], true);
    if TransferSpec(l, from, to, [q], true).Some? {
      MoveAllEffect(l, from, to, [q]);
    }
  }

  /** In every reachable world tickets of a show are lent to a rush sale if and only if that is authorized, the show has them in stock and
      they are of the kind on sale; stock and tickets then move from one contract to the other. */
  lemma LendTerms(trace: seq<Event>, env: Env, showId: nat, q: NAsset, id: nat)
    ensures var w := Run(Empty(), trace); var r := Step(w, IssueToGrab(GRAB_CISUM, showId, q, AddToSale(id)), env); var key := (showId, q.nid);
            if && env.allowed && id > 0 && showId > 0 && key in w.show.tickets && 0 < q.amount <= w.show.tickets[key].stock
               && id in w.grab.sales && q.nid == w.grab.sales[id].ticketId
               && -MAX_AMOUNT <= w.grab.sales[id].total + q.amount <= MAX_AMOUNT && w.grab.sales[id].available + q.amount <= MAX_AMOUNT
            then
              var row, sale := w.show.tickets[key], w.grab.sales[id];
              && r.Some?
              && r.value.show == w.show.(tickets := w.show.tickets[key := row.(stock := row.stock - q.amount)])
              && r.value.grab == w.grab.(sales := w.grab.sales[id := sale.(total := sale.total + q.amount, available := sale.available + q.amount)])
              && Moved(w.nft, r.value.nft, SHOW_CISUM, GRAB_CISUM, q)
            else r.Abort?
  {
    hide Run, Held, SupplyOk, GrabDue, ShowDue, TransferSpec, Moved;
    var w := Run(Empty(), trace);
    TicketRuns.RunKeepsEscrowed(trace);
    StockIsHeld(w, (showId, q.nid));
    MoveOne(w.nft, SHOW_CISUM, GRAB_CISUM, q);
  }

  /** In every reachable world stock of a sale goes back to the show it came from if and only if that is authorized, the sale has it left
      and the show's total leaves room for it. */
  lemma ReturnTerms(trace: seq<Event>, env: Env, id: nat, q: NAsset)
    ensures var w := Run(Empty(), trace); var r := Step(w, SubGrab(RushSale, id, q), env);
            if && env.allowed && id in w.grab.sales && q.nid == w.grab.sales[id].ticketId && 0 < q.amount <= w.grab.sales[id].available
               && -MAX_AMOUNT <= w.grab.sales[id].total - q.amount <= MAX_AMOUNT
               && w.grab.sales[id].showId > 0 && (w.grab.sales[id].showId, q.nid) in w.show.tickets
               && (w.show.tickets[(w.grab.sales[id].showId, q.nid)].stock + q.amount) % TWO_32 <= w.show.tickets[(w.grab.sales[id].showId, q.nid)].total
            then
              var sale := w.grab.sales[id]; var key := (sale.showId, q.nid); var row := w.show.tickets[key];
              && r.Some?
              && r.value.show == w.show.(tickets := w.show.tickets[key := row.(stock := (row.stock + q.amount) % TWO_32)])
              && r.value.grab == w.grab.(sales := w.grab.sales[id := sale.(total := sale.total - q.amount, available := sale.available - q.amount)])
              && Moved(w.nft, r.value.nft, GRAB_CISUM, SHOW_CISUM, q)
            else r.Abort?
  {
    hide Run, Held, SupplyOk, GrabDue, ShowDue, TransferSpec, Moved;
    var w := Run(Empty(), trace);
    TicketRuns.RunKeepsEscrowed(trace);
    TicketRuns.StockIsBackedBySupply(trace, id);
    GrabTerms.StockInRange(trace, id);
    UpgradeTerms.SubGrabTerms(w.grab, env.allowed, RushSale, id, q);
    MoveOne(w.nft, GRAB_CISUM, SHOW_CISUM, q);
  }

  // ---------- Minting and retiring ----------

  /** In every reachable world new tickets of a show are minted if and only if that is authorized, show.cisum issues that kind and the supply
      allows it; they are all in stock and held, and nothing else changes. */
  lemma MintTerms(trace: seq<Event>, env: Env, showId: nat, q: NAsset)
    ensures var w := Run(Empty(), trace); var r := Step(w, IssueNft(showId, q), env); var key := (showId, q.nid);
            if && env.allowed && showId > 0 && key in w.show.tickets && q.nid in w.nft.stats && w.nft.stats[q.nid].issuer == SHOW_CISUM
               && 0 < q.amount && w.nft.stats[q.nid].supply + q.amount <= w.nft.stats[q.nid].maxSupply
            then
              var row := w.show.tickets[key];
              && r.Some? && r.value.grab == w.grab && r.value.nft == TicketTerms.Supplied(w.nft, q.nid, q.amount)
              && r.value.show == w.show.(tickets := w.show.tickets[key := row.(total := (row.total + q.amount) % TWO_32, stock := (row.stock + q.amount) % TWO_32)])
            else r.Abort?
  {
    hide Run, SupplyOk, IssueSpec, TicketTerms.Supplied, GrabDue, ShowDue, RowsOk;
    var w := Run(Empty(), trace);
    TicketRuns.RunKeepsEscrowed(trace);
    TicketTerms.IssueTerms(w.nft, SHOW_CISUM, q);
  }

  /** In an orderly run tickets are retired if and only if that is authorized and they are in stock; stock and total then fall together. */
  lemma ShrinkTerms(trace: seq<Event>, env: Env, showId: nat, q: NAsset)
    requires NeverClosed(trace, (showId, q.nid)) && Orderly(trace, (showId, q.nid))
    ensures var w := Run(Empty(), trace); var r := Step(w, ShowRetire(showId, q), env); var key := (showId, q.nid);
            if env.allowed && key in w.show.tickets && 0 < q.amount <= w.show.tickets[key].stock then
              var row := w.show.tickets[key];
              && q.amount <= row.total
              && r == Some(w.(show := w.show.(tickets := w.show.tickets[key := row.(total := row.total - q.amount, stock := row.stock - q.amount)])))
            else r.Abort?
  {
    hide Run, Orderly, NeverClosed, SupplyOk;
    OrderlyIsCounted(trace, (showId, q.nid));
  }
}
