/** Every transaction of the three ticket contracts keeps the escrow, and so does every run of them. */
module TicketRuns {
  import opened Eosio
  import opened Sums
  import opened TicketLedger
  import opened GrabModel
  import opened TicketWorld
  import opened TicketEscrow
  import S = ShowModel

  // ---------- Tickets on the move ----------

  /** The tickets an action queued leave grab.cisum, and nobody else loses any. */
  lemma {:induction false} DispatchEffect(l: Ledger, outs: seq<Out>, allowed: bool)
    requires SupplyOk(l) && Dispatch(l, outs, allowed).Some?
    ensures var m := Dispatch(l, outs, allowed).value;
            && SupplyOk(m) && m.stats == l.stats
            && (forall n: Nid :: Held(m, GRAB_CISUM, n) == Held(l, GRAB_CISUM, n) - Sent(outs, n))
            && (forall o: Name, n: Nid :: o != GRAB_CISUM ==> Held(m, o, n) >= Held(l, o, n))
  {
    if outs != [] {
      var init, last := outs[..|outs| - 1], outs[|outs| - 1];
      DispatchEffect(l, init, allowed);
      var before := Dispatch(l, init, allowed).value;
      var one := [last.asset];
      MoveAllEffect(before, GRAB_CISUM, last.to, one);
      assert one[..0] == [];
      assert forall n: Nid :: Carried(one, n) == Of(last.asset.amount, last.asset.nid, n);
      assert one[0] in one;
    }
  }

  /** Both contracts hold what they owe, and the sender what it is about to send as well. */
  ghost predicate Spare(w: World, from: Name, assets: seq<NAsset>) {
    && SupplyOk(w.nft)
    && RowsOk(w.grab)
    && (forall n: Nid {:trigger GrabDue(w.grab, n)} ::
          Held(w.nft, GRAB_CISUM, n) >= GrabDue(w.grab, n) + if from == GRAB_CISUM then Carried(assets, n) else 0)
    && (forall n: Nid {:trigger ShowDue(w.show, n)} ::
          Held(w.nft, SHOW_CISUM, n) >= ShowDue(w.show, n) + if from == SHOW_CISUM then Carried(assets, n) else 0)
  }

  lemma UserSpares(w: World, from: Name, assets: seq<NAsset>)
    requires Escrowed(w) && IsUser(from)
    ensures Spare(w, from, assets)
  {
  }

  lemma TakeBackOwes(s: S.Show, showId: nat, q: NAsset)
    requires q.amount > 0 && S.TakeBackSpec(s, showId, q).Some?
    ensures forall n: Nid {:trigger ShowDue(S.TakeBackSpec(s, showId, q).value, n)} ::
              ShowDue(S.TakeBackSpec(s, showId, q).value, n) <= ShowDue(s, n) + Of(q.amount, q.nid, n)
  {
    hide ShowDue;
    var t := S.TakeBackSpec(s, showId, q).value;
    ShelfRow(s, t, (showId, q.nid));
    WrapBelow(s.tickets[(showId, q.nid)].stock + q.amount);
  }

  lemma WrapBelow(x: nat)
    ensures WrapU32(x) <= x
  {
    var q := x / TWO_32;
    assert x == q * TWO_32 + x % TWO_32;
    assert q >= 0;
  }

  /** A transfer with its notification and the transfers that queues leaves both contracts solvent. */
  lemma SendKeepsEscrowed(w: World, env: Env, from: Name, to: Name, assets: seq<NAsset>, memo: Memo)
    requires Spare(w, from, assets) && Send(w, env, from, to, assets, memo).Some?
    ensures Escrowed(Send(w, env, from, to, assets, memo).value)
  {
    hide OnTicketSpec, Dispatch, MoveAll, RowsOk, SupplyOk, GrabDue, ShowDue, S.TakeBackSpec;
    var r := Send(w, env, from, to, assets, memo).value;
    var moved := TransferSpec(w.nft, from, to, assets, env.allowed).value;
    MoveAllEffect(w.nft, from, to, assets);
    forall n: Nid
      ensures assets != [] ==> Carried(assets, n) >= Of(assets[0].amount, assets[0].nid, n)
    {
      CarriedCoversFirst(assets, n);
    }
    if to == GRAB_CISUM {
      OnTicketConserves(w.grab, env.sha, from, assets, memo, env.draw, env.now);
      var heard := OnTicketSpec(w.grab, env.sha, from, assets, memo, env.draw, env.now).value;
      DispatchEffect(moved, heard.1, env.allowed);
    } else if to == SHOW_CISUM && memo.BackFromGrab? {
      assert assets[0] in assets;
      TakeBackOwes(w.show, memo.showId, assets[0]);
    }
  }

  // ---------- show.cisum ----------

  /** One row of the shelf changes its stock by at most what came in, less what is set aside to be sent. */
  lemma ShelfSpares(w: World, show: S.Show, k: S.Key, out: nat, assets: seq<NAsset>)
    requires Escrowed(w) && k in w.show.tickets && k in show.tickets
    requires show.tickets == w.show.tickets[k := show.tickets[k]]
    requires show.tickets[k].stock + out <= w.show.tickets[k].stock
    requires assets == [NAsset(out, k.1)]
    ensures Spare(w.(show := show), SHOW_CISUM, assets)
  {
    hide GrabDue, ShowDue, SupplyOk, RowsOk;
    ShelfRow(w.show, show, k);
    assert assets[..0] == [];
    assert forall n: Nid :: Carried(assets, n) == Of(out, k.1, n);
  }

  lemma SpareIsEscrowed(w: World, from: Name, assets: seq<NAsset>)
    requires Spare(w, from, assets) && (forall a | a in assets :: a.amount >= 0)
    ensures Escrowed(w)
  {
    hide GrabDue, ShowDue, SupplyOk, RowsOk;
    forall n: Nid
      ensures Carried(assets, n) >= 0
    {
      CarriedNonNegative(assets, n);
    }
  }

  lemma {:induction false} CarriedNonNegative(assets: seq<NAsset>, n: Nid)
    requires forall a | a in assets :: a.amount >= 0
    ensures Carried(assets, n) >= 0
  {
    if assets != [] {
      CarriedNonNegative(assets[..|assets| - 1], n);
    }
  }

  lemma IssueTicketKeepsEscrowed(w: World, env: Env, user: Name, key: S.Key, count: S.U32, memo: Memo)
    requires Escrowed(w)
    ensures Escrowed(After(IssueTicketSpec(w, env, user, key, count, memo), w))
  {
    hide Send, Escrowed;
    if IssueTicketSpec(w, env, user, key, count, memo).Some? {
      var show := S.SellSpec(w.show, key, count, env.now).value;
      ShelfSpares(w, show, key, count, [NAsset(count, key.1)]);
      SendKeepsEscrowed(w.(show := show), env, SHOW_CISUM, user, [NAsset(count, key.1)], memo);
    }
  }

  lemma {:induction false} IssueEachKeepsEscrowed(w: World, env: Env, recipients: seq<Name>, key: S.Key, count: S.U32)
    requires Escrowed(w)
    ensures Escrowed(After(IssueEach(w, env, recipients, key, count), w))
  {
    hide IssueTicketSpec, Escrowed;
    if recipients != [] && IssueEach(w, env, recipients, key, count).Some? {
      var init := recipients[..|recipients| - 1];
      IssueEachKeepsEscrowed(w, env, init, key, count);
      IssueTicketKeepsEscrowed(IssueEach(w, env, init, key, count).value, env, recipients[|recipients| - 1], key, count, OtherMemo);
    }
  }

  lemma LendKeepsEscrowed(w: World, env: Env, to: Name, showId: nat, q: NAsset, memo: Memo)
    requires Escrowed(w)
    ensures Escrowed(After(ShowStep(w, IssueToGrab(to, showId, q, memo), env), w))
  {
    hide Send, Escrowed;
    if ShowStep(w, IssueToGrab(to, showId, q, memo), env).Some? {
      var show := S.LendSpec(w.show, showId, q).value;
      ShelfSpares(w, show, (showId, q.nid), q.amount, [q]);
      SendKeepsEscrowed(w.(show := show), env, SHOW_CISUM, to, [q], memo);
    }
  }

  lemma ShrinkKeepsEscrowed(w: World, env: Env, showId: nat, q: NAsset)
    requires Escrowed(w)
    ensures Escrowed(After(ShowStep(w, ShowRetire(showId, q), env), w))
  {
    hide Escrowed;
    if ShowStep(w, ShowRetire(showId, q), env).Some? {
      var show := S.ShrinkSpec(w.show, showId, q).value;
      ShelfSpares(w, show, (showId, q.nid), q.amount, [q]);
      SpareIsEscrowed(w.(show := show), SHOW_CISUM, [q]);
    }
  }

  lemma MintKeepsEscrowed(w: World, env: Env, showId: nat, q: NAsset)
    requires Escrowed(w)
    ensures Escrowed(After(ShowStep(w, IssueNft(showId, q), env), w))
  {
    hide GrabDue, ShowDue, SupplyOk, RowsOk;
    if ShowStep(w, IssueNft(showId, q), env).Some? {
      var show := S.MintSpec(w.show, showId, q).value;
      var key := (showId, q.nid);
      ShelfRow(w.show, show, key);
      WrapBelow(w.show.tickets[key].stock + q.amount);
      IssueKeepsSupply(w.nft, SHOW_CISUM, q);
    }
  }

  lemma ShowAdminKeepsEscrowed(w: World, act: Action, env: Env)
    requires Escrowed(w) && (act.NewShow? || act.NewTicket? || act.SetTicket? || act.DelShow?)
    ensures Escrowed(After(ShowStep(w, act, env), w))
  {
    hide GrabDue, ShowDue, SupplyOk, RowsOk;
    if ShowStep(w, act, env).Some? {
      var t := ShowStep(w, act, env).value.show;
      match act
      case NewShow(_) => SameShelf(w.show, t);
      case NewTicket(key, _) => ShelfRow(w.show, t, key);
      case SetTicket(key, _) => ShelfRow(w.show, t, key);
      case DelShow(showId) => ClosedShow(w.show, t);
    }
  }

  lemma SameShelf(s: S.Show, t: S.Show)
    requires t.tickets == s.tickets
    ensures forall n: Nid {:trigger ShowDue(t, n)} :: ShowDue(t, n) == ShowDue(s, n)
  {
    assert forall n: Nid :: ShelfStock(t, n) == ShelfStock(s, n);
  }

  lemma ClosedShow(s: S.Show, t: S.Show)
    requires forall k | k in t.tickets :: k in s.tickets && t.tickets[k] == s.tickets[k]
    ensures forall n: Nid {:trigger ShowDue(t, n)} :: ShowDue(t, n) <= ShowDue(s, n)
  {
    forall n: Nid
      ensures Sum(ShelfStock(t, n)) <= Sum(ShelfStock(s, n))
    {
      SubmapSum(ShelfStock(t, n), ShelfStock(s, n));
    }
  }

  /** Dropping rows of a non-negative table does not raise its sum. */
  lemma {:induction false} SubmapSum<K(!new)>(a: map<K, int>, b: map<K, int>)
    requires forall k | k in a :: k in b && b[k] == a[k]
    requires forall k | k in b :: b[k] >= 0
    ensures Sum(a) <= Sum(b)
    decreases |b|
  {
    if k :| k in b && k !in a {
      SumRemove(b, k);
      SubmapSum(a, b - {k});
    } else {
      assert a == b;
    }
  }

  // ---------- ticket.cvnft ----------

  lemma NftKeepsEscrowed(w: World, act: Action, env: Env)
    requires Escrowed(w) && (act.NftCreate? || act.NftIssue? || act.NftRetire? || act.NftTransfer?)
    ensures Escrowed(After(NftStep(w, act, env), w))
  {
    hide GrabDue, ShowDue, SupplyOk, RowsOk, Send;
    if NftStep(w, act, env).Some? {
      match act
      case NftCreate(issuer, maxSupply, nid) => CreateKeepsSupply(w.nft, issuer, maxSupply, nid, env.allowed);
      case NftIssue(issuer, q) => IssueKeepsSupply(w.nft, issuer, q);
      case NftRetire(q) => RetireKeepsSupply(w.nft, q);
      case NftTransfer(from, to, assets, memo) =>
        UserSpares(w, from, assets);
        SendKeepsEscrowed(w, env, from, to, assets, memo);
    }
  }

  // ---------- grab.cisum ----------

  /** An action of grab.cisum that conserves, followed by its queued transfers. */
  lemma ConservedAndDispatched(w: World, h: Grab, outs: seq<Out>, l: Ledger, allowed: bool)
    requires Escrowed(w) && Conserves(w.grab, h, NAsset(0, 0), outs) && Dispatch(w.nft, outs, allowed) == Some(l)
    ensures Escrowed(w.(grab := h, nft := l))
  {
    hide GrabDue, ShowDue, SupplyOk, RowsOk, Dispatch;
    DispatchEffect(w.nft, outs, allowed);
    assert forall n: Nid :: Of(0, 0, n) == 0;
  }

  lemma Conserved(w: World, h: Grab)
    requires Escrowed(w) && Conserves(w.grab, h, NAsset(0, 0), [])
    ensures Escrowed(w.(grab := h))
  {
    ConservedAndDispatched(w, h, [], w.nft, true);
  }

  lemma GrabPaysKeepsEscrowed(w: World, act: Action, env: Env)
    requires Escrowed(w) && (act.PayGrab? || act.DelUpgrade?)
    ensures Escrowed(After(GrabStep(w, act, env), w))
  {
    hide Escrowed, Conserves, PayGrabSpec, DelUpgradeSpec, Dispatch;
    if GrabStep(w, act, env).Some? {
      EscrowedRows(w);
      var r := GrabStep(w, act, env).value;
      match act
      case PayGrab(from, bank, quantity, id, grabId) =>
        PayGrabConserves(w.grab, env.sha, from, bank, quantity, id, grabId, env.draw, env.now);
        var done := PayGrabSpec(w.grab, env.sha, from, bank, quantity, id, grabId, env.draw, env.now).value;
        ConservedAndDispatched(w, done.0, done.1, r.nft, env.allowed);
      case DelUpgrade(id) =>
        DelUpgradeConserves(w.grab, env.allowed, id, env.now);
        var done := DelUpgradeSpec(w.grab, env.allowed, id, env.now).value;
        ConservedAndDispatched(w, done.0, done.1, r.nft, env.allowed);
    }
  }

  lemma EscrowedRows(w: World)
    requires Escrowed(w)
    ensures RowsOk(w.grab)
  {
  }

  lemma SubGrabKeepsEscrowed(w: World, kind: RushType, id: nat, tickets: NAsset, env: Env)
    requires Escrowed(w)
    ensures Escrowed(After(GrabStep(w, SubGrab(kind, id, tickets), env), w))
  {
    hide GrabDue, ShowDue, SupplyOk, RowsOk, Send, SubGrabSpec;
    if GrabStep(w, SubGrab(kind, id, tickets), env).Some? {
      SubGrabConserves(w.grab, env.allowed, kind, id, tickets);
      var done := SubGrabSpec(w.grab, env.allowed, kind, id, tickets).value;
      var one := [tickets];
      assert one[..0] == [];
      assert forall n: Nid :: Carried(one, n) == Of(tickets.amount, tickets.nid, n) == -Of(-tickets.amount, tickets.nid, n);
      assert Spare(w.(grab := done.0), GRAB_CISUM, one);
      SendKeepsEscrowed(w.(grab := done.0), env, GRAB_CISUM, SHOW_CISUM, one, BackFromGrab(done.1));
    }
  }

  lemma GrabAdminKeepsEscrowed(w: World, act: Action, env: Env)
    requires Escrowed(w) && (act.AddToken? || act.AddSale? || act.SetSale? || act.AddUpgrade? || act.SetUpgrade? || act.DelSale?)
    ensures Escrowed(After(GrabStep(w, act, env), w))
  {
    hide Escrowed, Conserves, RowsOk, TimesOk, DelSaleSpec;
    if GrabStep(w, act, env).Some? {
      EscrowedRows(w);
      var h := GrabStep(w, act, env).value.grab;
      match act {
      case AddToken(_, _) => SetUpConserves(w.grab, h, 0);
      case AddSale(_) => SetUpConserves(w.grab, h, h.lastSaleId);
      case SetSale(id, _, _, _, _, _) => SetUpConserves(w.grab, h, id);
      case AddUpgrade(_) => SetUpConserves(w.grab, h, h.lastSaleId);
      case SetUpgrade(id, _, _, _, _) => UpgradeRowPays(w.grab, id); SetUpConserves(w.grab, h, id);
      case DelSale(id, forced) => DelSaleConserves(w.grab, env.allowed, id, forced, env.now);
      }
      Conserved(w, h);
    }
  }

  lemma UpgradeRowPays(g: Grab, id: nat)
    requires RowsOk(g)
    ensures id in g.upgrades ==> g.upgrades[id].pay.amount > 0
  {
  }

  // ---------- Steps and runs ----------

  /** Every transaction, of any kind and by anyone, keeps both contracts solvent in tickets and the supplies exact. */
  lemma StepKeepsEscrowed(w: World, act: Action, env: Env)
    requires Escrowed(w)
    ensures Escrowed(After(Step(w, act, env), w))
  {
    hide Escrowed, NftStep, ShowStep, GrabStep;
    match act
    case NftCreate(_, _, _) => NftKeepsEscrowed(w, act, env);
    case NftIssue(_, _) => NftKeepsEscrowed(w, act, env);
    case NftRetire(_) => NftKeepsEscrowed(w, act, env);
    case NftTransfer(_, _, _, _) => NftKeepsEscrowed(w, act, env);
    case NewShow(_) => ShowAdminKeepsEscrowed(w, act, env);
    case NewTicket(_, _) => ShowAdminKeepsEscrowed(w, act, env);
    case SetTicket(_, _) => ShowAdminKeepsEscrowed(w, act, env);
    case DelShow(_) => ShowAdminKeepsEscrowed(w, act, env);
    case IssueNft(showId, q) => MintKeepsEscrowed(w, env, showId, q);
    case IssueTicket(user, key, count, memo) => SaleKeepsEscrowed(w, act, env);
    case BatchReward(recipients, key, count) => SaleKeepsEscrowed(w, act, env);
    case IssueToGrab(to, showId, q, memo) => LendKeepsEscrowed(w, env, to, showId, q, memo);
    case ShowRetire(showId, q) => ShrinkKeepsEscrowed(w, env, showId, q);
    case PayGrab(_, _, _, _, _) => GrabPaysKeepsEscrowed(w, act, env);
    case DelUpgrade(_) => GrabPaysKeepsEscrowed(w, act, env);
    case SubGrab(kind, id, tickets) => SubGrabKeepsEscrowed(w, kind, id, tickets, env);
    case _ => GrabAdminKeepsEscrowed(w, act, env);
  }

  lemma SaleKeepsEscrowed(w: World, act: Action, env: Env)
    requires Escrowed(w) && (act.IssueTicket? || act.BatchReward?)
    ensures Escrowed(After(ShowStep(w, act, env), w))
  {
    hide Escrowed, IssueTicketSpec, IssueEach, BatchChecks;
    match act
    case IssueTicket(user, key, count, memo) => IssueTicketKeepsEscrowed(w, env, user, key, count, memo);
    case BatchReward(recipients, key, count) => IssueEachKeepsEscrowed(w, env, recipients, key, count);
  }

  /** In every reachable state grab.cisum holds, kind by kind, at least the stock of all its sales and upgrades and every
      ticket paid into a log not yet settled; show.cisum holds at least its stock; and supplies equal balances. */
  lemma {:induction false} RunKeepsEscrowed(trace: seq<Event>)
    ensures Escrowed(Run(Empty(), trace))
  {
    hide Escrowed, Step;
    if trace == [] {
      EmptyIsEscrowed();
    } else {
      RunKeepsEscrowed(trace[..|trace| - 1]);
      var last := trace[|trace| - 1];
      StepKeepsEscrowed(Run(Empty(), trace[..|trace| - 1]), last.act, last.env);
    }
  }

  lemma EmptyIsEscrowed()
    ensures Escrowed(Empty())
  {
    assert forall n: Nid :: SaleStock(Empty().grab, n) == map[] && UpgradeStock(Empty().grab, n) == map[] && LogStock(Empty().grab, n) == map[];
    assert forall n: Nid :: ShelfStock(Empty().show, n) == map[];
  }

  /** So what one sale has left can never exceed what exists, and the counters that add to it never overflow. */
  lemma StockIsBackedBySupply(trace: seq<Event>, id: nat)
    ensures var w := Run(Empty(), trace);
            id in w.grab.sales && w.grab.sales[id].available > 0 ==>
              var sale := w.grab.sales[id];
              && sale.ticketId in w.nft.stats
              && sale.available <= Held(w.nft, GRAB_CISUM, sale.ticketId) <= w.nft.stats[sale.ticketId].supply <= w.nft.stats[sale.ticketId].maxSupply
  {
    RunKeepsEscrowed(trace);
    var w := Run(Empty(), trace);
    if id in w.grab.sales && w.grab.sales[id].available > 0 {
      var n := w.grab.sales[id].ticketId;
      OneSaleWithinDue(w.grab, id);
      assert Held(w.nft, GRAB_CISUM, n) >= GrabDue(w.grab, n);
      assert (GRAB_CISUM, n) in w.nft.balances;
      HeldAtMostSupply(w.nft, GRAB_CISUM, n);
    }
  }

  lemma {:induction false} PaidInNonNegative(logs: seq<Log>, n: Nid)
    requires forall i | 0 <= i < |logs| :: logs[i].paid.amount > 0
    ensures PaidIn(logs, n) >= 0
  {
    if logs != [] {
      PaidInNonNegative(logs[..|logs| - 1], n);
    }
  }

  lemma OneSaleWithinDue(g: Grab, id: nat)
    requires RowsOk(g) && id in g.sales
    ensures g.sales[id].available <= GrabDue(g, g.sales[id].ticketId)
  {
    var n := g.sales[id].ticketId;
    SumNonNegative(SaleStock(g, n));
    SumNonNegative(UpgradeStock(g, n));
    forall k | k in g.logs
      ensures PaidIn(g.logs[k], n) >= 0
    {
      PaidInNonNegative(g.logs[k], n);
    }
    SumNonNegative(LogStock(g, n));
    assert SaleStock(g, n)[id] == g.sales[id].available;
  }
}
