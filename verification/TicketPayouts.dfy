/** Who ends up with which tickets: winners get the prize, and when an upgrade is cleared up losers get back what they paid
    while the payments of winners are burnt. */
module TicketPayouts {
  import opened Eosio
  import opened TicketLedger
  import opened GrabModel
  import opened TicketWorld
  import opened TicketEscrow

  /** Tickets of one kind that queued transfers bring an account. */
  ghost function Received(outs: seq<Out>, owner: Name, n: Nid): int {
    if outs == [] then 0
    else
      var last := outs[|outs| - 1];
      Received(outs[..|outs| - 1], owner, n) + if last.to == owner then Of(last.asset.amount, last.asset.nid, n) else 0
  }

  /** Queued transfers reach exactly the accounts they name. */
  lemma {:induction false} DispatchPays(l: Ledger, outs: seq<Out>, allowed: bool)
    requires SupplyOk(l) && Dispatch(l, outs, allowed).Some?
    ensures SupplyOk(Dispatch(l, outs, allowed).value)
    ensures forall o: Name, n: Nid | o != GRAB_CISUM :: Held(Dispatch(l, outs, allowed).value, o, n) == Held(l, o, n) + Received(outs, o, n)
  {
    if outs != [] {
      var init, last := outs[..|outs| - 1], outs[|outs| - 1];
      DispatchPays(l, init, allowed);
      var one := [last.asset];
      MoveAllEffect(Dispatch(l, init, allowed).value, GRAB_CISUM, last.to, one);
      assert one[..0] == [];
      assert forall n: Nid :: Carried(one, n) == Of(last.asset.amount, last.asset.nid, n);
    }
  }

  lemma ReceivedOne(o: Out, owner: Name, n: Nid)
    ensures Received([o], owner, n) == if o.to == owner then Of(o.asset.amount, o.asset.nid, n) else 0
  {
    assert [o][..0] == [];
  }

  // ---------- Winners ----------

  lemma WinsWhen(winRatio: U32, draw: nat)
    ensures Wins(winRatio, draw) <==> draw % 10_000 < winRatio
  {
  }

  /** After a paid grab the buyer has one ticket more exactly when the new order says so, and nobody else but grab.cisum is
      affected. */
  lemma GrabberGetsPrize(w: World, act: Action, env: Env)
    requires SupplyOk(w.nft) && act.PayGrab? && Step(w, act, env).Some?
    ensures var t := Step(w, act, env).value;
            && OrdersOf(t.grab, act.id) != [] && act.id in w.grab.sales
            && (var order := OrdersOf(t.grab, act.id)[|OrdersOf(t.grab, act.id)| - 1];
                && order.account == act.from && order.grabId == act.grabId
                && (order.tickets > 0 <==> env.draw % 10_000 < w.grab.sales[act.id].winRatio)
                && forall o: Name, n: Nid | o != GRAB_CISUM ::
                     Held(t.nft, o, n) == Held(w.nft, o, n) + if o == act.from then Of(order.tickets, w.grab.sales[act.id].ticketId, n) else 0)
  {
    hide Wins, OrderHashTaken, HasWon, WrapU32, Held, Dispatch, SupplyOk;
    var done := PayGrabSpec(w.grab, env.sha, act.from, act.bank, act.quantity, act.id, act.grabId, env.draw, env.now).value;
    DispatchPays(w.nft, done.1, env.allowed);
    WinsWhen(w.grab.sales[act.id].winRatio, env.draw);
    var ticket := w.grab.sales[act.id].ticketId;
    forall o: Name, n: Nid
      ensures Received(done.1, o, n) == if o == act.from && Wins(w.grab.sales[act.id].winRatio, env.draw) then Of(1, ticket, n) else 0
    {
      ReceivedOne(Out(act.from, NAsset(1, ticket)), o, n);
    }
  }

  // ---------- Clearing up ----------

  /** Payments by one account that did not win. */
  ghost function Lost(logs: seq<Log>, owner: Name, n: Nid): int {
    if logs == [] then 0
    else
      var last := logs[|logs| - 1];
      Lost(logs[..|logs| - 1], owner, n) + if last.account == owner && last.won.amount <= 0 then Of(last.paid.amount, last.paid.nid, n) else 0
  }

  /** Payments that won. */
  ghost function Won(logs: seq<Log>, n: Nid): int {
    if logs == [] then 0
    else
      var last := logs[|logs| - 1];
      Won(logs[..|logs| - 1], n) + if last.won.amount > 0 then Of(last.paid.amount, last.paid.nid, n) else 0
  }

  lemma ReceivedLast(outs: seq<Out>, o: Out, owner: Name, n: Nid)
    ensures Received(outs + [o], owner, n) == Received(outs, owner, n) + if o.to == owner then Of(o.asset.amount, o.asset.nid, n) else 0
  {
    assert (outs + [o])[..|outs|] == outs;
  }

  lemma {:induction false} SettlementReaches(logs: seq<Log>, owner: Name, n: Nid)
    ensures Received(SettleAll(logs), owner, n) == Lost(logs, owner, n) + if owner == OOOO then Won(logs, n) else 0
  {
    if logs != [] {
      var init, last := logs[..|logs| - 1], logs[|logs| - 1];
      SettlementReaches(init, owner, n);
      ReceivedLast(SettleAll(init), Settle(last), owner, n);
    }
  }

  /** A clean-up call gives every payer back what that payer lost in the logs it settles, and burns what won. */
  lemma ClearingPaysBack(w: World, act: Action, env: Env)
    requires SupplyOk(w.nft) && act.DelUpgrade? && Step(w, act, env).Some?
    ensures var t := Step(w, act, env).value; var logs := LogsOf(w.grab, act.id); var page := logs[..Min(MAX_UPGRADE, |logs|)];
            && LogsOf(t.grab, act.id) == logs[|page|..]
            && forall o: Name, n: Nid | o != GRAB_CISUM ::
                 Held(t.nft, o, n) == Held(w.nft, o, n) + Lost(page, o, n) + if o == OOOO then Won(page, n) else 0
  {
    hide Held, Dispatch, SupplyOk, SettleAll, Lost, Won;
    var done := DelUpgradeSpec(w.grab, env.allowed, act.id, env.now).value;
    DispatchPays(w.nft, done.1, env.allowed);
    var logs := LogsOf(w.grab, act.id);
    var page := logs[..Min(MAX_UPGRADE, |logs|)];
    forall o: Name, n: Nid
      ensures Received(done.1, o, n) == Lost(page, o, n) + if o == OOOO then Won(page, n) else 0
    {
      SettlementReaches(page, o, n);
    }
  }
}
