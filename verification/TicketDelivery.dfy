/** No transfer that grab.cisum queues can fail: it always holds the tickets, and never pays itself. */
module TicketDelivery {
  import opened Eosio
  import opened Sums
  import opened TicketLedger
  import opened GrabModel
  import opened TicketWorld
  import opened TicketEscrow
  import TicketRuns

  /** Positive amounts, to other accounts. */
  ghost predicate Sendable(outs: seq<Out>) {
    forall i | 0 <= i < |outs| :: outs[i].to != GRAB_CISUM && outs[i].asset.amount > 0
  }

  lemma SentGrows(outs: seq<Out>, n: Nid)
    requires outs != [] && Sendable(outs)
    ensures Sendable(outs[..|outs| - 1]) && Sent(outs[..|outs| - 1], n) <= Sent(outs, n)
  {
  }

  lemma {:induction false} SentNonNegative(outs: seq<Out>, n: Nid)
    requires Sendable(outs)
    ensures Sent(outs, n) >= 0
  {
    if outs != [] {
      SentNonNegative(outs[..|outs| - 1], n);
    }
  }

  /** Queued transfers that the balance covers, kind by kind, all go through. */
  lemma {:induction false} CoveredTransfersWork(l: Ledger, outs: seq<Out>)
    requires SupplyOk(l) && Sendable(outs)
    requires forall n: Nid {:trigger Sent(outs, n)} :: Held(l, GRAB_CISUM, n) >= Sent(outs, n)
    ensures Dispatch(l, outs, true).Some?
  {
    hide SupplyOk, Held, Sent, Move;
    if outs != [] {
      var init, last := outs[..|outs| - 1], outs[|outs| - 1];
      forall n: Nid
        ensures Held(l, GRAB_CISUM, n) >= Sent(init, n)
      {
        SentGrows(outs, n);
      }
      assert Sendable(init);
      CoveredTransfersWork(l, init);
      var before := Dispatch(l, init, true).value;
      TicketRuns.DispatchEffect(l, init, true);
      LastOfSent(outs, last.asset.nid);
      OneMoveWorks(before, last);
    }
  }

  lemma LastOfSent(outs: seq<Out>, n: Nid)
    requires outs != [] && outs[|outs| - 1].asset.nid == n
    ensures Sent(outs, n) == Sent(outs[..|outs| - 1], n) + outs[|outs| - 1].asset.amount
  {
  }

  lemma OneMoveWorks(l: Ledger, o: Out)
    requires SupplyOk(l) && o.to != GRAB_CISUM && 0 < o.asset.amount <= Held(l, GRAB_CISUM, o.asset.nid)
    ensures TransferSpec(l, GRAB_CISUM, o.to, [o.asset], true).Some?
  {
    hide Move;
    HolderKnown(l, GRAB_CISUM, o.asset.nid);
    CreditNeverOverflows(l, GRAB_CISUM, o.to, o.asset);
    assert [o.asset][..0] == [];
    assert MoveAll(l, GRAB_CISUM, o.to, []) == Some(l);
  }

  lemma HolderKnown(l: Ledger, owner: Name, n: Nid)
    requires SupplyOk(l) && Held(l, owner, n) > 0
    ensures n in l.stats
  {
    assert (owner, n) in l.balances;
  }

  lemma DueNonNegative(g: Grab, n: Nid)
    requires RowsOk(g)
    ensures GrabDue(g, n) >= 0
  {
    SumNonNegative(SaleStock(g, n));
    SumNonNegative(UpgradeStock(g, n));
    forall k | k in g.logs
      ensures PaidIn(g.logs[k], n) >= 0
    {
      TicketRuns.PaidInNonNegative(g.logs[k], n);
    }
    SumNonNegative(LogStock(g, n));
  }

  /** What an action that conserves queues is covered by what the contract holds, with what it has just received. */
  lemma ConservedTransfersWork(l: Ledger, g: Grab, h: Grab, received: NAsset, outs: seq<Out>)
    requires SupplyOk(l) && Sendable(outs) && Conserves(g, h, received, outs)
    requires forall n: Nid {:trigger GrabDue(g, n)} :: Held(l, GRAB_CISUM, n) >= GrabDue(g, n) + Of(received.amount, received.nid, n)
    ensures Dispatch(l, outs, true).Some?
  {
    hide SupplyOk, Held, Sent, GrabDue, RowsOk, Dispatch;
    forall n: Nid
      ensures Held(l, GRAB_CISUM, n) >= Sent(outs, n)
    {
      DueNonNegative(h, n);
      assert GrabDue(h, n) + Sent(outs, n) <= GrabDue(g, n) + Of(received.amount, received.nid, n);
    }
    CoveredTransfersWork(l, outs);
  }

  // ---------- Clean-up calls ----------

  lemma SettlementsSendable(g: Grab, id: nat, logs: seq<Log>)
    requires RowsOk(g) && (forall i | 0 <= i < |logs| :: logs[i] in LogsOf(g, id))
    ensures Sendable(SettleAll(logs))
  {
    assert OOOO != GRAB_CISUM;
    forall i | 0 <= i < |logs|
      ensures SettleAll(logs)[i].to != GRAB_CISUM && SettleAll(logs)[i].asset.amount > 0
    {
      assert SettleAll(logs)[i] == Settle(logs[i]) && logs[i] in LogsOf(g, id);
    }
  }

  /** In every reachable state a clean-up call commits if and only if it is authorized, the upgrade exists and has ended: no refund
      and no burn can stop it. */
  lemma ClearingCommitsIff(trace: seq<Event>, id: nat, env: Env)
    ensures var w := Run(Empty(), trace);
            Step(w, DelUpgrade(id), env).Some? <==> env.allowed && id in w.grab.upgrades && env.now > w.grab.upgrades[id].endedAt
  {
    hide Run, RowsOk, SupplyOk, GrabDue, Held, SettleAll, Dispatch, Conserves;
    var w := Run(Empty(), trace);
    TicketRuns.RunKeepsEscrowed(trace);
    if env.allowed && id in w.grab.upgrades && env.now > w.grab.upgrades[id].endedAt {
      DelUpgradeConserves(w.grab, env.allowed, id, env.now);
      var done := DelUpgradeSpec(w.grab, env.allowed, id, env.now).value;
      SettlementsSendable(w.grab, id, LogsOf(w.grab, id)[..Min(MAX_UPGRADE, |LogsOf(w.grab, id)|)]);
      NothingReceived();
      ConservedTransfersWork(w.nft, w.grab, done.0, NAsset(0, 0), done.1);
    }
  }

  lemma NothingReceived()
    ensures forall n: Nid :: Of(0, 0, n) == 0
  {
  }

  // ---------- Prizes ----------

  /** In every reachable state a paid grab that passes its own checks commits: the prize is there and reaches the winner. */
  lemma GrabPrizeNeverFails(trace: seq<Event>, act: Action, env: Env)
    requires act.PayGrab? && env.allowed
    ensures var w := Run(Empty(), trace);
            Step(w, act, env).Some? <==>
              act.from != GRAB_CISUM && PayGrabSpec(w.grab, env.sha, act.from, act.bank, act.quantity, act.id, act.grabId, env.draw, env.now).Some?
  {
    hide Run, RowsOk, SupplyOk, GrabDue, Held, Dispatch, Conserves, PayGrabSpec;
    var w := Run(Empty(), trace);
    TicketRuns.RunKeepsEscrowed(trace);
    var r := PayGrabSpec(w.grab, env.sha, act.from, act.bank, act.quantity, act.id, act.grabId, env.draw, env.now);
    if act.from != GRAB_CISUM && r.Some? {
      PayGrabConserves(w.grab, env.sha, act.from, act.bank, act.quantity, act.id, act.grabId, env.draw, env.now);
      PrizeIsSendable(w.grab, env, act);
      NothingReceived();
      ConservedTransfersWork(w.nft, w.grab, r.value.0, NAsset(0, 0), r.value.1);
    }
  }

  lemma PrizeIsSendable(g: Grab, env: Env, act: Action)
    requires act.PayGrab? && act.from != GRAB_CISUM
    ensures var r := PayGrabSpec(g, env.sha, act.from, act.bank, act.quantity, act.id, act.grabId, env.draw, env.now);
            r.Some? ==> Sendable(r.value.1)
  {
    hide Wins, OrderHashTaken, HasWon, WrapU32, InRange;
  }

  lemma JoinPrizeIsSendable(g: Grab, sha: string -> nat, from: Name, assets: seq<NAsset>, memo: Memo, draw: nat, now: nat)
    requires from != GRAB_CISUM && OnTicketSpec(g, sha, from, assets, memo, draw, now).Some?
    ensures Sendable(OnTicketSpec(g, sha, from, assets, memo, draw, now).value.1)
  {
    hide Wins, LogHashTaken, HasWonUpgrade, WrapU32, InRange, AddStockSpec, AddUpgradeStockSpec;
  }

  /** In every reachable state tickets sent to grab.cisum arrive whenever the transfer itself works and the contract accepts them:
      the prize of a join never fails. */
  lemma JoinPrizeNeverFails(trace: seq<Event>, from: Name, assets: seq<NAsset>, memo: Memo, env: Env)
    requires IsUser(from)
    ensures var w := Run(Empty(), trace);
            Step(w, NftTransfer(from, GRAB_CISUM, assets, memo), env).Some? <==>
              && TransferSpec(w.nft, from, GRAB_CISUM, assets, env.allowed).Some?
              && OnTicketSpec(w.grab, env.sha, from, assets, memo, env.draw, env.now).Some?
  {
    hide Run, RowsOk, SupplyOk, GrabDue, Held, Dispatch, Conserves, OnTicketSpec, MoveAll;
    var w := Run(Empty(), trace);
    TicketRuns.RunKeepsEscrowed(trace);
    if TransferSpec(w.nft, from, GRAB_CISUM, assets, env.allowed).Some? && OnTicketSpec(w.grab, env.sha, from, assets, memo, env.draw, env.now).Some? {
      var moved := TransferSpec(w.nft, from, GRAB_CISUM, assets, env.allowed).value;
      var heard := OnTicketSpec(w.grab, env.sha, from, assets, memo, env.draw, env.now).value;
      MoveAllEffect(w.nft, from, GRAB_CISUM, assets);
      OnTicketConserves(w.grab, env.sha, from, assets, memo, env.draw, env.now);
      JoinPrizeIsSendable(w.grab, env.sha, from, assets, memo, env.draw, env.now);
      forall n: Nid
        ensures Held(moved, GRAB_CISUM, n) >= GrabDue(w.grab, n) + Of(assets[0].amount, assets[0].nid, n)
      {
        CarriedCoversFirst(assets, n);
        assert Held(w.nft, GRAB_CISUM, n) >= GrabDue(w.grab, n);
      }
      ConservedTransfersWork(moved, w.grab, heard.0, assets[0], heard.1);
    }
  }
}
