/** What happens to tickets sent to grab.cisum: which are accepted as stock, which as the payment of an upgrade, and what goes back. */
module UpgradeTerms {
  import opened Eosio
  import opened Sums
  import opened TicketLedger
  import opened GrabModel
  import opened TicketWorld
  import opened TicketEscrow
  import TicketTerms
  import TicketRuns
  import TicketDelivery
  import TicketPayouts

  lemma OneUpgradeWithinDue(g: Grab, id: nat)
    requires RowsOk(g) && id in g.upgrades
    ensures g.upgrades[id].available <= GrabDue(g, g.upgrades[id].targetId)
  {
    var n := g.upgrades[id].targetId;
    SumNonNegative(SaleStock(g, n));
    SumNonNegative(UpgradeStock(g, n));
    forall k | k in g.logs
      ensures PaidIn(g.logs[k], n) >= 0
    {
      TicketRuns.PaidInNonNegative(g.logs[k], n);
    }
    SumNonNegative(LogStock(g, n));
    assert UpgradeStock(g, n)[id] == g.upgrades[id].available;
  }

  /** What an upgrade has left never exceeds what exists. */
  lemma StockInRange(trace: seq<Event>, id: nat)
    ensures var g := Run(Empty(), trace).grab;
            id in g.upgrades ==> 0 <= g.upgrades[id].available == g.upgrades[id].total - g.upgrades[id].grabbed <= MAX_AMOUNT
  {
    hide Run, GrabDue;
    TicketRuns.RunKeepsEscrowed(trace);
    var w := Run(Empty(), trace);
    if id in w.grab.upgrades && w.grab.upgrades[id].available > 0 {
      var n := w.grab.upgrades[id].targetId;
      OneUpgradeWithinDue(w.grab, id);
      assert Held(w.nft, GRAB_CISUM, n) >= GrabDue(w.grab, n);
      assert (GRAB_CISUM, n) in w.nft.balances;
      HeldAtMostSupply(w.nft, GRAB_CISUM, n);
    }
  }

  // ---------- Joining an upgrade ----------

  /** The upgrade is open and has stock, the payment is exactly the one asked for, the grab id is new, and the payer has not won yet. */
  ghost predicate MayJoin(g: Grab, from: Name, paid: NAsset, id: nat, grabId: string, env: Env) {
    && id in g.upgrades
    && var up := g.upgrades[id]; var logs := LogsOf(g, id);
    && up.startedAt <= env.now <= up.endedAt
    && up.available > 0
    && paid.nid == up.pay.nid && paid.amount == up.pay.amount
    && (forall i | 0 <= i < |logs| :: env.sha(logs[i].grabId) != env.sha(grabId))
    && (forall i | 0 <= i < |logs| :: logs[i].account == from ==> logs[i].won.amount <= 0)
  }

  predicate Lucky(up: Upgrade, draw: nat) { draw % 10_000 < up.winRatio }

  /** The tables after a join: one more log, and one ticket less if it won. */
  ghost function Joined(g: Grab, from: Name, paid: NAsset, id: nat, grabId: string, env: Env): Grab
    requires id in g.upgrades
  {
    var up := g.upgrades[id];
    var won := if Lucky(up, env.draw) then 1 else 0;
    g.(lastOrderId := g.lastOrderId + 1,
       logs := g.logs[id := LogsOf(g, id) + [Log(g.lastOrderId + 1, grabId, from, paid, NAsset(won, up.targetId))]],
       upgrades := g.upgrades[id := up.(totalGrabs := (up.totalGrabs + 1) % TWO_32, grabbed := up.grabbed + won, available := up.available - won)])
  }

  ghost function Prize(g: Grab, from: Name, id: nat, env: Env): seq<Out>
    requires id in g.upgrades
  {
    if Lucky(g.upgrades[id], env.draw) then [Out(from, NAsset(1, g.upgrades[id].targetId))] else []
  }

  lemma JoinOutcome(g: Grab, from: Name, paid: NAsset, id: nat, grabId: string, env: Env)
    requires id in g.upgrades ==> g.upgrades[id].available == g.upgrades[id].total - g.upgrades[id].grabbed <= MAX_AMOUNT
    ensures JoinUpgradeSpec(g, env.sha, from, paid, id, grabId, env.draw, env.now)
            == if MayJoin(g, from, paid, id, grabId, env) then Some((Joined(g, from, paid, id, grabId, env), Prize(g, from, id, env))) else Abort
  {
    var r := JoinUpgradeSpec(g, env.sha, from, paid, id, grabId, env.draw, env.now);
    if r.Some? {
      assert r.value.0.upgrades == Joined(g, from, paid, id, grabId, env).upgrades;
    }
  }

  lemma StepOfJoin(w: World, from: Name, assets: seq<NAsset>, id: nat, grabId: string, env: Env)
    requires IsUser(from) && SupplyOk(w.nft) && assets != [] && id in w.grab.upgrades
    requires JoinUpgradeSpec(w.grab, env.sha, from, assets[0], id, grabId, env.draw, env.now)
             == Some((Joined(w.grab, from, assets[0], id, grabId, env), Prize(w.grab, from, id, env)))
    requires Step(w, NftTransfer(from, GRAB_CISUM, assets, JoinUpgrade(id, grabId)), env).Some?
    ensures var t := Step(w, NftTransfer(from, GRAB_CISUM, assets, JoinUpgrade(id, grabId)), env).value; var up := w.grab.upgrades[id];
            && t.grab == Joined(w.grab, from, assets[0], id, grabId, env) && t.show == w.show
            && forall o: Name, n: Nid | o != GRAB_CISUM ::
                 Held(t.nft, o, n) == Held(w.nft, o, n)
                                      + (if Lucky(up, env.draw) && o == from && n == up.targetId then 1 else 0) - (if o == from then Carried(assets, n) else 0)
  {
    hide JoinUpgradeSpec, Joined, Held, SupplyOk, Dispatch, Lucky, MoveAll, Carried;
    var up := w.grab.upgrades[id];
    MoveAllEffect(w.nft, from, GRAB_CISUM, assets);
    var moved := MoveAll(w.nft, from, GRAB_CISUM, assets).value;
    TicketPayouts.DispatchPays(moved, Prize(w.grab, from, id, env), env.allowed);
    forall o: Name, n: Nid
      ensures TicketPayouts.Received(Prize(w.grab, from, id, env), o, n) == if Lucky(up, env.draw) && o == from && n == up.targetId then 1 else 0
    {
      TicketPayouts.ReceivedOne(Out(from, NAsset(1, up.targetId)), o, n);
    }
  }

  /** In every reachable world tickets that a user sends to join an upgrade are taken if and only if the user has them all and the first
      of them may join. The join is logged, and the user has one ticket of the better kind more exactly when the draw is below the
      chance of the upgrade. */
  lemma JoinTerms(trace: seq<Event>, from: Name, assets: seq<NAsset>, id: nat, grabId: string, env: Env)
    requires IsUser(from)
    ensures var w := Run(Empty(), trace); var r := Step(w, NftTransfer(from, GRAB_CISUM, assets, JoinUpgrade(id, grabId)), env);
            && (r.Some? <==> env.allowed && TicketTerms.Covered(w.nft, from, assets) && assets != [] && MayJoin(w.grab, from, assets[0], id, grabId, env))
            && (r.Some? ==>
                  var up := w.grab.upgrades[id];
                  && r.value.grab == Joined(w.grab, from, assets[0], id, grabId, env) && r.value.show == w.show
                  && forall o: Name, n: Nid | o != GRAB_CISUM ::
                       Held(r.value.nft, o, n) == Held(w.nft, o, n)
                                                  + (if Lucky(up, env.draw) && o == from && n == up.targetId then 1 else 0)
                                                  - (if o == from then Carried(assets, n) else 0))
  {
    hide Run, JoinUpgradeSpec, Step, Joined, Held, SupplyOk, Prize, TransferSpec, Carried, TicketTerms.Covered;
    var w := Run(Empty(), trace);
    StockInRange(trace, id);
    TicketRuns.RunKeepsEscrowed(trace);
    TicketDelivery.JoinPrizeNeverFails(trace, from, assets, JoinUpgrade(id, grabId), env);
    TicketTerms.TransferCommitsIff(w.nft, from, GRAB_CISUM, assets, env.allowed);
    if assets != [] {
      JoinOutcome(w.grab, from, assets[0], id, grabId, env);
      if Step(w, NftTransfer(from, GRAB_CISUM, assets, JoinUpgrade(id, grabId)), env).Some? {
        StepOfJoin(w, from, assets, id, grabId, env);
      }
    }
  }

  // ---------- Stock coming in and going back ----------

  /** In every reachable world tickets that a user sends as stock for a sale are taken if and only if the user has them all and the first
      of them is of the kind on sale; the first adds to the stock, and all of them are held. */
  lemma SaleStockTerms(trace: seq<Event>, from: Name, assets: seq<NAsset>, id: nat, env: Env)
    requires IsUser(from)
    ensures var w := Run(Empty(), trace); var r := Step(w, NftTransfer(from, GRAB_CISUM, assets, AddToSale(id)), env);
            && (r.Some? <==>
                  && env.allowed && TicketTerms.Covered(w.nft, from, assets) && assets != []
                  && id in w.grab.sales && assets[0].nid == w.grab.sales[id].ticketId
                  && -MAX_AMOUNT <= w.grab.sales[id].total + assets[0].amount <= MAX_AMOUNT
                  && w.grab.sales[id].available + assets[0].amount <= MAX_AMOUNT)
            && (r.Some? ==>
                  var sale := w.grab.sales[id];
                  && r.value.show == w.show
                  && r.value.grab == w.grab.(sales := w.grab.sales[id := sale.(total := sale.total + assets[0].amount, available := sale.available + assets[0].amount)])
                  && forall o: Name, n: Nid ::
                       Held(r.value.nft, o, n) == Held(w.nft, o, n) + (if o == GRAB_CISUM then Carried(assets, n) else 0) - (if o == from then Carried(assets, n) else 0))
  {
    hide Run, Held, SupplyOk, MoveAll, Carried, GrabDue;
    var w := Run(Empty(), trace);
    TicketRuns.RunKeepsEscrowed(trace);
    TicketTerms.TransferCommitsIff(w.nft, from, GRAB_CISUM, assets, env.allowed);
    if TransferSpec(w.nft, from, GRAB_CISUM, assets, env.allowed).Some? {
      MoveAllEffect(w.nft, from, GRAB_CISUM, assets);
    }
  }

  /** The same for an upgrade, with tickets of its target kind. */
  lemma UpgradeStockTerms(trace: seq<Event>, from: Name, assets: seq<NAsset>, id: nat, env: Env)
    requires IsUser(from)
    ensures var w := Run(Empty(), trace); var r := Step(w, NftTransfer(from, GRAB_CISUM, assets, AddToUpgrade(id)), env);
            && (r.Some? <==>
                  && env.allowed && TicketTerms.Covered(w.nft, from, assets) && assets != []
                  && id in w.grab.upgrades && assets[0].nid == w.grab.upgrades[id].targetId
                  && -MAX_AMOUNT <= w.grab.upgrades[id].total + assets[0].amount <= MAX_AMOUNT
                  && w.grab.upgrades[id].available + assets[0].amount <= MAX_AMOUNT)
            && (r.Some? ==>
                  var up := w.grab.upgrades[id];
                  && r.value.show == w.show
                  && r.value.grab == w.grab.(upgrades := w.grab.upgrades[id := up.(total := up.total + assets[0].amount, available := up.available + assets[0].amount)])
                  && forall o: Name, n: Nid ::
                       Held(r.value.nft, o, n) == Held(w.nft, o, n) + (if o == GRAB_CISUM then Carried(assets, n) else 0) - (if o == from then Carried(assets, n) else 0))
  {
    hide Run, Held, SupplyOk, MoveAll, Carried, GrabDue;
    var w := Run(Empty(), trace);
    TicketRuns.RunKeepsEscrowed(trace);
    TicketTerms.TransferCommitsIff(w.nft, from, GRAB_CISUM, assets, env.allowed);
    if TransferSpec(w.nft, from, GRAB_CISUM, assets, env.allowed).Some? {
      MoveAllEffect(w.nft, from, GRAB_CISUM, assets);
    }
  }

  /** Stock can be taken back, by those allowed to, up to what is left, and names the show of the sale or upgrade it came from. */
  lemma SubGrabTerms(g: Grab, authorized: bool, kind: RushType, id: nat, tickets: NAsset)
    requires RowsOk(g)
    ensures var r := SubGrabSpec(g, authorized, kind, id, tickets);
            if && authorized && kind.RushSale? && id in g.sales && tickets.nid == g.sales[id].ticketId && 0 < tickets.amount <= g.sales[id].available
               && -MAX_AMOUNT <= g.sales[id].total - tickets.amount <= MAX_AMOUNT && g.sales[id].available - tickets.amount <= MAX_AMOUNT
            then var sale := g.sales[id];
                 r == Some((g.(sales := g.sales[id := sale.(total := sale.total - tickets.amount, available := sale.available - tickets.amount)]), sale.showId))
            else if && authorized && kind.RushUpgrade? && id in g.upgrades && tickets.nid == g.upgrades[id].targetId && 0 < tickets.amount <= g.upgrades[id].available
                    && -MAX_AMOUNT <= g.upgrades[id].total - tickets.amount <= MAX_AMOUNT && g.upgrades[id].available - tickets.amount <= MAX_AMOUNT
            then var up := g.upgrades[id];
                 r == Some((g.(upgrades := g.upgrades[id := up.(total := up.total - tickets.amount, available := up.available - tickets.amount)]), up.showId))
            else r.Abort?
  {
  }
}
