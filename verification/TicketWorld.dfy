/** The three ticket contracts together: show.cisum sells and lends out tickets, grab.cisum holds them in escrow,
    and ticket.cvnft keeps the balances. One action is one transaction, its inline transfers and the
    notifications they raise included. */
module TicketWorld {
  import opened Eosio
  import opened Sums
  import opened TicketLedger
  import opened GrabModel
  import S = ShowModel

  datatype World = World(nft: Ledger, show: S.Show, grab: Grab)

  /** What a transaction is given by its environment: block time, the hash word of the draw, the hash function, and
      whether the signatures, whitelists and account checks it meets are satisfied. */
  datatype Env = Env(now: nat, draw: nat, sha: string -> nat, allowed: bool)

  datatype Action =
    | NftCreate(issuer: Name, maxSupply: int, nid: Nid)
    | NftIssue(issuer: Name, q: NAsset)
    | NftRetire(q: NAsset)
    | NftTransfer(from: Name, to: Name, assets: seq<NAsset>, memo: Memo)
    | NewShow(showId: nat)
    | NewTicket(key: S.Key, saleEndsAt: nat)
    | SetTicket(key: S.Key, saleEndsAt: nat)
    | DelShow(showId: nat)
    | IssueNft(showId: nat, q: NAsset)
    | IssueTicket(user: Name, key: S.Key, count: S.U32, memo: Memo)
    | BatchReward(recipients: seq<Name>, key: S.Key, count: S.U32)
    | IssueToGrab(to: Name, showId: nat, q: NAsset, memo: Memo)
    | ShowRetire(showId: nat, q: NAsset)
    | AddToken(sym: Symbol, bank: Name)
    | AddSale(sale: Sale)
    | SetSale(id: nat, price: Maybe<Asset>, maxGrabs: Maybe<U32>, winRatio: Maybe<U32>, startedAt: Maybe<nat>, endedAt: Maybe<nat>)
    | AddUpgrade(upgrade: Upgrade)
    | SetUpgrade(id: nat, pay: Maybe<NAsset>, winRatio: Maybe<U32>, startedAt: Maybe<nat>, endedAt: Maybe<nat>)
    | PayGrab(from: Name, bank: Name, quantity: Asset, id: nat, grabId: string)
    | SubGrab(kind: RushType, id: nat, tickets: NAsset)
    | DelSale(id: nat, forced: bool)
    | DelUpgrade(id: nat)

  // ---------- Inline transfers and notifications ----------

  /** Inline transfers out of grab.cisum whose memos no contract reacts to. */
  function Dispatch(nft: Ledger, outs: seq<Out>, allowed: bool): Option<Ledger> {
    if outs == [] then Some(nft)
    else
      var before :- Dispatch(nft, outs[..|outs| - 1], allowed);
      var last := outs[|outs| - 1];
      TransferSpec(before, GRAB_CISUM, last.to, [last.asset], allowed)
  }

  /** show.cisum heeds only returns, and those only from grab.cisum. */
  function ShowHears(s: S.Show, from: Name, first: NAsset, memo: Memo): Option<S.Show> {
    if !memo.BackFromGrab? then Some(s)
    else
      var _ :- Check(from == GRAB_CISUM);
      S.TakeBackSpec(s, memo.showId, first)
  }

  /** A `transfer`, the receiver's notification, and the transfers that one queues. */
  function Send(w: World, env: Env, from: Name, to: Name, assets: seq<NAsset>, memo: Memo): Option<World> {
    var moved :- TransferSpec(w.nft, from, to, assets, env.allowed);
    if to == GRAB_CISUM then
      var heard :- OnTicketSpec(w.grab, env.sha, from, assets, memo, env.draw, env.now);
      var paid :- Dispatch(moved, heard.1, env.allowed);
      Some(w.(nft := paid, grab := heard.0))
    else if to == SHOW_CISUM then
      var _ :- Check(assets != []);
      var show :- ShowHears(w.show, from, assets[0], memo);
      Some(w.(nft := moved, show := show))
    else
      Some(w.(nft := moved))
  }

  function IssueTicketSpec(w: World, env: Env, user: Name, key: S.Key, count: S.U32, memo: Memo): Option<World> {
    var show :- S.SellSpec(w.show, key, count, env.now);
    Send(w.(show := show), env, SHOW_CISUM, user, [NAsset(count, key.1)], memo)
  }

  function IssueEach(w: World, env: Env, recipients: seq<Name>, key: S.Key, count: S.U32): Option<World> {
    if recipients == [] then Some(w)
    else
      var before :- IssueEach(w, env, recipients[..|recipients| - 1], key, count);
      IssueTicketSpec(before, env, recipients[|recipients| - 1], key, count, OtherMemo)
  }

  /** The checks of `batchreward` itself, before its inline `issue`s. */
  predicate BatchChecks(w: World, env: Env, recipients: seq<Name>, key: S.Key, count: S.U32) {
    && env.allowed && 0 < |recipients| <= 500
    && key in w.show.tickets
    && count <= (TWO_64 - 1) / |recipients|
    && count * |recipients| <= w.show.tickets[key].stock
  }

  // ---------- Actions ----------

  /** Accounts whose keys sign for themselves; contracts act through their code only. */
  predicate IsUser(account: Name) {
    account != SHOW_CISUM && account != GRAB_CISUM
  }

  function NftStep(w: World, act: Action, env: Env): Option<World> {
    match act
    case NftCreate(issuer, maxSupply, nid) =>
      var _ :- Check(issuer != GRAB_CISUM);
      var l :- CreateSpec(w.nft, issuer, maxSupply, nid, env.allowed);
      Some(w.(nft := l))
    case NftIssue(issuer, q) =>
      var _ :- Check(IsUser(issuer) && env.allowed);
      var l :- IssueSpec(w.nft, issuer, q);
      Some(w.(nft := l))
    case NftRetire(q) =>
      var _ :- Check(q.nid in w.nft.stats && IsUser(w.nft.stats[q.nid].issuer) && env.allowed);
      var l :- RetireSpec(w.nft, q);
      Some(w.(nft := l))
    case NftTransfer(from, to, assets, memo) =>
      var _ :- Check(IsUser(from));
      Send(w, env, from, to, assets, memo)
    case _ => Abort
  }

  function ShowStep(w: World, act: Action, env: Env): Option<World> {
    match act
    case NewShow(showId) => var s :- S.NewShowSpec(w.show, env.allowed, showId); Some(w.(show := s))
    case NewTicket(key, saleEndsAt) => var s :- S.NewTicketSpec(w.show, env.allowed, key, saleEndsAt); Some(w.(show := s))
    case SetTicket(key, saleEndsAt) => var s :- S.SetTicketSpec(w.show, env.allowed, key, saleEndsAt); Some(w.(show := s))
    case DelShow(showId) => var s :- S.DelShowSpec(w.show, env.allowed, showId); Some(w.(show := s))
    case IssueNft(showId, q) =>
      var _ :- Check(env.allowed);
      var s :- S.MintSpec(w.show, showId, q);
      var l :- IssueSpec(w.nft, SHOW_CISUM, q);
      Some(w.(show := s, nft := l))
    case IssueTicket(user, key, count, memo) =>
      var _ :- Check(env.allowed);
      IssueTicketSpec(w, env, user, key, count, memo)
    case BatchReward(recipients, key, count) =>
      var _ :- Check(BatchChecks(w, env, recipients, key, count));
      IssueEach(w, env, recipients, key, count)
    case IssueToGrab(to, showId, q, memo) =>
      var _ :- Check(env.allowed && (memo.AddToSale? || memo.AddToUpgrade?) && memo.id > 0);
      var s :- S.LendSpec(w.show, showId, q);
      Send(w.(show := s), env, SHOW_CISUM, to, [q], memo)
    case ShowRetire(showId, q) =>
      var _ :- Check(env.allowed);
      var s :- S.ShrinkSpec(w.show, showId, q);
      Some(w.(show := s))
    case _ => Abort
  }

  function GrabStep(w: World, act: Action, env: Env): Option<World> {
    match act
    case AddToken(sym, bank) => var g :- AddTokenSpec(w.grab, env.allowed, sym, bank); Some(w.(grab := g))
    case AddSale(sale) =>
      var g :- AddSaleSpec(w.grab, env.allowed, (sale.showId, sale.ticketId) in w.show.tickets, sale);
      Some(w.(grab := g))
    case SetSale(id, price, maxGrabs, winRatio, startedAt, endedAt) =>
      var g :- SetSaleSpec(w.grab, env.allowed, id, price, maxGrabs, winRatio, startedAt, endedAt);
      Some(w.(grab := g))
    case AddUpgrade(up) =>
      var g :- AddUpgradeSpec(w.grab, env.allowed, (up.showId, up.targetId) in w.show.tickets && (up.showId, up.pay.nid) in w.show.tickets, up);
      Some(w.(grab := g))
    case SetUpgrade(id, pay, winRatio, startedAt, endedAt) =>
      var g :- SetUpgradeSpec(w.grab, env.allowed, id in w.grab.upgrades && pay.Present? && (w.grab.upgrades[id].showId, pay.value.nid) in w.show.tickets,
                              id, pay, winRatio, startedAt, endedAt);
      Some(w.(grab := g))
    case PayGrab(from, bank, quantity, id, grabId) =>
      var _ :- Check(from != GRAB_CISUM);
      var done :- PayGrabSpec(w.grab, env.sha, from, bank, quantity, id, grabId, env.draw, env.now);
      var l :- Dispatch(w.nft, done.1, env.allowed);
      Some(w.(grab := done.0, nft := l))
    case SubGrab(kind, id, tickets) =>
      var done :- SubGrabSpec(w.grab, env.allowed, kind, id, tickets);
      Send(w.(grab := done.0), env, GRAB_CISUM, SHOW_CISUM, [tickets], BackFromGrab(done.1))
    case DelSale(id, forced) => var g :- DelSaleSpec(w.grab, env.allowed, id, forced, env.now); Some(w.(grab := g))
    case DelUpgrade(id) =>
      var done :- DelUpgradeSpec(w.grab, env.allowed, id, env.now);
      var l :- Dispatch(w.nft, done.1, env.allowed);
      Some(w.(grab := done.0, nft := l))
    case _ => Abort
  }

  function Step(w: World, act: Action, env: Env): Option<World> {
    match act
    case NftCreate(_, _, _) => NftStep(w, act, env)
    case NftIssue(_, _) => NftStep(w, act, env)
    case NftRetire(_) => NftStep(w, act, env)
    case NftTransfer(_, _, _, _) => NftStep(w, act, env)
    case NewShow(_) => ShowStep(w, act, env)
    case NewTicket(_, _) => ShowStep(w, act, env)
    case SetTicket(_, _) => ShowStep(w, act, env)
    case DelShow(_) => ShowStep(w, act, env)
    case IssueNft(_, _) => ShowStep(w, act, env)
    case IssueTicket(_, _, _, _) => ShowStep(w, act, env)
    case BatchReward(_, _, _) => ShowStep(w, act, env)
    case IssueToGrab(_, _, _, _) => ShowStep(w, act, env)
    case ShowRetire(_, _) => ShowStep(w, act, env)
    case _ => GrabStep(w, act, env)
  }

  datatype Event = Event(act: Action, env: Env)

  ghost function Run(w: World, trace: seq<Event>): World {
    if trace == [] then w
    else
      var before := Run(w, trace[..|trace| - 1]);
      var last := trace[|trace| - 1];
      After(Step(before, last.act, last.env), before)
  }

  function Empty(): World {
    World(Ledger(map[], map[]), S.Show({}, map[]), Grab(1, 1, map[], map[], map[], map[], map[], map[]))
  }

  // ---------- What the contracts owe in tickets ----------

  ghost function SaleStock(g: Grab, n: Nid): map<nat, int> {
    map id | id in g.sales :: if g.sales[id].ticketId == n then g.sales[id].available else 0
  }

  ghost function UpgradeStock(g: Grab, n: Nid): map<nat, int> {
    map id | id in g.upgrades :: if g.upgrades[id].targetId == n then g.upgrades[id].available else 0
  }

  /** Tickets paid into the unsettled logs of one upgrade. */
  ghost function PaidIn(logs: seq<Log>, n: Nid): int {
    if logs == [] then 0
    else PaidIn(logs[..|logs| - 1], n) + if logs[|logs| - 1].paid.nid == n then logs[|logs| - 1].paid.amount else 0
  }

  ghost function LogStock(g: Grab, n: Nid): map<nat, int> {
    map id | id in g.logs :: PaidIn(g.logs[id], n)
  }

  /** Tickets of kind `n` that grab.cisum owes: stock of all sales and upgrades, and all payments not yet settled. */
  ghost function GrabDue(g: Grab, n: Nid): int {
    Sum(SaleStock(g, n)) + Sum(UpgradeStock(g, n)) + Sum(LogStock(g, n))
  }

  ghost function ShelfStock(s: S.Show, n: Nid): map<S.Key, int> {
    map k | k in s.tickets :: if k.1 == n then s.tickets[k].stock else 0
  }

  /** Tickets of kind `n` that show.cisum has in stock over all shows. */
  ghost function ShowDue(s: S.Show, n: Nid): int { Sum(ShelfStock(s, n)) }
}
