/** A run of the three ticket contracts in which more tickets come back to show.cisum than were lent out, and what follows. */
module ShowRecycling {
  import opened Eosio
  import opened TicketLedger
  import opened GrabModel
  import opened TicketWorld
  import opened ShowStock
  import S = ShowModel

  const FAN: Name := 1

  const SEAT: S.Key := (1, 7)

  function Hash(s: string): nat { 0 }

  function Now(): Env { Env(0, 0, Hash, true) }

  function At(act: Action): Event { Event(act, Now()) }

  function Shelf(stock: S.U32, sold: S.U32): S.Show { S.Show({1}, map[SEAT := S.Ticket(10, sold, stock, sold, 9)]) }

  function Seats(amount: int): Sale { Sale(1, 7, 0, 9, Asset(1, CISUM), 1, 0, amount, amount, 0, 0) }

  function Desk(amount: int): Grab {
    Grab(2, 1, map[CISUM := CISUM_TOKEN], map[2 := Seats(amount)], map[], map[], map[], map[])
  }

  function Scene(balances: map<(Name, Nid), int>, show: S.Show, desk: Grab): World {
    World(Ledger(map[7 := Stat(10, 10, SHOW_CISUM)], balances), show, desk)
  }

  // ---------- Act by act ----------

  /** Ten seats are created for show 1 and minted, and a rush sale is set up for them. */
  lemma SeatsAreMinted() returns (trace: seq<Event>)
    ensures NeverClosed(trace, SEAT) && LentOut(trace, SEAT) == 0
    ensures Run(Empty(), trace) == Scene(map[(SHOW_CISUM, 7) := 10], Shelf(10, 0), Desk(0))
  {
    hide Run, LentOut, Step, Lent;
    Nothing();
    Listed();
    Minted();
    SetUp();
    NothingLent();
    trace := Play([], Empty(), NewShow(1));
    trace := Play(trace, Bare(map[], map[]), NftCreate(SHOW_CISUM, 10, 7));
    trace := Play(trace, Bare(CREATED, map[]), NewTicket(SEAT, 9));
    trace := Play(trace, Bare(CREATED, LISTED), IssueNft(1, NAsset(10, 7)));
    var minted := Scene(map[(SHOW_CISUM, 7) := 10], Shelf(10, 0), Empty().grab);
    trace := Play(trace, minted, AddToken(CISUM, CISUM_TOKEN));
    trace := Play(trace, minted.(grab := Empty().grab.(tokens := map[CISUM := CISUM_TOKEN])), AddSale(Seats(0)));
  }

  function Bare(stats: map<Nid, Stat>, tickets: map<S.Key, S.Ticket>): World {
    World(Ledger(stats, map[]), S.Show({1}, tickets), Empty().grab)
  }

  const CREATED: map<Nid, Stat> := map[7 := Stat(0, 10, SHOW_CISUM)]

  const LISTED: map<S.Key, S.Ticket> := map[SEAT := S.Ticket(0, 0, 0, 0, 9)]

  /** The show, the ticket and its row. */
  lemma Listed()
    ensures Step(Empty(), NewShow(1), Now()) == Some(Bare(map[], map[]))
    ensures Step(Bare(map[], map[]), NftCreate(SHOW_CISUM, 10, 7), Now()) == Some(Bare(CREATED, map[]))
    ensures Step(Bare(CREATED, map[]), NewTicket(SEAT, 9), Now()) == Some(Bare(CREATED, LISTED))
  {
    var none: set<nat> := {};
    assert none + {1} == {1};
    var noTickets: map<S.Key, S.Ticket> := map[];
    assert noTickets[SEAT := S.Ticket(0, 0, 0, 0, 9)] == LISTED;
    var noStats: map<Nid, Stat> := map[];
    assert noStats[7 := Stat(0, 10, SHOW_CISUM)] == CREATED;
  }

  lemma Minted()
    ensures Step(Bare(CREATED, LISTED), IssueNft(1, NAsset(10, 7)), Now()) == Some(Scene(map[(SHOW_CISUM, 7) := 10], Shelf(10, 0), Empty().grab))
  {
    assert CREATED[7 := Stat(10, 10, SHOW_CISUM)] == map[7 := Stat(10, 10, SHOW_CISUM)];
    assert LISTED[SEAT := S.Ticket(10, 0, 10, 0, 9)] == Shelf(10, 0).tickets;
  }

  lemma SetUp()
    ensures var w := Scene(map[(SHOW_CISUM, 7) := 10], Shelf(10, 0), Empty().grab);
            Step(w, AddToken(CISUM, CISUM_TOKEN), Now()) == Some(w.(grab := Empty().grab.(tokens := map[CISUM := CISUM_TOKEN])))
    ensures var w := Scene(map[(SHOW_CISUM, 7) := 10], Shelf(10, 0), Empty().grab.(tokens := map[CISUM := CISUM_TOKEN]));
            Step(w, AddSale(Seats(0)), Now()) == Some(w.(grab := Desk(0)))
  {
  }

  lemma Nothing()
    ensures Run(Empty(), []) == Empty() && LentOut([], SEAT) == 0
  {
  }

  /** One more committed transaction. */
  lemma Play(trace: seq<Event>, w: World, act: Action) returns (longer: seq<Event>)
    requires Run(Empty(), trace) == w && NeverClosed(trace, SEAT) && !act.DelShow?
    ensures longer == trace + [At(act)] && NeverClosed(longer, SEAT)
    ensures Run(Empty(), longer) == After(Step(w, act, Now()), w)
    ensures LentOut(longer, SEAT) == LentOut(trace, SEAT) + if Step(w, act, Now()).Some? then Lent(w, act, Now(), SEAT) else 0
  {
    hide Step, Lent;
    longer := trace + [At(act)];
    assert longer[..|trace|] == trace;
  }

  lemma OneAsset(l: Ledger, from: Name, to: Name, q: NAsset)
    ensures MoveAll(l, from, to, [q]) == Move(l, from, to, q)
  {
    assert [q][..0] == [];
    assert MoveAll(l, from, to, []) == Some(l);
  }

  function SoldOut(): World { Scene(map[(SHOW_CISUM, 7) := 0, (FAN, 7) := 10], Shelf(0, 10), Desk(0)) }

  function Offered(): World { Scene(map[(SHOW_CISUM, 7) := 0, (FAN, 7) := 5, (GRAB_CISUM, 7) := 5], Shelf(0, 10), Desk(5)) }

  function Recycled(): World { Scene(map[(SHOW_CISUM, 7) := 5, (FAN, 7) := 5, (GRAB_CISUM, 7) := 0], Shelf(5, 10), Desk(0)) }

  lemma AllSold()
    ensures var w := Scene(map[(SHOW_CISUM, 7) := 10], Shelf(10, 0), Desk(0));
            Step(w, IssueTicket(FAN, SEAT, 10, OtherMemo), Now()) == Some(SoldOut())
  {
    var w := Scene(map[(SHOW_CISUM, 7) := 10], Shelf(10, 0), Desk(0));
    OneAsset(w.nft, SHOW_CISUM, FAN, NAsset(10, 7));
    assert w.nft.balances[(SHOW_CISUM, 7) := 0][(FAN, 7) := 10] == SoldOut().nft.balances;
    assert Shelf(10, 0).tickets[SEAT := S.Ticket(10, 10, 0, 10, 9)] == Shelf(0, 10).tickets;
  }

  lemma FiveOffered()
    ensures Step(SoldOut(), NftTransfer(FAN, GRAB_CISUM, [NAsset(5, 7)], AddToSale(2)), Now()) == Some(Offered())
  {
    OneAsset(SoldOut().nft, FAN, GRAB_CISUM, NAsset(5, 7));
    assert SoldOut().nft.balances[(FAN, 7) := 5][(GRAB_CISUM, 7) := 5] == Offered().nft.balances;
    assert Desk(0).sales[2 := Seats(5)] == Desk(5).sales;
  }

  lemma FiveReturned()
    ensures Step(Offered(), SubGrab(RushSale, 2, NAsset(5, 7)), Now()) == Some(Recycled())
  {
    OneAsset(Offered().nft, GRAB_CISUM, SHOW_CISUM, NAsset(5, 7));
    assert Offered().nft.balances[(GRAB_CISUM, 7) := 0][(SHOW_CISUM, 7) := 5] == Recycled().nft.balances;
    assert Desk(5).sales[2 := Seats(0)] == Desk(0).sales;
    assert Shelf(0, 10).tickets[SEAT := S.Ticket(10, 10, 5, 10, 9)] == Shelf(5, 10).tickets;
  }

  lemma FiveBack()
    ensures Lent(Offered(), SubGrab(RushSale, 2, NAsset(5, 7)), Now(), SEAT) == -5
  {
  }

  /** Ten seats are minted and sold; the buyer gives five of them to a rush sale, from which they are returned. Five more came back
      than were ever lent: five are in stock, the show is open, and not one of them can be sold. */
  lemma RecycledSeatsCannotBeSold() returns (trace: seq<Event>)
    ensures NeverClosed(trace, SEAT) && LentOut(trace, SEAT) == -5
    ensures var w := Run(Empty(), trace);
            && Countable(w.show, SEAT, -5) && Open(w.show, SEAT, 0)
            && w.show.tickets[SEAT].stock == Held(w.nft, SHOW_CISUM, 7) == 5
            && Step(w, IssueTicket(FAN, SEAT, 1, OtherMemo), Now()).Abort?
  {
    hide Run, LentOut, Step, Lent;
    trace := SeatsAreMinted();
    AllSold();
    FiveOffered();
    FiveReturned();
    FiveBack();
    NothingLent();
    trace := Play(trace, Scene(map[(SHOW_CISUM, 7) := 10], Shelf(10, 0), Desk(0)), IssueTicket(FAN, SEAT, 10, OtherMemo));
    trace := Play(trace, SoldOut(), NftTransfer(FAN, GRAB_CISUM, [NAsset(5, 7)], AddToSale(2)));
    trace := Play(trace, Offered(), SubGrab(RushSale, 2, NAsset(5, 7)));
    NoneSells();
  }

  lemma NothingLent()
    ensures forall w: World, act: Action :: !act.IssueToGrab? && !act.SubGrab? ==> Lent(w, act, Now(), SEAT) == 0
  {
  }

  lemma NoneSells()
    ensures Step(Recycled(), IssueTicket(FAN, SEAT, 1, OtherMemo), Now()).Abort?
  {
    hide Send;
  }
}
