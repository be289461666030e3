/** show.cisum: the stock of each kind of ticket of each show, in 32-bit counters. */
module ShowModel {
  import opened Eosio
  import opened TicketLedger

  type U32 = n: nat | n < TWO_32

  datatype Ticket = Ticket(total: U32, sold: U32, stock: U32, issued: U32, saleEndsAt: nat)

  /** Rows are keyed by show and ticket kind. */
  type Key = (nat, Nid)

  datatype Show = Show(shows: set<nat>, tickets: map<Key, Ticket>)

  function NewShowSpec(s: Show, authorized: bool, showId: nat): Option<Show> {
    var _ :- Check(authorized && showId !in s.shows);
    Some(s.(shows := s.shows + {showId}))
  }

  function NewTicketSpec(s: Show, authorized: bool, key: Key, saleEndsAt: nat): Option<Show> {
    var _ :- Check(authorized && key.0 in s.shows && key !in s.tickets);
    Some(s.(tickets := s.tickets[key := Ticket(0, 0, 0, 0, saleEndsAt)]))
  }

  function SetTicketSpec(s: Show, authorized: bool, key: Key, saleEndsAt: nat): Option<Show> {
    var _ :- Check(authorized && key in s.tickets);
    Some(s.(tickets := s.tickets[key := s.tickets[key].(saleEndsAt := saleEndsAt)]))
  }

  /** `delshow` drops every ticket row of the show. */
  function DelShowSpec(s: Show, authorized: bool, showId: nat): Option<Show> {
    var _ :- Check(authorized && showId in s.shows);
    Some(Show(s.shows - {showId}, map k | k in s.tickets && k.0 != showId :: s.tickets[k]))
  }

  /** The table part of `issuenft`. */
  function MintSpec(s: Show, showId: nat, q: NAsset): Option<Show> {
    var _ :- Check(showId > 0 && q.amount > 0 && (showId, q.nid) in s.tickets);
    var row := s.tickets[(showId, q.nid)];
    Some(s.(tickets := s.tickets[(showId, q.nid) := row.(total := WrapU32(row.total + q.amount), stock := WrapU32(row.stock + q.amount))]))
  }

  /** The table part of `issue`, with the "sold overflow" check. */
  function SellSpec(s: Show, key: Key, count: U32, now: nat): Option<Show> {
    var _ :- Check(key.0 in s.shows && count > 0 && key in s.tickets);
    var row := s.tickets[key];
    var _ :- Check(row.stock >= count && now <= row.saleEndsAt);
    var sold := WrapU32(row.sold + count);
    var _ :- Check(sold <= row.total);
    Some(s.(tickets := s.tickets[key := row.(sold := sold, stock := row.stock - count, issued := WrapU32(row.issued + count))]))
  }

  /** The table part of `issuetograb`. */
  function LendSpec(s: Show, showId: nat, q: NAsset): Option<Show> {
    var _ :- Check(showId > 0 && q.amount > 0 && (showId, q.nid) in s.tickets);
    var row := s.tickets[(showId, q.nid)];
    var _ :- Check(row.stock >= q.amount);
    Some(s.(tickets := s.tickets[(showId, q.nid) := row.(stock := row.stock - q.amount)]))
  }

  /** `on_transfer_ticket` for a return from grab.cisum, with the "stock overflow" check. */
  function TakeBackSpec(s: Show, showId: nat, q: NAsset): Option<Show> {
    var _ :- Check(showId > 0 && (showId, q.nid) in s.tickets);
    var row := s.tickets[(showId, q.nid)];
    var stock := WrapU32(row.stock + q.amount);
    var _ :- Check(stock <= row.total);
    Some(s.(tickets := s.tickets[(showId, q.nid) := row.(stock := stock)]))
  }

  /** `retire`. */
  function ShrinkSpec(s: Show, showId: nat, q: NAsset): Option<Show> {
    var _ :- Check(q.amount > 0 && (showId, q.nid) in s.tickets);
    var row := s.tickets[(showId, q.nid)];
    var _ :- Check(row.stock >= q.amount);
    Some(s.(tickets := s.tickets[(showId, q.nid) := row.(stock := row.stock - q.amount, total := WrapU32(row.total - q.amount))]))
  }
}
