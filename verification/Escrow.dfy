/**
 * Five stages over one ledger: placing locks funds and accepts the order, delivery matches it,
 * cancelling takes what rests out of the book, and releases and settlements post what is due.
 * Each stage takes its work from a queue whenever it likes.
 */
module Escrows {
  import opened PriceTime
  import opened BookLaws
  import L = Ledgers

  datatype Ticket = Ticket(symbol: string, order: Order)

  datatype Listing = Listing(symbol: string, book: Book)

  /** What a taker locked beyond the price it paid; the source never releases it. */
  datatype Saving = Saving(account: L.Account, amount: int)

  datatype Venue = Venue(
    ledger: L.Ledger,
    accepted: seq<Ticket>,
    listings: seq<Listing>,
    unsettled: seq<Trade>,
    releasing: seq<Ticket>,
    saved: seq<Saving>)

  datatype Event =
    | Place(ticket: Ticket)
    | Deliver
    | CancelOrder(symbol: string, id: string)
    | ReleaseNext(i: nat)
    | SettleNext(i: nat)

  function Get(ls: seq<Listing>, symbol: string): Book {
    if ls == [] then EMPTY_BOOK else if ls[0].symbol == symbol then ls[0].book else Get(ls[1..], symbol)
  }

  function Put(ls: seq<Listing>, symbol: string, b: Book): seq<Listing> {
    if ls == [] then [Listing(symbol, b)]
    else if ls[0].symbol == symbol then [Listing(symbol, b)] + ls[1..]
    else [ls[0]] + Put(ls[1..], symbol, b)
  }

  function Savings(taker: Order, trades: seq<Trade>): seq<Saving> {
    if trades == [] || taker.side.Sell? then []
    else [Saving(L.BuyerCash(taker.userId), (taker.price - trades[0].price) * trades[0].quantity)]
         + Savings(taker, trades[1..])
  }

  function Tickets(symbol: string, q: seq<Order>): seq<Ticket> {
    if q == [] then [] else [Ticket(symbol, q[0])] + Tickets(symbol, q[1..])
  }

  function Drop<T>(s: seq<T>, i: nat): seq<T>
    requires i < |s|
  {
    s[..i] + s[i + 1..]
  }

  function Locking(v: Venue, t: Ticket): (L.Ledger, L.Result) {
    L.Lock(v.ledger, t.order.userId, t.symbol, t.order.side, t.order.price, t.order.quantity)
  }

  function Releasing(v: Venue, t: Ticket): (L.Ledger, L.Result) {
    L.Release(v.ledger, t.order.userId, t.symbol, t.order.side, t.order.price, t.order.quantity)
  }

  function Settling(v: Venue, t: Trade): (L.Ledger, L.Result) {
    L.Settle(v.ledger, t.buyerId, t.sellerId, t.symbol, t.price, t.quantity)
  }

  /** A limit order of an ordinary user that the controller lets through. */
  predicate Admissible(o: Order) {
    o.price > 0 && o.quantity > 0 && o.userId != L.SYSTEM
  }

  function Advance(v: Venue, e: Event): Venue {
    match e
    case Place(t) =>
      if !Admissible(t.order) then v
      else
        var (l, r) := Locking(v, t);
        if r.Ok? then v.(ledger := l, accepted := v.accepted + [t]) else v
    case Deliver =>
      if v.accepted == [] then v
      else
        var t := v.accepted[0];
        var b := Get(v.listings, t.symbol);
        var trades := Match(t.symbol, b, t.order).trades;
        v.(accepted := v.accepted[1..],
           listings := Put(v.listings, t.symbol, Add(t.symbol, b, t.order)),
           unsettled := v.unsettled + trades,
           saved := v.saved + Savings(t.order, trades))
    case CancelOrder(symbol, id) =>
      var b := Get(v.listings, symbol);
      v.(listings := Put(v.listings, symbol, Cancel(b, id)),
         releasing := v.releasing + Tickets(symbol, WithId(b.bids, id)) + Tickets(symbol, WithId(b.asks, id)))
    case ReleaseNext(i) =>
      if i >= |v.releasing| then v
      else
        var (l, r) := Releasing(v, v.releasing[i]);
        if r.Ok? then v.(ledger := l, releasing := Drop(v.releasing, i)) else v
    case SettleNext(i) =>
      if i >= |v.unsettled| then v
      else
        var (l, r) := Settling(v, v.unsettled[i]);
        if r.Ok? then v.(ledger := l, unsettled := Drop(v.unsettled, i)) else v
  }

  function Opening(balances: map<L.Account, int>): Venue {
    Venue(L.Ledger(balances, [], []), [], [], [], [], [])
  }

  function RunVenue(v: Venue, es: seq<Event>): Venue {
    if es == [] then v else Advance(RunVenue(v, es[..|es| - 1]), es[|es| - 1])
  }

  // ----- claims on an escrow account -----------------------------------------------------

  function HoldAccount(symbol: string, o: Order): L.Account {
    L.Account(o.userId, L.Currency(symbol, o.side), L.Escrow)
  }

  /** What an order still holds in the account. */
  function OrderClaim(a: L.Account, symbol: string, o: Order): int {
    if HoldAccount(symbol, o) == a then L.Amount(o.side, o.price, o.quantity) else 0
  }

  function QueueClaim(a: L.Account, symbol: string, q: seq<Order>): int {
    if q == [] then 0 else OrderClaim(a, symbol, q[0]) + QueueClaim(a, symbol, q[1..])
  }

  function BookClaim(a: L.Account, symbol: string, b: Book): int {
    QueueClaim(a, symbol, b.bids) + QueueClaim(a, symbol, b.asks)
  }

  function ListingsClaim(a: L.Account, ls: seq<Listing>): int {
    if ls == [] then 0 else BookClaim(a, ls[0].symbol, ls[0].book) + ListingsClaim(a, ls[1..])
  }

  function TicketsClaim(a: L.Account, ts: seq<Ticket>): int {
    if ts == [] then 0 else OrderClaim(a, ts[0].symbol, ts[0].order) + TicketsClaim(a, ts[1..])
  }

  /** What a trade will take from the account when it settles: its cash leg, its asset leg, or both. */
  function TradeClaim(a: L.Account, t: Trade): int {
    (if L.BuyerCash(t.buyerId) == a then t.price * t.quantity else 0)
    + (if L.SellerAsset(t.sellerId, t.symbol) == a then t.quantity else 0)
  }

  function TradesClaim(a: L.Account, ts: seq<Trade>): int {
    if ts == [] then 0 else TradeClaim(a, ts[0]) + TradesClaim(a, ts[1..])
  }

  function SavedClaim(a: L.Account, ss: seq<Saving>): int {
    if ss == [] then 0 else (if ss[0].account == a then ss[0].amount else 0) + SavedClaim(a, ss[1..])
  }

  /** Holds of orders on their way in, resting or on their way out, unsettled legs, and price improvement. */
  function Claims(a: L.Account, v: Venue): int {
    TicketsClaim(a, v.accepted) + ListingsClaim(a, v.listings) + TicketsClaim(a, v.releasing)
    + TradesClaim(a, v.unsettled) + SavedClaim(a, v.saved)
  }

  // ----- claims are moved around, never lost ---------------------------------------------

  lemma {:induction false} TicketsConcat(a: L.Account, x: seq<Ticket>, y: seq<Ticket>)
    ensures TicketsClaim(a, x + y) == TicketsClaim(a, x) + TicketsClaim(a, y)
  {
    if x == [] {
      assert x + y == y;
    } else {
      assert (x + y)[1..] == x[1..] + y;
      TicketsConcat(a, x[1..], y);
    }
  }

  lemma {:induction false} TradesConcat(a: L.Account, x: seq<Trade>, y: seq<Trade>)
    ensures TradesClaim(a, x + y) == TradesClaim(a, x) + TradesClaim(a, y)
  {
    if x == [] {
      assert x + y == y;
    } else {
      assert (x + y)[1..] == x[1..] + y;
      TradesConcat(a, x[1..], y);
    }
  }

  lemma {:induction false} SavedConcat(a: L.Account, x: seq<Saving>, y: seq<Saving>)
    ensures SavedClaim(a, x + y) == SavedClaim(a, x) + SavedClaim(a, y)
  {
    if x == [] {
      assert x + y == y;
    } else {
      assert (x + y)[1..] == x[1..] + y;
      SavedConcat(a, x[1..], y);
    }
  }

  lemma {:induction false} PutClaim(a: L.Account, ls: seq<Listing>, symbol: string, b: Book)
    ensures ListingsClaim(a, Put(ls, symbol, b))
            == ListingsClaim(a, ls) - BookClaim(a, symbol, Get(ls, symbol)) + BookClaim(a, symbol, b)
  {
    if ls != [] && ls[0].symbol != symbol {
      PutClaim(a, ls[1..], symbol, b);
    }
  }

  lemma {:induction false} QueueTickets(a: L.Account, symbol: string, q: seq<Order>)
    ensures TicketsClaim(a, Tickets(symbol, q)) == QueueClaim(a, symbol, q)
  {
    if q != [] {
      QueueTickets(a, symbol, q[1..]);
    }
  }

  lemma {:induction false} QueueConcat(a: L.Account, symbol: string, x: seq<Order>, y: seq<Order>)
    ensures QueueClaim(a, symbol, x + y) == QueueClaim(a, symbol, x) + QueueClaim(a, symbol, y)
  {
    if x == [] {
      assert x + y == y;
    } else {
      assert (x + y)[1..] == x[1..] + y;
      QueueConcat(a, symbol, x[1..], y);
    }
  }

  lemma {:induction false} InsertClaim(a: L.Account, symbol: string, q: seq<Order>, o: Order)
    ensures QueueClaim(a, symbol, Insert(q, o)) == QueueClaim(a, symbol, q) + OrderClaim(a, symbol, o)
  {
    if q != [] && !Better(o.side, o.price, q[0].price) {
      InsertClaim(a, symbol, q[1..], o);
    }
  }

  lemma {:induction false} RemoveClaim(a: L.Account, symbol: string, q: seq<Order>, id: string)
    ensures QueueClaim(a, symbol, Remove(q, id)) + QueueClaim(a, symbol, WithId(q, id)) == QueueClaim(a, symbol, q)
  {
    if q != [] {
      RemoveClaim(a, symbol, q[1..], id);
      QueueConcat(a, symbol, if q[0].id == id then [q[0]] else [], WithId(q[1..], id));
    }
  }

  /** A fill of q splits what both orders hold into what they keep, what the trade takes, and the saving. */
  lemma FillClaim(a: L.Account, symbol: string, taker: Order, m: Order, q: int)
    requires taker.userId != L.SYSTEM && m.userId != L.SYSTEM && m.side == taker.side.Other()
    ensures OrderClaim(a, symbol, taker) + OrderClaim(a, symbol, m)
            == OrderClaim(a, symbol, taker.(quantity := taker.quantity - q))
               + OrderClaim(a, symbol, m.(quantity := m.quantity - q))
               + TradeClaim(a, Fill(symbol, taker, m, q))
               + SavedClaim(a, Savings(taker, [Fill(symbol, taker, m, q)]))
  {
    var t := Fill(symbol, taker, m, q);
    if taker.side.Buy? {
      assert Savings(taker, [t]) == [Saving(L.BuyerCash(taker.userId), (taker.price - m.price) * q)];
      assert taker.price * taker.quantity == taker.price * (taker.quantity - q) + m.price * q + (taker.price - m.price) * q;
    } else {
      assert m.price * m.quantity == m.price * (m.quantity - q) + m.price * q;
    }
  }

  lemma SavingsIgnoreQuantity(taker: Order, q: int, trades: seq<Trade>)
    ensures Savings(taker.(quantity := q), trades) == Savings(taker, trades)
  {}

  lemma SavingsCons(a: L.Account, taker: Order, t: Trade, trades: seq<Trade>)
    ensures SavedClaim(a, Savings(taker, [t] + trades)) == SavedClaim(a, Savings(taker, [t])) + SavedClaim(a, Savings(taker, trades))
  {
    if taker.side.Buy? {
      assert ([t] + trades)[1..] == trades;
      SavedConcat(a, Savings(taker, [t]), Savings(taker, trades));
    }
  }

  lemma {:induction false} WalkClaim(a: L.Account, symbol: string, taker: Order, makers: seq<Order>)
    requires taker.userId != L.SYSTEM
    requires forall i | 0 <= i < |makers| :: makers[i].userId != L.SYSTEM && makers[i].side == taker.side.Other()
    ensures var w := Walk(symbol, taker, makers);
      OrderClaim(a, symbol, taker) + QueueClaim(a, symbol, makers)
      == OrderClaim(a, symbol, taker.(quantity := w.left)) + QueueClaim(a, symbol, w.rest)
         + TradesClaim(a, w.trades) + SavedClaim(a, Savings(taker, w.trades))
    decreases |makers|
  {
    hide Walk, OrderClaim, TradeClaim, Crosses;
    if makers == [] || taker.quantity <= 0 || !Crosses(taker, makers[0].price) {
      WalkStops(symbol, taker, makers);
      assert taker.(quantity := taker.quantity) == taker && Savings(taker, []) == [];
    } else {
      var m := makers[0];
      var q := Min(taker.quantity, m.quantity);
      var t, taker' := Fill(symbol, taker, m, q), taker.(quantity := taker.quantity - q);
      var makers' := if m.quantity == q then makers[1..] else [m.(quantity := m.quantity - q)] + makers[1..];
      FillClaim(a, symbol, taker, m, q);
      WalkTurn(symbol, taker, makers);
      if q == m.quantity {
        WalkClaim(a, symbol, taker', makers[1..]);
        NothingClaimed(a, symbol, m.(quantity := m.quantity - q));
      } else {
        WalkStops(symbol, taker', makers');
      }
      var w' := Walk(symbol, taker', makers');
      TradesConcat(a, [t], w'.trades);
      SavingsIgnoreQuantity(taker, taker.quantity - q, w'.trades);
      SavingsCons(a, taker, t, w'.trades);
    }
  }

  lemma NothingClaimed(a: L.Account, symbol: string, o: Order)
    requires o.quantity == 0
    ensures OrderClaim(a, symbol, o) == 0
  {}
}
