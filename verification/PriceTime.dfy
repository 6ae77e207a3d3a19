/** The order book as a value: each side is one sequence in matching order. */
module PriceTime {

  datatype Side = Buy | Sell {
    function Other(): Side {
      if Buy? then Sell else Buy
    }
  }

  /** An order; price <= 0 means a market order. */
  datatype Order = Order(id: string, userId: string, side: Side, price: int, quantity: int)

  datatype Trade = Trade(
    symbol: string, price: int, quantity: int, buyerId: string, sellerId: string,
    makerOrderId: string, takerOrderId: string)

  datatype Outcome = Outcome(trades: seq<Trade>, left: int, rest: seq<Order>)

  /** p is strictly better than q for orders resting on the given side. */
  predicate Better(side: Side, p: int, q: int) {
    if side.Buy? then p > q else p < q
  }

  /** The taker accepts a maker's price. */
  predicate Crosses(taker: Order, p: int) {
    taker.price > 0 ==> if taker.side.Buy? then taker.price >= p else taker.price <= p
  }

  function Min(a: int, b: int): int {
    if a < b then a else b
  }

  function Fill(symbol: string, taker: Order, maker: Order, q: int): Trade {
    Trade(symbol, maker.price, q,
          if taker.side.Buy? then taker.userId else maker.userId,
          if taker.side.Buy? then maker.userId else taker.userId,
          maker.id, taker.id)
  }

  /** Trades t emitted before the outcome w. */
  function Before(t: seq<Trade>, w: Outcome): Outcome {
    Outcome(t + w.trades, w.left, w.rest)
  }

  /** Greedy walk of a taker over makers in matching order, stopping at its limit. */
  function Walk(symbol: string, taker: Order, makers: seq<Order>): Outcome
    decreases |makers|
  {
    if makers == [] || taker.quantity <= 0 || !Crosses(taker, makers[0].price) then
      Outcome([], taker.quantity, makers)
    else
      var m := makers[0];
      var q := Min(taker.quantity, m.quantity);
      var t := [Fill(symbol, taker, m, q)];
      if q == m.quantity then
        Before(t, Walk(symbol, taker.(quantity := taker.quantity - q), makers[1..]))
      else
        Outcome(t, taker.quantity - q, [m.(quantity := m.quantity - q)] + makers[1..])
  }

  /** Behind every order of an equal or better price. */
  function Insert(makers: seq<Order>, o: Order): seq<Order> {
    if makers == [] || Better(o.side, o.price, makers[0].price) then [o] + makers
    else [makers[0]] + Insert(makers[1..], o)
  }

  function Remove(makers: seq<Order>, id: string): seq<Order> {
    if makers == [] then []
    else if makers[0].id == id then Remove(makers[1..], id)
    else [makers[0]] + Remove(makers[1..], id)
  }

  datatype Book = Book(bids: seq<Order>, asks: seq<Order>) {
    function On(side: Side): seq<Order> {
      if side.Buy? then bids else asks
    }

    function With(side: Side, s: seq<Order>): Book {
      if side.Buy? then Book(s, asks) else Book(bids, s)
    }
  }

  const EMPTY_BOOK := Book([], [])

  predicate Rests(o: Order, w: Outcome) {
    w.left > 0 && o.price > 0
  }

  function Match(symbol: string, b: Book, o: Order): Outcome {
    Walk(symbol, o, b.On(o.side.Other()))
  }

  function Add(symbol: string, b: Book, o: Order): Book {
    var w := Match(symbol, b, o);
    var b' := b.With(o.side.Other(), w.rest);
    if Rests(o, w) then b'.With(o.side, Insert(b'.On(o.side), o.(quantity := w.left))) else b'
  }

  function Cancel(b: Book, id: string): Book {
    Book(Remove(b.bids, id), Remove(b.asks, id))
  }

  datatype Msg = AddMsg(order: Order) | CancelMsg(id: string)

  /** The book together with everything that left it, in order. */
  datatype State = State(book: Book, trades: seq<Trade>, cancelled: seq<Order>, discarded: seq<Order>)

  const INITIAL := State(EMPTY_BOOK, [], [], [])

  function WithId(s: seq<Order>, id: string): seq<Order> {
    if s == [] then []
    else (if s[0].id == id then [s[0]] else []) + WithId(s[1..], id)
  }

  function Step(symbol: string, s: State, m: Msg): State {
    match m
    case AddMsg(o) =>
      var w := Match(symbol, s.book, o);
      State(Add(symbol, s.book, o), s.trades + w.trades, s.cancelled,
            s.discarded + if Rests(o, w) then [] else [o.(quantity := w.left)])
    case CancelMsg(id) =>
      State(Cancel(s.book, id), s.trades,
            s.cancelled + WithId(s.book.bids, id) + WithId(s.book.asks, id), s.discarded)
  }

  function Run(symbol: string, s: State, ms: seq<Msg>): State {
    if ms == [] then s
    else Step(symbol, Run(symbol, s, ms[..|ms| - 1]), ms[|ms| - 1])
  }

  ghost predicate FreshIds(ms: seq<Msg>) {
    forall i, j | 0 <= i < j < |ms| && ms[i].AddMsg? && ms[j].AddMsg? :: ms[i].order.id != ms[j].order.id
  }
}
