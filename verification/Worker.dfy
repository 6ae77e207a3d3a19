/** The matching worker: one book per symbol, driven by messages. */
module Workers {
  import opened PriceTime
  import opened BookLaws
  import opened RunLaws
  import opened Levels
  import opened OrderBooks

  datatype Message = Message(symbol: string, body: Body)
  datatype Body = AddOrder(order: Order) | CancelOrder(id: string) | GetDepth

  datatype Posted =
    | TradeExecuted(trade: Trade)
    | DepthUpdate(symbol: string, bids: seq<Level>, asks: seq<Level>)

  type Books = map<string, OrderBook>

  /** Objects set apart for each symbol; no two symbols share any. */
  type Territories = map<string, set<object>>

  ghost function LandOf(land: Territories, s: string): set<object> {
    if s in land then land[s] else {}
  }

  ghost predicate Disjoint(land: Territories) {
    forall s, t | s in land && t in land && s != t :: land[s] !! land[t]
  }

  /** A book is filed under its symbol, is valid, and lives in its territory. */
  ghost predicate Housed(book: OrderBook, symbol: string, territory: set<object>)
    reads territory
  {
    && symbol != "" && book.symbol == symbol
    && {book, book.bids, book.asks} <= territory && book.Footprint() <= territory
    && book.Valid()
  }

  lemma NewlyHoused(book: OrderBook, symbol: string)
    requires symbol != "" && book.symbol == symbol && book.Valid()
    ensures Housed(book, symbol, book.Footprint())
  {}

  lemma HousedFacts(book: OrderBook, symbol: string, territory: set<object>)
    requires Housed(book, symbol, territory)
    ensures book.Valid() && book.symbol == symbol && symbol != ""
    ensures {book, book.bids, book.asks} <= territory && book.Footprint() <= territory
  {}

  lemma StillHoused(book: OrderBook, symbol: string, territory: set<object>)
    requires symbol != "" && book.symbol == symbol && book.Valid()
    requires {book, book.bids, book.asks} <= territory
    ensures Housed(book, symbol, territory + book.Footprint())
  {}

  /** Everything outside the territory of s. */
  ghost function Elsewhere(land: Territories, s: string): set<object> {
    set t, x | t in land && t != s && x in land[t] :: x
  }

  lemma ApartFromElsewhere(land: Territories, s: string)
    requires Disjoint(land) && s in land
    ensures land[s] !! Elsewhere(land, s)
  {}

  lemma GrownTerritory(land: Territories, s: string, t: set<object>)
    requires Disjoint(land) && s in land && t !! Elsewhere(land, s)
    ensures Disjoint(land[s := land[s] + t])
  {}

  ghost predicate Filed(books: Books, land: Territories)
    reads set s, x | s in land && x in land[s] :: x
  {
    && books.Keys == land.Keys && Disjoint(land)
    && forall s | s in books :: Housed(books[s], s, land[s])
  }

  ghost function BookAt(books: Books, symbol: string): Book
    reads if symbol in books then {books[symbol].bids, books[symbol].asks} else {}
  {
    if symbol in books then books[symbol].Contents() else EMPTY_BOOK
  }

  /** The abstract message; a depth request and a message without a symbol do nothing to a book. */
  function Applied(b: Book, symbol: string, body: Body): Book {
    match body
    case AddOrder(o) => Add(symbol, b, o)
    case CancelOrder(id) => Cancel(b, id)
    case GetDepth => b
  }

  function Emitted(b: Book, symbol: string, body: Body): seq<Trade> {
    if body.AddOrder? then Match(symbol, b, body.order).trades else []
  }

  function TradesIn(posted: seq<Posted>): seq<Trade> {
    if posted == [] then []
    else (if posted[0].TradeExecuted? then [posted[0].trade] else []) + TradesIn(posted[1..])
  }

  function PostTrades(trades: seq<Trade>): (r: seq<Posted>)
    ensures TradesIn(r) == trades
    ensures forall i | 0 <= i < |r| :: r[i].TradeExecuted?
  {
    if trades == [] then [] else [TradeExecuted(trades[0])] + PostTrades(trades[1..])
  }

  lemma {:induction false} TradesInConcat(a: seq<Posted>, b: seq<Posted>)
    ensures TradesIn(a + b) == TradesIn(a) + TradesIn(b)
  {
    if a == [] {
      assert a + b == b;
    } else {
      assert (a + b)[1..] == a[1..] + b;
      TradesInConcat(a[1..], b);
    }
  }

  /** The top of a book, as it is published. */
  datatype Depth = Depth(bids: seq<Level>, asks: seq<Level>)

  function DepthOf(b: Book): Depth {
    Depth(Best(Group(b.bids)), Best(Group(b.asks)))
  }

  /** The depth a reader of the messages sees for a symbol: the last one published, else what it saw before. */
  function Shown(before: Depth, posted: seq<Posted>, symbol: string): Depth {
    if posted == [] then before
    else
      var n := |posted| - 1;
      if posted[n].DepthUpdate? && posted[n].symbol == symbol then Depth(posted[n].bids, posted[n].asks)
      else Shown(before, posted[..n], symbol)
  }

  lemma {:induction false} ShownConcat(before: Depth, a: seq<Posted>, b: seq<Posted>, symbol: string)
    ensures Shown(before, a + b, symbol) == Shown(Shown(before, a, symbol), b, symbol)
  {
    if b == [] {
      assert a + b == a;
    } else {
      assert (a + b)[..|a + b| - 1] == a + b[..|b| - 1];
      ShownConcat(before, a, b[..|b| - 1], symbol);
    }
  }

  lemma {:induction false} NotShown(before: Depth, posted: seq<Posted>, symbol: string)
    requires forall i | 0 <= i < |posted| && posted[i].DepthUpdate? :: posted[i].symbol != symbol
    ensures Shown(before, posted, symbol) == before
  {
    if posted != [] {
      NotShown(before, posted[..|posted| - 1], symbol);
    }
  }

  ghost predicate OnlyAbout(posted: seq<Posted>, symbol: string) {
    forall i | 0 <= i < |posted| && posted[i].DepthUpdate? :: posted[i].symbol == symbol
  }

  /** What a book does with a message. */
  method Handle(book: OrderBook, body: Body) returns (posted: seq<Posted>)
    requires book.Valid() && (body.AddOrder? ==> body.order.id !in book.orderMap)
    modifies book.Footprint()
    ensures book.Valid() && fresh(book.Footprint() - old(book.Footprint()))
    ensures book.Contents() == Applied(old(book.Contents()), book.symbol, body)
    ensures TradesIn(posted) == Emitted(old(book.Contents()), book.symbol, body)
    ensures OnlyAbout(posted, book.symbol)
    ensures Shown(DepthOf(old(book.Contents())), posted, book.symbol) == DepthOf(book.Contents())
  {
    hide OrderBook.Valid, Add, Cancel, Match, Group, Best;
    match body
    case AddOrder(o) =>
      var trades, bids, asks := book.AddOrder(o);
      posted := PostTrades(trades) + [DepthUpdate(book.symbol, bids, asks)];
      TradesInConcat(PostTrades(trades), [DepthUpdate(book.symbol, bids, asks)]);
    case CancelOrder(id) =>
      var known, bids, asks := book.CancelOrder(id);
      posted := if known then [DepthUpdate(book.symbol, bids, asks)] else [];
    case GetDepth =>
      var bids, asks := book.BroadcastDepth();
      posted := [DepthUpdate(book.symbol, bids, asks)];
  }

  lemma NewTerritory(land: Territories, s: string, t: set<object>)
    requires Disjoint(land) && s !in land
    requires forall x | x in land :: land[x] !! t
    ensures Disjoint(land[s := t])
  {}

  class Worker {
    var orderBooks: map<string, OrderBook>
    ghost var land: Territories

    constructor ()
      ensures Valid() && orderBooks == map[] && land == map[]
    {
      orderBooks, land := map[], map[];
    }

    ghost predicate Valid()
      reads this, set s, x | s in land && x in land[s] :: x
    {
      Filed(orderBooks, land) && forall s | s in land :: this !in land[s]
    }

    /** Gets the symbol's book, opening one if there is none. */
    method Open(symbol: string) returns (book: OrderBook)
      requires Valid() && symbol != ""
      modifies this
      ensures Valid() && symbol in orderBooks && orderBooks[symbol] == book
      ensures symbol in old(orderBooks) ==> orderBooks == old(orderBooks) && land == old(land)
      ensures symbol !in old(orderBooks) ==>
                && fresh(land[symbol]) && book.Contents() == EMPTY_BOOK
                && orderBooks == old(orderBooks)[symbol := book] && land == old(land)[symbol := land[symbol]]
      ensures forall t :: BookAt(orderBooks, t) == old(BookAt(orderBooks, t))
    {
      hide Housed, OrderBook.Valid, OrderBook.Footprint, Disjoint;
      if symbol !in orderBooks {
        ghost var taken := set s, x | s in land && x in land[s] :: x;
        book := new OrderBook(symbol);
        ghost var t := book.Footprint();
        assert t !! taken;
        forall s | s in land ensures land[s] !! t {
          assert land[s] <= taken;
        }
        NewTerritory(land, symbol, t);
        NewlyHoused(book, symbol);
        orderBooks, land := orderBooks[symbol := book], land[symbol := t];
      } else {
        book := orderBooks[symbol];
      }
    }

    /** Runs a message through an open book and lets its territory grow. */
    method Route(book: OrderBook, body: Body) returns (posted: seq<Posted>)
      requires Valid() && book.symbol in orderBooks && orderBooks[book.symbol] == book
      requires book.Valid() && (body.AddOrder? ==> body.order.id !in book.orderMap)
      modifies `land, book.Footprint()
      ensures Valid()
      ensures book.Contents() == Applied(old(book.Contents()), book.symbol, body)
      ensures TradesIn(posted) == Emitted(old(book.Contents()), book.symbol, body)
      ensures OnlyAbout(posted, book.symbol)
      ensures Shown(DepthOf(old(book.Contents())), posted, book.symbol) == DepthOf(book.Contents())
      ensures forall t | t in land :: t in old(land) && fresh(land[t] - old(land)[t])
    {
      hide Housed, OrderBook.Valid, OrderBook.Footprint, Disjoint, Shown, DepthOf, OnlyAbout;
      var s := book.symbol;
      HousedFacts(book, s, land[s]);
      ghost var taken := Elsewhere(land, s);
      ApartFromElsewhere(land, s);
      posted := Handle(book, body);
      StillHoused(book, s, land[s]);
      assert book.Footprint() !! taken;
      GrownTerritory(land, s, book.Footprint());
      land := land[s := land[s] + book.Footprint()];
    }

    lemma BookFacts(t: string)
      requires Valid() && t in orderBooks
      ensures t in land && {orderBooks[t], orderBooks[t].bids, orderBooks[t].asks} <= land[t] && this !in land[t]
      ensures orderBooks[t].Footprint() <= land[t] && orderBooks[t].Valid() && orderBooks[t].symbol == t && t != ""
      ensures forall s | s in land && s != t :: land[s] !! land[t]
    {
      HousedFacts(orderBooks[t], t, land[t]);
    }

    lemma Neighbours(s: string)
      requires Valid() && s in orderBooks
      ensures s in land && forall t | t in orderBooks && t != s :: {orderBooks[t].bids, orderBooks[t].asks} !! land[s]
    {
      hide Housed, Disjoint;
      BookFacts(s);
      forall t | t in orderBooks && t != s ensures {orderBooks[t].bids, orderBooks[t].asks} !! land[s] {
        BookFacts(t);
      }
    }

    /** The port's message handler; an order id must not already rest in its book. */
    method OnMessage(msg: Message) returns (posted: seq<Posted>)
      requires Valid()
      requires msg.body.AddOrder? && msg.symbol != "" ==>
        var b := BookAt(orderBooks, msg.symbol);
        LacksId(b.bids, msg.body.order.id) && LacksId(b.asks, msg.body.order.id)
      modifies this, if msg.symbol in land then land[msg.symbol] else {}
      ensures Valid()
      ensures msg.symbol != "" ==> BookAt(orderBooks, msg.symbol)
                                   == Applied(old(BookAt(orderBooks, msg.symbol)), msg.symbol, msg.body)
      ensures forall t | t != msg.symbol || t == "" :: BookAt(orderBooks, t) == old(BookAt(orderBooks, t))
      ensures TradesIn(posted) == if msg.symbol == "" then []
                                  else Emitted(old(BookAt(orderBooks, msg.symbol)), msg.symbol, msg.body)
      ensures OnlyAbout(posted, msg.symbol)
      ensures msg.symbol != "" ==> Shown(DepthOf(old(BookAt(orderBooks, msg.symbol))), posted, msg.symbol)
                                   == DepthOf(BookAt(orderBooks, msg.symbol))
      ensures forall t | t in land :: fresh(land[t] - LandOf(old(land), t))
    {
      hide Filed, OrderBook.Valid, OrderBook.Footprint, Add, Cancel, Match, LacksId, Shown, DepthOf;
      posted := [];
      if msg.symbol != "" {
        var book := Open(msg.symbol);
        BookFacts(msg.symbol);
        if msg.body.AddOrder? {
          book.IndexIsTheBook(msg.body.order.id);
        }
        Neighbours(msg.symbol);
        posted := Route(book, msg.body);
        assert forall t | t != msg.symbol :: BookAt(orderBooks, t) == old(BookAt(orderBooks, t));
      }
    }
  }

  /** The messages of one symbol's book. */
  function For(msgs: seq<Message>, symbol: string): seq<Msg> {
    if msgs == [] then []
    else
      var m := msgs[|msgs| - 1];
      For(msgs[..|msgs| - 1], symbol) +
      if m.symbol != symbol then []
      else match m.body
        case AddOrder(o) => [AddMsg(o)]
        case CancelOrder(id) => [CancelMsg(id)]
        case GetDepth => []
  }

  function Filter(trades: seq<Trade>, symbol: string): seq<Trade> {
    if trades == [] then []
    else (if trades[0].symbol == symbol then [trades[0]] else []) + Filter(trades[1..], symbol)
  }

  lemma {:induction false} FilterConcat(a: seq<Trade>, b: seq<Trade>, symbol: string)
    ensures Filter(a + b, symbol) == Filter(a, symbol) + Filter(b, symbol)
  {
    if a == [] {
      assert a + b == b;
    } else {
      assert (a + b)[1..] == a[1..] + b;
      FilterConcat(a[1..], b, symbol);
    }
  }

  lemma {:induction false} FilterOwn(trades: seq<Trade>, symbol: string, s: string)
    requires forall i | 0 <= i < |trades| :: trades[i].symbol == symbol
    ensures Filter(trades, s) == if s == symbol then trades else []
  {
    if trades != [] {
      FilterOwn(trades[1..], symbol, s);
    }
  }

  lemma {:induction false} WalkSymbol(symbol: string, taker: Order, makers: seq<Order>)
    ensures forall i | 0 <= i < |Walk(symbol, taker, makers).trades| :: Walk(symbol, taker, makers).trades[i].symbol == symbol
    decreases |makers|
  {
    if makers != [] && taker.quantity > 0 && Crosses(taker, makers[0].price) {
      var q := Min(taker.quantity, makers[0].quantity);
      if q == makers[0].quantity {
        WalkSymbol(symbol, taker.(quantity := taker.quantity - q), makers[1..]);
      }
    }
  }

  /** The trades of all books, in the order in which they are published. */
  function Published(msgs: seq<Message>): seq<Trade> {
    if msgs == [] then []
    else
      var before, m := msgs[..|msgs| - 1], msgs[|msgs| - 1];
      Published(before) +
      if m.symbol == "" then [] else Emitted(Run(m.symbol, INITIAL, For(before, m.symbol)).book, m.symbol, m.body)
  }

  /** A book and the trades published so far are what the messages of the symbol say. */
  ghost predicate InStep(symbol: string, b: Book, trades: seq<Trade>, msgs: seq<Message>) {
    var s := Run(symbol, INITIAL, For(msgs, symbol));
    b == s.book && Filter(trades, symbol) == s.trades
  }

  lemma ForStep(msgs: seq<Message>, m: Message, symbol: string)
    ensures For(msgs + [m], symbol) == For(msgs, symbol) + For([m], symbol)
  {
    assert (msgs + [m])[..|msgs|] == msgs && [m][..0] == [];
  }

  lemma RunStep(symbol: string, ms: seq<Msg>, m: Msg)
    ensures Run(symbol, INITIAL, ms + [m]) == Step(symbol, Run(symbol, INITIAL, ms), m)
  {
    assert (ms + [m])[..|ms|] == ms;
  }

  lemma StayInStep(symbol: string, b: Book, trades: seq<Trade>, msgs: seq<Message>, m: Message, from: Book)
    requires symbol != "" && InStep(symbol, b, trades, msgs) && (m.symbol == symbol ==> from == b)
    ensures var more := if m.symbol == "" then [] else Emitted(from, m.symbol, m.body);
      InStep(symbol, if m.symbol == symbol then Applied(b, symbol, m.body) else b, trades + more, msgs + [m])
  {
    ForStep(msgs, m, symbol);
    assert For(msgs, symbol) + [] == For(msgs, symbol) && trades + [] == trades;
    if m.body.AddOrder? {
      WalkSymbol(m.symbol, m.body.order, from.On(m.body.order.side.Other()));
    }
    var more := Emitted(from, m.symbol, m.body);
    FilterConcat(trades, more, symbol);
    FilterOwn(more, m.symbol, symbol);
    if m.symbol == symbol && !m.body.GetDepth? {
      RunStep(symbol, For(msgs, symbol), For([m], symbol)[0]);
    }
  }

  /** A fresh id cannot rest in the book yet. */
  lemma FreshIsAbsent(symbol: string, ms: seq<Msg>, o: Order)
    requires FreshIds(ms + [AddMsg(o)])
    ensures var b := Run(symbol, INITIAL, ms).book; LacksId(b.bids, o.id) && LacksId(b.asks, o.id)
  {
    assert FreshIds(ms) by {
      assert forall i | 0 <= i < |ms| :: (ms + [AddMsg(o)])[i] == ms[i];
    }
    ReachableBooks(symbol, ms);
    var b := Run(symbol, INITIAL, ms).book;
    SideKnownIsStable(ms, AddMsg(o), b.bids);
    SideKnownIsStable(ms, AddMsg(o), b.asks);
  }

  lemma {:induction false} FreshForPrefix(msgs: seq<Message>, i: nat, symbol: string)
    requires i <= |msgs| && FreshIds(For(msgs, symbol))
    ensures FreshIds(For(msgs[..i], symbol))
  {
    if i < |msgs| {
      var before := msgs[..|msgs| - 1];
      var ms := For(before, symbol);
      assert ms <= For(msgs, symbol);
      assert forall k | 0 <= k < |ms| :: ms[k] == For(msgs, symbol)[k];
      FreshForPrefix(before, i, symbol);
      assert before[..i] == msgs[..i];
    } else {
      assert msgs[..i] == msgs;
    }
  }

  lemma NextIsAbsent(b: Book, trades: seq<Trade>, msgs: seq<Message>, i: nat)
    requires i < |msgs| && msgs[i].symbol != "" && msgs[i].body.AddOrder?
    requires InStep(msgs[i].symbol, b, trades, msgs[..i]) && FreshIds(For(msgs, msgs[i].symbol))
    ensures LacksId(b.bids, msgs[i].body.order.id) && LacksId(b.asks, msgs[i].body.order.id)
  {
    var m := msgs[i];
    assert msgs[..i + 1] == msgs[..i] + [m];
    FreshForPrefix(msgs, i + 1, m.symbol);
    ForStep(msgs[..i], m, m.symbol);
    FreshIsAbsent(m.symbol, For(msgs[..i], m.symbol), m.body.order);
  }

  /** The worker, fed any messages with fresh order ids, holds and publishes what the runs say. */
  method Replay(msgs: seq<Message>) returns (w: Worker, posted: seq<Posted>)
    requires forall s | s != "" :: FreshIds(For(msgs, s))
    ensures w.Valid()
    ensures forall s | s != "" :: InStep(s, BookAt(w.orderBooks, s), TradesIn(posted), msgs)
    ensures TradesIn(posted) == Published(msgs)
    ensures forall s | s != "" :: Shown(NO_DEPTH, posted, s) == DepthOf(BookAt(w.orderBooks, s))
  {
    hide Worker.Valid, InStep, FreshIds, Applied, Emitted, LacksId, For, Published, Shown, DepthOf, OnlyAbout;
    w := new Worker();
    posted := [];
    NothingYet();
    for i := 0 to |msgs|
      invariant w.Valid() && fresh(w) && forall s | s in w.land :: fresh(w.land[s])
      invariant forall s | s != "" :: InStep(s, BookAt(w.orderBooks, s), TradesIn(posted), msgs[..i])
      invariant TradesIn(posted) == Published(msgs[..i])
      invariant forall s | s != "" :: Shown(NO_DEPTH, posted, s) == DepthOf(BookAt(w.orderBooks, s))
    {
      var m := msgs[i];
      if m.symbol != "" && m.body.AddOrder? {
        NextIsAbsent(BookAt(w.orderBooks, m.symbol), TradesIn(posted), msgs, i);
      }
      ghost var so, from := TradesIn(posted), BookAt(w.orderBooks, m.symbol);
      label L:
      var more := w.OnMessage(m);
      assert msgs[..i + 1] == msgs[..i] + [m];
      forall s | s != "" ensures InStep(s, BookAt(w.orderBooks, s), so + TradesIn(more), msgs[..i + 1]) {
        StayInStep(s, old@L(BookAt(w.orderBooks, s)), so, msgs[..i], m, from);
      }
      if m.symbol != "" {
        InStepBook(m.symbol, from, so, msgs[..i]);
      }
      PublishedStep(msgs[..i], m);
      TradesInConcat(posted, more);
      forall s | s != "" ensures Shown(NO_DEPTH, posted + more, s) == DepthOf(BookAt(w.orderBooks, s)) {
        ShownConcat(NO_DEPTH, posted, more, s);
        OthersNotShown(Shown(NO_DEPTH, posted, s), more, m.symbol, s);
      }
      posted := posted + more;
    }
    assert msgs[..|msgs|] == msgs;
  }

  const NO_DEPTH := Depth([], [])

  lemma OthersNotShown(before: Depth, posted: seq<Posted>, symbol: string, s: string)
    requires OnlyAbout(posted, symbol)
    ensures s != symbol ==> Shown(before, posted, s) == before
  {
    if s != symbol {
      NotShown(before, posted, s);
    }
  }

  lemma InStepBook(symbol: string, b: Book, trades: seq<Trade>, msgs: seq<Message>)
    requires InStep(symbol, b, trades, msgs)
    ensures b == Run(symbol, INITIAL, For(msgs, symbol)).book
  {}

  lemma PublishedStep(msgs: seq<Message>, m: Message)
    ensures Published(msgs + [m]) == Published(msgs) +
      if m.symbol == "" then [] else Emitted(Run(m.symbol, INITIAL, For(msgs, m.symbol)).book, m.symbol, m.body)
  {
    assert (msgs + [m])[..|msgs|] == msgs;
  }

  lemma NothingYet()
    ensures Published([]) == []
    ensures forall s :: InStep(s, EMPTY_BOOK, [], [])
    ensures TradesIn([]) == []
    ensures forall s :: Shown(NO_DEPTH, [], s) == DepthOf(EMPTY_BOOK)
  {}
}
