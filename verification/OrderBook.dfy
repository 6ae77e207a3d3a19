/** One symbol's book on the heap, and the matcher that updates it in place. */
module OrderBooks {
  import opened PriceTime
  import opened BookLaws
  import opened Levels
  import opened OrderQueues
  import opened BookSides

  datatype Entry = Entry(node: OrderNode, price: int)

  /** orderMap indexes exactly the resting nodes. */
  ghost predicate Indexed(orderMap: map<string, Entry>, members: set<OrderNode>) {
    && (forall n | n in members :: n.id in orderMap && orderMap[n.id] == Entry(n, n.price))
    && (forall id | id in orderMap :: orderMap[id].node in members && orderMap[id].node.id == id)
  }

  lemma IndexShrinks(m: map<string, Entry>, m': map<string, Entry>, s: set<OrderNode>, s': set<OrderNode>)
    requires Indexed(m, s) && Indexed(m', s') && s' <= s
    ensures m'.Keys <= m.Keys
  {}

  lemma IndexAdds(m: map<string, Entry>, s: set<OrderNode>, n: OrderNode)
    requires Indexed(m, s) && n.id !in m
    ensures Indexed(m[n.id := Entry(n, n.price)], s + {n})
  {}

  lemma IndexForgets(m: map<string, Entry>, s: set<OrderNode>, n: OrderNode)
    requires Indexed(m, s) && n in s
    ensures Indexed(Delete(m, n.id), s - {n})
    ensures forall x | x in s && x != n :: x.id != n.id
  {}

  lemma IndexFinds(m: map<string, Entry>, s: set<OrderNode>, id: string)
    requires Indexed(m, s) && id in m
    ensures m[id].node in s && m[id].node.id == id && m[id].price == m[id].node.price
  {}

  lemma IndexLacks(m: map<string, Entry>, s: set<OrderNode>, id: string)
    requires Indexed(m, s) && id !in m
    ensures forall n | n in s :: n.id != id
  {}

  ghost predicate Fillable(orders: seq<Order>, side: Side, p: int) {
    forall i | 0 <= i < |orders| :: orders[i].side == side && orders[i].price == p && orders[i].quantity > 0
  }

  function Delete(orderMap: map<string, Entry>, id: string): map<string, Entry> {
    orderMap - {id}
  }

  /** Of the members, all are left but those of the level that are no longer queued. */
  ghost predicate Left(left: set<OrderNode>, members: set<OrderNode>, level: set<OrderNode>, queued: seq<OrderNode>) {
    && left <= members
    && (forall i | 0 <= i < |queued| :: queued[i] in level)
    && (forall n | n in members :: n in left <==> (n in level ==> n in queued))
  }

  lemma LeftTurn(orderMap: map<string, Entry>, left: set<OrderNode>, members: set<OrderNode>,
                 level: set<OrderNode>, n: OrderNode, queued: seq<OrderNode>)
    requires Left(left, members, level, [n] + queued) && Indexed(orderMap, left) && level <= members && n !in queued
    ensures Left(left - {n}, members, level, queued)
    ensures Indexed(Delete(orderMap, n.id), left - {n})
  {
    assert ([n] + queued)[0] == n && forall i | 0 <= i < |queued| :: ([n] + queued)[i + 1] == queued[i];
  }

  /** Matching against the best level, as far as the whole side is concerned. */
  lemma WalkBestLevel(symbol: string, taker: Order, prices: seq<int>, book: LevelMap, w: Outcome)
    requires prices != [] && prices[0] in book && (forall i | 0 < i < |prices| :: prices[i] != prices[0])
    requires w == Walk(symbol, taker, book[prices[0]]) && (w.left > 0 ==> w.rest == [])
    ensures Walk(symbol, taker, Flatten(prices, book))
            == Before(w.trades, Walk(symbol, taker.(quantity := w.left), Flatten(prices, book[prices[0] := w.rest])))
  {
    var p, tail := prices[0], prices[1..];
    WalkConcat(symbol, taker, book[p], Flatten(tail, book));
    FlattenFrame(tail, book, book[p := w.rest]);
    assert [] + Flatten(tail, book) == Flatten(tail, book);
  }

  lemma LevelTidy(side: Side, prices: seq<int>, book: LevelMap, p: int, orders: seq<Order>)
    requires Sound(side, prices, book) && p in book && Fillable(orders, side, p)
    ensures Tidy(side, prices, book[p := orders]) && forall x | x in book && x != p :: book[x] != []
  {}

  lemma SoundLevels(side: Side, prices: seq<int>, book: LevelMap, i: nat)
    requires Sound(side, prices, book) && i < |prices|
    ensures prices[i] in book && prices[i] > 0 && Fillable(book[prices[i]], side, prices[i])
    ensures forall j | i < j < |prices| :: prices[j] != prices[i]
  {
    assert forall j | i < j < |prices| :: Better(side, prices[i], prices[j]);
  }

  ghost function LevelOf(members: set<OrderNode>, p: int): set<OrderNode> {
    set n | n in members && n.price == p
  }

  lemma LevelIsLeft(levels: Queues, book: LevelMap, members: set<OrderNode>, all: set<OrderNode>, p: int)
    requires Backing(levels, book, members) && p in levels && members <= all
    ensures Left(all, all, LevelOf(members, p), levels[p].nodes)
  {}

  lemma StillSound(side: Side, prices: seq<int>, book: LevelMap, p: int)
    requires Tidy(side, prices, book) && p in book && book[p] != []
    requires forall x | x in book && x != p :: book[x] != []
    ensures Sound(side, prices, book)
  {}

  /** Nothing left to match: the taker is done, the side is empty, or its best price is out of reach. */
  lemma WalkIsOver(symbol: string, w: Outcome, trades: seq<Trade>, taker: Order, side: Side, prices: seq<int>, book: LevelMap)
    requires Sound(side, prices, book) && w == Before(trades, Walk(symbol, taker, Flatten(prices, book)))
    requires taker.quantity > 0 && prices != [] ==> !Crosses(taker, prices[0])
    ensures w == Outcome(trades, taker.quantity, Flatten(prices, book))
  {
    if prices != [] {
      assert Flatten(prices, book)[0] == book[prices[0]][0];
    }
  }

  lemma WalkJoins(w: Outcome, a: seq<Trade>, b: seq<Trade>, w': Outcome)
    requires w == Before(a, Before(b, w'))
    ensures w == Before(a + b, w')
  {
    assert a + (b + w'.trades) == (a + b) + w'.trades;
  }

  /** What adding an order amounts to once its walk is known. */
  lemma AddAfterWalk(symbol: string, b: Book, o: Order, w: Outcome)
    requires w == Walk(symbol, o, b.On(o.side.Other()))
    ensures Match(symbol, b, o) == w
    ensures Add(symbol, b, o) ==
      var b' := b.With(o.side.Other(), w.rest);
      if w.left > 0 && o.price > 0 then b'.With(o.side, Insert(b.On(o.side), o.(quantity := w.left))) else b'
  {}

  lemma WalkStarts(w: Outcome)
    ensures w == Before([], w)
  {}

  lemma WalkEnds(symbol: string, w: Outcome, trades: seq<Trade>, taker: Order, makers: seq<Order>)
    requires w == Before(trades, Walk(symbol, taker, makers))
    requires taker.quantity <= 0 || makers == []
    ensures w == Outcome(trades, taker.quantity, makers)
  {}

  lemma WalkContinues(symbol: string, w: Outcome, trades: seq<Trade>, taker: Order, makers: seq<Order>, side: Side, p: int)
    requires w == Before(trades, Walk(symbol, taker, makers)) && Fillable(makers, side, p)
    requires makers != [] && taker.quantity > 0 && Crosses(taker, p)
    ensures var q := Min(taker.quantity, makers[0].quantity);
      && makers[0].price == p && q > 0 && Fillable(Taken(makers, q), side, p) && taker.quantity - q >= 0
      && Crosses(taker.(quantity := taker.quantity - q), p)
      && w == Before(trades + [Fill(symbol, taker, makers[0], q)],
                     Walk(symbol, taker.(quantity := taker.quantity - q), Taken(makers, q)))
  {
    WalkTurn(symbol, taker, makers);
    var q := Min(taker.quantity, makers[0].quantity);
    var w' := Walk(symbol, taker.(quantity := taker.quantity - q), Taken(makers, q));
    assert trades + ([Fill(symbol, taker, makers[0], q)] + w'.trades) == trades + [Fill(symbol, taker, makers[0], q)] + w'.trades;
  }

  class OrderBook {
    const symbol: string
    const bids: BookSide
    const asks: BookSide
    var orderMap: map<string, Entry>

    constructor (symbol: string)
      ensures Valid() && fresh(Footprint()) && {this, bids, asks} <= Footprint()
      ensures this.symbol == symbol && Contents() == EMPTY_BOOK
    {
      hide BookSide.Valid, BookSide.Orders;
      this.symbol, orderMap := symbol, map[];
      bids := new BookSide(Buy);
      asks := new BookSide(Sell);
    }

    ghost function Footprint(): set<object>
      reads this, bids, asks
    {
      {this} + bids.Footprint() + asks.Footprint()
    }

    ghost predicate Valid()
      reads Footprint()
    {
      && bids.side == Buy && bids.Valid() && asks.side == Sell && asks.Valid()
      && bids.Footprint() !! asks.Footprint()
      && Indexed(orderMap, bids.members + asks.members)
    }

    ghost function Contents(): Book
      reads bids, asks
    {
      Book(bids.Orders(), asks.Orders())
    }

    ghost function On(side: Side): BookSide {
      if side.Buy? then bids else asks
    }

    /** One fill against the oldest maker, which leaves the queue once it is used up. */
    method MatchMaker(taker: OrderNode, queue: OrderQueue, isBuy: bool) returns (trade: Trade, done: bool)
      requires queue.Valid() && queue.nodes != [] && taker !in queue.nodes
      requires isBuy == taker.side.Buy? && taker.quantity > 0 && Crosses(taker.Value(), queue.orders[0].price)
      modifies taker`quantity, queue, queue.nodes
      ensures queue.Valid()
      ensures done ==> old(queue.nodes) == [old(queue.nodes)[0]] + queue.nodes && old(queue.nodes)[0] !in queue.nodes
      ensures !done ==> queue.nodes == old(queue.nodes)
      ensures queue.orders == Taken(old(queue.orders), trade.quantity)
      ensures trade.quantity == Min(old(taker.quantity), old(queue.orders)[0].quantity)
      ensures trade == Fill(symbol, old(taker.Value()), old(queue.orders)[0], trade.quantity)
      ensures taker.Value() == old(taker.Value()).(quantity := old(taker.quantity) - trade.quantity)
    {
      var maker: OrderNode := queue.head;
      var matchQty := Min(taker.quantity, maker.quantity);
      taker.quantity := taker.quantity - matchQty;
      done := queue.Take(matchQty);
      trade := Trade(symbol, maker.price, matchQty,
                     if isBuy then taker.userId else maker.userId,
                     if isBuy then maker.userId else taker.userId,
                     maker.id, taker.id);
    }

    /** One turn of the inner loop: a fill, and the index forgets a maker that is used up. */
    method MatchTurn(taker: OrderNode, queue: OrderQueue, isBuy: bool,
                     ghost left: set<OrderNode>, ghost members: set<OrderNode>, ghost level: set<OrderNode>)
      returns (trade: Trade, ghost left': set<OrderNode>)
      requires queue.Valid() && queue.nodes != [] && taker !in members && level <= members
      requires isBuy == taker.side.Buy? && taker.quantity > 0 && Crosses(taker.Value(), queue.orders[0].price)
      requires Indexed(orderMap, left) && Left(left, members, level, queue.nodes)
      modifies `orderMap, taker`quantity, queue, level
      ensures queue.Valid() && queue.orders == Taken(old(queue.orders), trade.quantity)
      ensures trade.quantity == Min(old(taker.quantity), old(queue.orders)[0].quantity)
      ensures trade == Fill(symbol, old(taker.Value()), old(queue.orders)[0], trade.quantity)
      ensures taker.Value() == old(taker.Value()).(quantity := old(taker.quantity) - trade.quantity)
      ensures Indexed(orderMap, left') && Left(left', members, level, queue.nodes)
    {
      hide OrderQueue.Valid, Delete, Fill, Indexed;
      queue.Views();
      var maker: OrderNode := queue.head;
      var done;
      trade, done := MatchMaker(taker, queue, isBuy);
      left' := left;
      if done {
        LeftTurn(orderMap, left, members, level, maker, queue.nodes);
        orderMap := Delete(orderMap, maker.id);
        left' := left - {maker};
      }
    }

    /** The inner loop: fill makers of one price until the taker or the queue is used up. */
    method MatchLevel(taker: OrderNode, queue: OrderQueue, bestPrice: int, isBuy: bool,
                      ghost side: Side, ghost members: set<OrderNode>, ghost level: set<OrderNode>)
      returns (trades: seq<Trade>, ghost left: set<OrderNode>)
      requires queue.Valid() && Fillable(queue.orders, side, bestPrice)
      requires isBuy == taker.side.Buy? && taker.quantity > 0 && Crosses(taker.Value(), bestPrice)
      requires Indexed(orderMap, members) && Left(members, members, level, queue.nodes)
      requires level <= members && taker !in members
      modifies `orderMap, taker`quantity, queue, level
      ensures queue.Valid() && Fillable(queue.orders, side, bestPrice)
      ensures Indexed(orderMap, left) && Left(left, members, level, queue.nodes)
      ensures Walk(symbol, old(taker.Value()), old(queue.orders)) == Outcome(trades, taker.quantity, queue.orders)
      ensures taker.quantity >= 0 && (taker.quantity > 0 ==> queue.nodes == [])
    {
      hide OrderQueue.Valid, Fillable, Walk, Fill, Before, Crosses, Indexed;
      trades, left := [], members;
      ghost var w := Walk(symbol, taker.Value(), queue.orders);
      WalkStarts(w);
      while queue.head != null && taker.quantity > 0
        invariant queue.Valid() && Fillable(queue.orders, side, bestPrice)
        invariant taker.quantity >= 0 && Crosses(taker.Value(), bestPrice)
        invariant Indexed(orderMap, left) && Left(left, members, level, queue.nodes)
        invariant w == Before(trades, Walk(symbol, taker.Value(), queue.orders))
        decreases taker.quantity
      {
        queue.Views();
        WalkContinues(symbol, w, trades, taker.Value(), queue.orders, side, bestPrice);
        var trade;
        trade, left := MatchTurn(taker, queue, isBuy, left, members, level);
        trades := trades + [trade];
      }
      queue.Views();
      WalkEnds(symbol, w, trades, taker.Value(), queue.orders);
    }

    /** Everything at the best price of a side that the taker accepts. */
    method MatchBest(taker: OrderNode, makers: BookSide, isBuy: bool, ghost all: set<OrderNode>)
      returns (trades: seq<Trade>, ghost left: set<OrderNode>)
      requires makers.Valid() && makers.prices != [] && makers.members <= all && taker !in all
      requires isBuy == taker.side.Buy? && taker.quantity > 0 && Crosses(taker.Value(), makers.prices[0])
      requires Indexed(orderMap, all)
      modifies `orderMap, taker`quantity, makers.Footprint()
      ensures makers.levels == old(makers.levels) && makers.prices == old(makers.prices) && makers.prices[0] in makers.book
      ensures Backing(makers.levels, makers.book, makers.members) && Tidy(makers.side, makers.prices, makers.book)
      ensures makers.members == old(makers.members) * left && Indexed(orderMap, left) && left <= all && all - left <= old(makers.members)
      ensures forall x | x in makers.book && x != makers.prices[0] :: makers.book[x] != []
      ensures Walk(symbol, old(taker.Value()), old(makers.Orders()))
              == Before(trades, Walk(symbol, taker.Value(), makers.Orders()))
      ensures taker.quantity >= 0 && (taker.quantity > 0 ==> makers.book[makers.prices[0]] == [])
    {
      hide OrderQueue.Valid, Sound, Tidy, Indexed, Crosses, Walk, Fillable, Flatten, Before;
      var bestPrice := makers.prices[0];
      SoundLevels(makers.side, makers.prices, makers.book, 0);
      var queue := makers.levels[bestPrice];
      QueuesAreApart(makers.levels, makers.side, makers.prices, makers.book, makers.members, bestPrice);
      LevelIsLeft(makers.levels, makers.book, makers.members, all, bestPrice);
      ghost var w := Walk(symbol, taker.Value(), queue.orders);
      trades, left := MatchLevel(taker, queue, bestPrice, isBuy, makers.side, all, LevelOf(makers.members, bestPrice));
      queue.Views();
      LevelTidy(makers.side, makers.prices, makers.book, bestPrice, queue.orders);
      WalkBestLevel(symbol, old(taker.Value()), makers.prices, makers.book, w);
      makers.members, makers.book := makers.members * left, makers.book[bestPrice := queue.orders];
    }

    /** One turn of the outer loop; i moves on only if the best level outlives the taker. */
    method MatchNext(taker: OrderNode, makers: BookSide, isBuy: bool, i: nat, ghost others: set<OrderNode>) returns (trades: seq<Trade>, i': nat)
      requires makers.Valid() && Indexed(orderMap, makers.members + others) && makers.members !! others
      requires isBuy == taker.side.Buy? && taker !in makers.members + others && taker.quantity > 0
      requires i == 0 && makers.prices != [] && Crosses(taker.Value(), makers.prices[0])
      modifies `orderMap, taker`quantity, makers.Footprint()
      ensures makers.Valid() && Indexed(orderMap, makers.members + others)
      ensures makers.Footprint() <= old(makers.Footprint()) && makers.members <= old(makers.members)
      ensures Walk(symbol, old(taker.Value()), old(makers.Orders()))
              == Before(trades, Walk(symbol, taker.Value(), makers.Orders()))
      ensures if taker.quantity > 0 then i' == 0 && |makers.prices| < |old(makers.prices)| else taker.quantity == 0
    {
      hide OrderQueue.Valid, Indexed, Walk, Fillable, Backing, Sound, Tidy, Crosses;
      var bestPrice := makers.prices[i];
      ghost var left;
      trades, left := MatchBest(taker, makers, isBuy, makers.members + others);
      BackingFrame(makers.levels, makers.book, makers.members);
      BackingViews(makers.levels, makers.book, makers.members, bestPrice);
      assert makers.members + others == left;
      if makers.levels[bestPrice].head == null {
        makers.Splice(i);
        i' := i;
      } else {
        StillSound(makers.side, makers.prices, makers.book, bestPrice);
        i' := i + 1;
      }
    }

    /** Matches a taker against the other side, best price first, until it is done or its limit stops it. */
    method MatchOrder(taker: OrderNode, makers: BookSide, isBuy: bool) returns (trades: seq<Trade>)
      requires Valid() && isBuy == taker.side.Buy? && makers == On(taker.side.Other())
      requires taker !in bids.members + asks.members
      modifies `orderMap, taker`quantity, makers.Footprint()
      ensures Valid() && makers.Footprint() <= old(makers.Footprint()) && makers.members <= old(makers.members)
      ensures Walk(symbol, old(taker.Value()), old(makers.Orders())) == Outcome(trades, taker.quantity, makers.Orders())
      ensures orderMap.Keys <= old(orderMap).Keys
      ensures Contents() == old(Contents()).With(taker.side.Other(), makers.Orders())
    {
      hide OrderQueue.Valid, Indexed, Walk, Fillable, Backing, Sound, Tidy;
      trades := [];
      var i := 0;
      ghost var w := Walk(symbol, taker.Value(), makers.Orders());
      WalkStarts(w);
      ghost var others := On(taker.side).members;
      while i < |makers.prices| && taker.quantity > 0
        invariant Valid() && makers.Footprint() <= old(makers.Footprint()) && makers.members <= old(makers.members)
        invariant makers.members + others == bids.members + asks.members && makers.members !! others
        invariant taker.quantity > 0 ==> i == 0
        invariant w == Before(trades, Walk(symbol, taker.Value(), makers.Orders()))
        decreases taker.quantity > 0, |makers.prices|
      {
        var bestPrice := makers.prices[i];
        if taker.price > 0 {
          if isBuy && taker.price < bestPrice { break; }
          if !isBuy && taker.price > bestPrice { break; }
        }
        var more;
        more, i := MatchNext(taker, makers, isBuy, i, others);
        assert makers.members + others == bids.members + asks.members;
        WalkJoins(w, trades, more, Walk(symbol, taker.Value(), makers.Orders()));
        trades := trades + more;
      }
      WalkIsOver(symbol, w, trades, taker.Value(), makers.side, makers.prices, makers.book);
      IndexShrinks(old(orderMap), orderMap, old(bids.members + asks.members), bids.members + asks.members);
    }

    /** The ids in orderMap are exactly the ids that rest. */
    lemma IndexIsTheBook(id: string)
      requires Valid()
      ensures id in orderMap <==> !(LacksId(Contents().bids, id) && LacksId(Contents().asks, id))
    {
      hide BookSide.Valid, Indexed;
      bids.OrdersAreItsMembers();
      asks.OrdersAreItsMembers();
      if id in orderMap {
        IndexFinds(orderMap, bids.members + asks.members, id);
        var n := orderMap[id].node;
        assert n.Value().id == id;
      } else {
        IndexLacks(orderMap, bids.members + asks.members, id);
      }
    }

    method BroadcastDepth() returns (bidLevels: seq<Level>, askLevels: seq<Level>)
      requires Valid()
      ensures Valid()
      ensures bidLevels == Best(Group(Contents().bids)) && askLevels == Best(Group(Contents().asks))
    {
      hide BookSide.Valid, Indexed;
      bidLevels := bids.Published();
      askLevels := asks.Published();
    }

    method InsertResting(node: OrderNode, mine: BookSide)
      requires Valid() && mine == On(node.side) && node.quantity > 0 && node.price > 0
      requires node !in bids.members + asks.members && node.prev == null && node.next == null && node.id !in orderMap
      modifies `orderMap, mine.Footprint(), node`prev, node`next
      ensures Valid() && fresh(Footprint() - old(Footprint()) - {node})
      ensures orderMap.Keys == old(orderMap).Keys + {node.id}
      ensures Contents() == old(Contents()).With(node.side, Insert(old(mine.Orders()), node.Value()))
    {
      hide BookSide.Valid, BookSide.Orders, Indexed, Insert;
      IndexAdds(orderMap, bids.members + asks.members, node);
      mine.InsertResting(node);
      orderMap := orderMap[node.id := Entry(node, node.price)];
      assert bids.members + asks.members == old(bids.members + asks.members) + {node};
    }

    /** Matches a node and lets the rest of a limit order rest. */
    method Process(node: OrderNode) returns (trades: seq<Trade>)
      requires Valid() && node.id !in orderMap
      requires node !in bids.members + asks.members && node.prev == null && node.next == null
      modifies Footprint(), node
      ensures Valid() && fresh(Footprint() - old(Footprint()) - {node})
      ensures Contents() == Add(symbol, old(Contents()), old(node.Value()))
      ensures trades == Match(symbol, old(Contents()), old(node.Value())).trades
    {
      hide OrderBook.Valid, BookSide.Orders, Walk, Add, Match, Insert;
      AddAfterWalk(symbol, Contents(), node.Value(), Walk(symbol, node.Value(), Contents().On(node.side.Other())));
      if node.side == Buy {
        trades := MatchOrder(node, asks, true);
        assert Footprint() <= old(Footprint());
        if node.quantity > 0 && node.price > 0 {
          InsertResting(node, bids);
        }
      } else {
        trades := MatchOrder(node, bids, false);
        assert Footprint() <= old(Footprint());
        if node.quantity > 0 && node.price > 0 {
          InsertResting(node, asks);
        }
      }
    }

    method AddOrder(o: Order) returns (trades: seq<Trade>, bidLevels: seq<Level>, askLevels: seq<Level>)
      requires Valid() && o.id !in orderMap
      modifies Footprint()
      ensures Valid() && fresh(Footprint() - old(Footprint()))
      ensures Contents() == Add(symbol, old(Contents()), o)
      ensures trades == Match(symbol, old(Contents()), o).trades
      ensures bidLevels == Best(Group(Contents().bids)) && askLevels == Best(Group(Contents().asks))
    {
      hide OrderBook.Valid, Add, Match, Group;
      var node := new OrderNode(o);
      trades := Process(node);
      bidLevels, askLevels := BroadcastDepth();
    }

    lemma Found(id: string)
      requires Valid() && id in orderMap
      ensures var n := orderMap[id].node;
        n.id == id && n in On(n.side).members && LacksId(On(n.side.Other()).Orders(), id)
    {
      hide BookSide.Valid, Indexed;
      IndexFinds(orderMap, bids.members + asks.members, id);
      IndexForgets(orderMap, bids.members + asks.members, orderMap[id].node);
      bids.OrdersAreItsMembers();
      asks.OrdersAreItsMembers();
    }

    method Unlist(node: OrderNode, mine: BookSide)
      requires Valid() && mine == On(node.side) && node in mine.members
      modifies `orderMap, mine.Footprint()
      ensures Valid() && mine.Footprint() <= old(mine.Footprint())
      ensures Contents() == old(Contents()).With(node.side, Remove(old(mine.Orders()), node.id))
    {
      hide BookSide.Valid, Indexed;
      ghost var all := bids.members + asks.members;
      IndexForgets(orderMap, all, node);
      mine.RemoveResting(node);
      orderMap := Delete(orderMap, node.id);
      assert bids.members + asks.members == all - {node};
    }

    /** Unlinks the order wherever it rests; an unknown id changes nothing and publishes nothing. */
    method CancelOrder(id: string) returns (known: bool, bidLevels: seq<Level>, askLevels: seq<Level>)
      requires Valid()
      modifies Footprint()
      ensures Valid() && Footprint() <= old(Footprint())
      ensures Contents() == Cancel(old(Contents()), id)
      ensures known == (id in old(orderMap)) && (!known ==> Contents() == old(Contents()))
      ensures known ==> bidLevels == Best(Group(Contents().bids)) && askLevels == Best(Group(Contents().asks))
    {
      hide OrderBook.Valid;
      known, bidLevels, askLevels := id in orderMap, [], [];
      if !known {
        IndexIsTheBook(id);
        RemoveAbsent(Contents().bids, id);
        RemoveAbsent(Contents().asks, id);
        return;
      }
      var node := orderMap[id].node;
      Found(id);
      RemoveAbsent(On(node.side.Other()).Orders(), id);
      if node.side == Buy {
        Unlist(node, bids);
      } else {
        Unlist(node, asks);
      }
      bidLevels, askLevels := BroadcastDepth();
    }
  }
}
