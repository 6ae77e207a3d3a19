/** Laws of every run of add and cancel messages from the empty book. */
module RunLaws {
  import opened PriceTime
  import opened BookLaws

  // ----- one message keeps the book well formed ------------------------------------------

  /** A remainder that rests is strictly outside what is left on the other side. */
  lemma RemainderDoesNotCross(symbol: string, taker: Order, makers: seq<Order>)
    requires SideOk(taker.side.Other(), makers)
    requires Rests(taker, Walk(symbol, taker, makers))
    ensures forall x | x in Walk(symbol, taker, makers).rest ::
      if taker.side.Buy? then taker.price < x.price else x.price < taker.price
  {
    var k := WalkRest(symbol, taker, makers);
    var rest := Walk(symbol, taker, makers).rest;
    RestOk(symbol, taker, makers);
    if rest != [] {
      LimitCutsOffTheTail(taker, rest);
    }
  }

  lemma MatchKeepsWellFormed(symbol: string, b: Book, o: Order)
    requires WellFormed(b)
    ensures WellFormed(b.With(o.side.Other(), Match(symbol, b, o).rest))
  {
    var makers := b.On(o.side.Other());
    RestOk(symbol, o, makers);
    RestMembers(symbol, o, makers);
    forall x | x in Match(symbol, b, o).rest
      ensures exists y :: y in makers && y.id == x.id && y.price == x.price
    {
      assert IsRemainder(x, makers);
    }
  }

  lemma RestingKeepsWellFormed(b: Book, o: Order)
    requires WellFormed(b) && LacksId(b.bids, o.id) && LacksId(b.asks, o.id)
    requires o.price > 0 && o.quantity > 0
    requires forall x | x in b.On(o.side.Other()) ::
      if o.side.Buy? then o.price < x.price else x.price < o.price
    ensures WellFormed(b.With(o.side, Insert(b.On(o.side), o)))
  {
    InsertSideOk(o.side, b.On(o.side), o);
    InsertUniqueIds(b.On(o.side), o);
    InsertMembers(b.On(o.side), o);
  }

  lemma AddKeepsWellFormed(symbol: string, b: Book, o: Order)
    requires WellFormed(b) && LacksId(b.bids, o.id) && LacksId(b.asks, o.id)
    ensures WellFormed(Add(symbol, b, o))
  {
    var w := Match(symbol, b, o);
    var b' := b.With(o.side.Other(), w.rest);
    MatchKeepsWellFormed(symbol, b, o);
    if Rests(o, w) {
      RemainderDoesNotCross(symbol, o, b.On(o.side.Other()));
      RestMembers(symbol, o, b.On(o.side.Other()));
      assert LacksId(w.rest, o.id) by {
        forall x | x in w.rest ensures x.id != o.id {
          assert IsRemainder(x, b.On(o.side.Other()));
        }
      }
      RestingKeepsWellFormed(b', o.(quantity := w.left));
    }
  }

  lemma CancelKeepsWellFormed(b: Book, id: string)
    requires WellFormed(b)
    ensures WellFormed(Cancel(b, id))
    ensures forall side, o :: o in Cancel(b, id).On(side) <==> o in b.On(side) && o.id != id
  {
    RemoveSideOk(Buy, b.bids, id);
    RemoveSideOk(Sell, b.asks, id);
    RemoveUniqueIds(b.bids, id);
    RemoveUniqueIds(b.asks, id);
    RemoveMembers(b.bids, id);
    RemoveMembers(b.asks, id);
  }

  // ----- where resting orders come from --------------------------------------------------

  /** Position of the add message that carries the id, or -1. */
  function Arrival(ms: seq<Msg>, id: string): (r: int)
    ensures -1 <= r < |ms|
    ensures r >= 0 ==> ms[r].AddMsg? && ms[r].order.id == id
  {
    if ms == [] then -1
    else if ms[|ms| - 1].AddMsg? && ms[|ms| - 1].order.id == id then |ms| - 1
    else Arrival(ms[..|ms| - 1], id)
  }

  ghost predicate Known(ms: seq<Msg>, o: Order) {
    var a := Arrival(ms, o.id);
    a >= 0 && o == ms[a].order.(quantity := o.quantity) && o.quantity <= ms[a].order.quantity
  }

  ghost predicate InTimeOrder(ms: seq<Msg>, q: seq<Order>) {
    forall i, j | 0 <= i < j < |q| && q[i].price == q[j].price :: Arrival(ms, q[i].id) < Arrival(ms, q[j].id)
  }

  ghost predicate SideKnown(ms: seq<Msg>, q: seq<Order>) {
    (forall o | o in q :: Known(ms, o)) && InTimeOrder(ms, q)
  }

  ghost predicate BookKnown(ms: seq<Msg>, b: Book) {
    SideKnown(ms, b.bids) && SideKnown(ms, b.asks)
  }

  lemma ArrivalIsStable(ms: seq<Msg>, m: Msg, id: string)
    requires FreshIds(ms + [m])
    ensures Arrival(ms, id) >= 0 ==> Arrival(ms + [m], id) == Arrival(ms, id)
    ensures Arrival(ms, id) >= 0 && m.AddMsg? ==> id != m.order.id
  {
    var ms' := ms + [m];
    assert ms'[..|ms'| - 1] == ms;
    var a := Arrival(ms, id);
    if a >= 0 && m.AddMsg? {
      assert ms'[a] == ms[a] && ms'[|ms|] == m;
    }
  }

  lemma SideKnownIsStable(ms: seq<Msg>, m: Msg, q: seq<Order>)
    requires FreshIds(ms + [m]) && SideKnown(ms, q)
    ensures SideKnown(ms + [m], q)
    ensures m.AddMsg? ==> LacksId(q, m.order.id)
  {
    forall o | o in q ensures Arrival(ms + [m], o.id) == Arrival(ms, o.id) && (m.AddMsg? ==> o.id != m.order.id) {
      ArrivalIsStable(ms, m, o.id);
    }
    forall o | o in q ensures Known(ms + [m], o) {
      assert (ms + [m])[Arrival(ms, o.id)] == ms[Arrival(ms, o.id)];
    }
    forall i | 0 <= i < |q| ensures Arrival(ms + [m], q[i].id) == Arrival(ms, q[i].id) {
      assert q[i] in q;
    }
  }

  lemma {:induction false} RestKnown(symbol: string, ms: seq<Msg>, taker: Order, makers: seq<Order>)
    requires Positive(makers) && SideKnown(ms, makers)
    ensures SideKnown(ms, Walk(symbol, taker, makers).rest)
    decreases |makers|
  {
    hide Walk, Arrival, Known, Crosses;
    if makers == [] || taker.quantity <= 0 || !Crosses(taker, makers[0].price) {
      WalkStops(symbol, taker, makers);
    } else {
      var m := makers[0];
      var q := Min(taker.quantity, m.quantity);
      var taker' := taker.(quantity := taker.quantity - q);
      SideKnownUncons(ms, makers);
      WalkTurn(symbol, taker, makers);
      if q == m.quantity {
        RestKnown(symbol, ms, taker', makers[1..]);
      } else {
        var left := m.(quantity := m.quantity - q);
        WalkStops(symbol, taker', [left] + makers[1..]);
        ShrunkIsKnown(ms, m, left);
        SideKnownCons(ms, left, makers[1..]);
      }
    }
  }

  lemma ShrunkIsKnown(ms: seq<Msg>, o: Order, left: Order)
    requires Known(ms, o) && left == o.(quantity := left.quantity) && left.quantity <= o.quantity
    ensures Known(ms, left)
  {}

  lemma SideKnownCons(ms: seq<Msg>, x: Order, q: seq<Order>)
    requires SideKnown(ms, q) && Known(ms, x)
    requires forall o | o in q && o.price == x.price :: Arrival(ms, x.id) < Arrival(ms, o.id)
    ensures SideKnown(ms, [x] + q)
  {}

  lemma SideKnownUncons(ms: seq<Msg>, q: seq<Order>)
    requires SideKnown(ms, q) && q != []
    ensures SideKnown(ms, q[1..]) && Known(ms, q[0]) && q == [q[0]] + q[1..]
    ensures forall o | o in q[1..] && o.price == q[0].price :: Arrival(ms, q[0].id) < Arrival(ms, o.id)
  {
    hide Arrival, Known;
    assert forall o | o in q[1..] :: o in q;
  }

  lemma {:induction false} InsertKnown(ms: seq<Msg>, q: seq<Order>, o: Order)
    requires SideOk(o.side, q) && SideKnown(ms, q) && Known(ms, o)
    requires forall x | x in q :: Arrival(ms, x.id) < Arrival(ms, o.id)
    ensures SideKnown(ms, Insert(q, o))
  {
    if q == [] {
    } else {
      SideKnownUncons(ms, q);
      SideOkUncons(o.side, q);
      if Better(o.side, o.price, q[0].price) {
        SideKnownCons(ms, o, q);
      } else {
        InsertKnown(ms, q[1..], o);
        InsertMembers(q[1..], o);
        SideKnownCons(ms, q[0], Insert(q[1..], o));
      }
    }
  }

  lemma {:induction false} RemoveKnown(ms: seq<Msg>, q: seq<Order>, id: string)
    requires SideKnown(ms, q)
    ensures SideKnown(ms, Remove(q, id))
  {
    if q != [] {
      SideKnownUncons(ms, q);
      RemoveKnown(ms, q[1..], id);
      RemoveMembers(q[1..], id);
      if q[0].id != id {
        SideKnownCons(ms, q[0], Remove(q[1..], id));
      }
    }
  }

  lemma NewcomerIsLast(ms: seq<Msg>, q: seq<Order>, o: Order)
    requires FreshIds(ms + [AddMsg(o)]) && SideKnown(ms, q)
    ensures Arrival(ms + [AddMsg(o)], o.id) == |ms|
    ensures forall x | x in q :: Arrival(ms + [AddMsg(o)], x.id) < |ms|
  {
    hide Arrival, FreshIds, InTimeOrder;
    NewcomerArrives(ms, o);
    forall x | x in q ensures Arrival(ms + [AddMsg(o)], x.id) < |ms| {
      ArrivalIsStable(ms, AddMsg(o), x.id);
    }
  }

  lemma NewcomerArrives(ms: seq<Msg>, o: Order)
    ensures Arrival(ms + [AddMsg(o)], o.id) == |ms|
  {}

  lemma AddKeepsKnown(symbol: string, ms: seq<Msg>, b: Book, o: Order)
    requires FreshIds(ms + [AddMsg(o)]) && WellFormed(b) && BookKnown(ms, b)
    ensures BookKnown(ms + [AddMsg(o)], Add(symbol, b, o))
  {
    var mine, theirs := b.On(o.side), b.On(o.side.Other());
    var ms', w := ms + [AddMsg(o)], Match(symbol, b, o);
    SideKnownIsStable(ms, AddMsg(o), mine);
    SideKnownIsStable(ms, AddMsg(o), theirs);
    RestKnown(symbol, ms', o, theirs);
    if Rests(o, w) {
      var k := WalkRest(symbol, o, theirs);
      NewcomerIsLast(ms, mine, o);
      InsertKnown(ms', mine, o.(quantity := w.left));
    }
  }

  lemma StepKeepsBook(symbol: string, ms: seq<Msg>, s: State, m: Msg)
    requires FreshIds(ms + [m]) && WellFormed(s.book) && BookKnown(ms, s.book)
    ensures WellFormed(Step(symbol, s, m).book) && BookKnown(ms + [m], Step(symbol, s, m).book)
  {
    var b := s.book;
    SideKnownIsStable(ms, m, b.bids);
    SideKnownIsStable(ms, m, b.asks);
    match m
    case CancelMsg(id) =>
      CancelKeepsWellFormed(b, id);
      RemoveKnown(ms + [m], b.bids, id);
      RemoveKnown(ms + [m], b.asks, id);
    case AddMsg(o) =>
      AddKeepsWellFormed(symbol, b, o);
      AddKeepsKnown(symbol, ms, b, o);
  }

  /**
   * Every reachable book is sorted by price on both sides, never crossed, holds only positive
   * remainders of orders that were sent, and keeps equal prices in arrival order.
   */
  lemma {:induction false} ReachableBooks(symbol: string, ms: seq<Msg>)
    requires FreshIds(ms)
    ensures WellFormed(Run(symbol, INITIAL, ms).book)
    ensures BookKnown(ms, Run(symbol, INITIAL, ms).book)
  {
    hide WellFormed, BookKnown, Step, FreshIds;
    if ms == [] {
      EmptyBook();
    } else {
      var n := |ms| - 1;
      FreshPrefix(ms, ms[..n]);
      ReachableBooks(symbol, ms[..n]);
      assert ms == ms[..n] + [ms[n]];
      StepKeepsBook(symbol, ms[..n], Run(symbol, INITIAL, ms[..n]), ms[n]);
    }
  }

  /** In numbers: bids fall, asks rise, every bid is below every ask, and nothing rests without a price or a quantity. */
  lemma PricesOfReachableBooks(symbol: string, ms: seq<Msg>)
    requires FreshIds(ms)
    ensures
      var b := Run(symbol, INITIAL, ms).book;
      && (forall i, j | 0 <= i < j < |b.bids| :: b.bids[i].price >= b.bids[j].price)
      && (forall i, j | 0 <= i < j < |b.asks| :: b.asks[i].price <= b.asks[j].price)
      && (forall x, y | x in b.bids && y in b.asks :: 0 < x.price < y.price && x.quantity > 0 && y.quantity > 0)
      && (forall x | x in b.bids :: x.side == Buy) && (forall y | y in b.asks :: y.side == Sell)
  {
    ReachableBooks(symbol, ms);
  }

  lemma FreshPrefix(ms: seq<Msg>, a: seq<Msg>)
    requires FreshIds(ms) && a <= ms
    ensures FreshIds(a)
  {}

  lemma EmptyBook()
    ensures WellFormed(EMPTY_BOOK) && BookKnown([], EMPTY_BOOK)
  {}
}
