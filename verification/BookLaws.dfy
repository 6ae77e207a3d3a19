/** What every reachable book satisfies, and what a run of messages conserves. */
module BookLaws {
  import opened PriceTime

  // ----- shape of a side and of a book ---------------------------------------------------

  ghost predicate SideOk(side: Side, q: seq<Order>) {
    && (forall i | 0 <= i < |q| :: q[i].side == side && q[i].price > 0 && q[i].quantity > 0)
    && (forall i, j | 0 <= i < j < |q| :: !Better(side, q[j].price, q[i].price))
  }

  ghost predicate UniqueIds(q: seq<Order>) {
    forall i, j | 0 <= i < j < |q| :: q[i].id != q[j].id
  }

  ghost predicate Uncrossed(b: Book) {
    forall x, y | x in b.bids && y in b.asks :: x.price < y.price
  }

  ghost predicate LacksId(q: seq<Order>, id: string) {
    forall o | o in q :: o.id != id
  }

  ghost predicate DisjointIds(b: Book) {
    forall x | x in b.bids :: LacksId(b.asks, x.id)
  }

  ghost predicate WellFormed(b: Book) {
    && SideOk(Buy, b.bids) && SideOk(Sell, b.asks)
    && UniqueIds(b.bids) && UniqueIds(b.asks) && DisjointIds(b)
    && Uncrossed(b)
  }

  // ----- the walk ------------------------------------------------------------------------

  ghost predicate Positive(q: seq<Order>) {
    forall i | 0 <= i < |q| :: q[i].quantity > 0
  }

  lemma WalkStops(symbol: string, taker: Order, makers: seq<Order>)
    requires makers == [] || taker.quantity <= 0 || !Crosses(taker, makers[0].price)
    ensures Walk(symbol, taker, makers) == Outcome([], taker.quantity, makers)
  {}

  /** One turn of the matching loop: fill the first maker, then walk on. */
  lemma WalkTurn(symbol: string, taker: Order, makers: seq<Order>)
    requires makers != [] && taker.quantity > 0 && Crosses(taker, makers[0].price)
    ensures var m := makers[0];
      var q := Min(taker.quantity, m.quantity);
      var makers' := if m.quantity == q then makers[1..] else [m.(quantity := m.quantity - q)] + makers[1..];
      Walk(symbol, taker, makers)
      == Before([Fill(symbol, taker, m, q)], Walk(symbol, taker.(quantity := taker.quantity - q), makers'))
  {}

  /** What the walk leaves is a tail of the queue whose first order may have shrunk. */
  lemma {:induction false} WalkRest(symbol: string, taker: Order, makers: seq<Order>) returns (k: nat)
    requires Positive(makers)
    ensures var w := Walk(symbol, taker, makers);
      && k + |w.rest| == |makers|
      && (w.rest != [] ==> 0 < w.rest[0].quantity <= makers[k].quantity
                           && w.rest == [makers[k].(quantity := w.rest[0].quantity)] + makers[k + 1..])
      && w.left <= taker.quantity && (taker.quantity >= 0 ==> w.left >= 0)
      && (w.left > 0 && w.rest != [] ==> !Crosses(taker, w.rest[0].price))
    decreases |makers|
  {
    hide Walk, Crosses;
    k := 0;
    if makers == [] || taker.quantity <= 0 || !Crosses(taker, makers[0].price) {
      WalkStops(symbol, taker, makers);
      assert makers != [] ==> makers == [makers[0]] + makers[1..];
    } else {
      var m := makers[0];
      var q := Min(taker.quantity, m.quantity);
      var taker' := taker.(quantity := taker.quantity - q);
      WalkTurn(symbol, taker, makers);
      if q == m.quantity {
        var k' := WalkRest(symbol, taker', makers[1..]);
        k := k' + 1;
        assert k < |makers| ==> makers[1..][k' + 1..] == makers[k + 1..];
        SameLimit(taker, taker');
      } else {
        WalkStops(symbol, taker', [m.(quantity := m.quantity - q)] + makers[1..]);
      }
    }
  }

  lemma SameLimit(taker: Order, taker': Order)
    requires taker' == taker.(quantity := taker'.quantity)
    ensures forall p :: Crosses(taker', p) == Crosses(taker, p)
  {}

  /** What a trade between two orders says: the price is the maker's own, inside the taker's limit if it has one. */
  ghost predicate Deal(symbol: string, taker: Order, maker: Order, t: Trade) {
    && t.symbol == symbol && t.price == maker.price
    && t.makerOrderId == maker.id && t.takerOrderId == taker.id
    && 0 < t.quantity <= maker.quantity && t.quantity <= taker.quantity
    && (if taker.side == Buy then
          t.buyerId == taker.userId && t.sellerId == maker.userId && (taker.price <= 0 || t.price <= taker.price)
        else
          t.buyerId == maker.userId && t.sellerId == taker.userId && (taker.price <= 0 || t.price >= taker.price))
  }

  /** Trade i is a deal with maker i. */
  lemma {:induction false} WalkTrades(symbol: string, taker: Order, makers: seq<Order>)
    requires Positive(makers)
    ensures var w := Walk(symbol, taker, makers);
      && |w.trades| <= |makers|
      && forall i | 0 <= i < |w.trades| ::
            Deal(symbol, taker, makers[i], w.trades[i])
    decreases |makers|
  {
    hide Walk;
    if makers == [] || taker.quantity <= 0 || !Crosses(taker, makers[0].price) {
      WalkStops(symbol, taker, makers);
    } else {
      var m := makers[0];
      var q := Min(taker.quantity, m.quantity);
      var taker' := taker.(quantity := taker.quantity - q);
      var makers' := if m.quantity == q then makers[1..] else [m.(quantity := m.quantity - q)] + makers[1..];
      WalkTurn(symbol, taker, makers);
      if q == m.quantity {
        WalkTrades(symbol, taker', makers[1..]);
      } else {
        WalkStops(symbol, taker', makers');
      }
      var w', w := Walk(symbol, taker', makers'), Walk(symbol, taker, makers);
      forall i | 0 < i < |w.trades|
        ensures Deal(symbol, taker, makers[i], w.trades[i])
      {
        assert w.trades[i] == w'.trades[i - 1] && makers[i] == makers[1..][i - 1];
      }
    }
  }

  /** Walking a ++ b: b is reached only once a is used up. */
  lemma {:induction false} WalkConcat(symbol: string, taker: Order, a: seq<Order>, b: seq<Order>)
    ensures var w := Walk(symbol, taker, a);
      Walk(symbol, taker, a + b) ==
      if w.rest == [] then Before(w.trades, Walk(symbol, taker.(quantity := w.left), b))
      else Outcome(w.trades, w.left, w.rest + b)
    decreases |a|
  {
    hide Walk, Crosses;
    if a == [] {
      assert a + b == b;
      WalkStops(symbol, taker, a);
      assert taker == taker.(quantity := taker.quantity);
    } else if taker.quantity <= 0 || !Crosses(taker, a[0].price) {
      WalkStops(symbol, taker, a);
      WalkStops(symbol, taker, a + b);
    } else {
      var m := a[0];
      var q := Min(taker.quantity, m.quantity);
      var taker' := taker.(quantity := taker.quantity - q);
      assert (a + b)[1..] == a[1..] + b;
      WalkTurn(symbol, taker, a);
      WalkTurn(symbol, taker, a + b);
      if q == m.quantity {
        WalkConcat(symbol, taker', a[1..], b);
      } else {
        var cut := [m.(quantity := m.quantity - q)];
        assert cut + a[1..] + b == cut + (a[1..] + b);
        WalkStops(symbol, taker', cut + a[1..]);
        WalkStops(symbol, taker', cut + (a[1..] + b));
      }
    }
  }

  // ----- price-time priority, stated without the walk ------------------------------------

  function Sum(fills: seq<int>): int {
    if fills == [] then 0 else fills[0] + Sum(fills[1..])
  }

  /**
   * Quantities given to the makers of a queue that respect price-time priority: nobody is
   * filled beyond its size or outside the limit, nobody is filled while someone ahead still
   * wants more, and trading stops only when the taker is done or nobody acceptable is left.
   */
  ghost predicate Priority(taker: Order, makers: seq<Order>, fills: seq<int>) {
    var want := if taker.quantity > 0 then taker.quantity else 0;
    && |fills| == |makers|
    && (forall i | 0 <= i < |fills| :: 0 <= fills[i] <= makers[i].quantity)
    && (forall i | 0 <= i < |fills| :: fills[i] > 0 ==> Crosses(taker, makers[i].price))
    && (forall i, j | 0 <= i < j < |fills| :: fills[j] > 0 ==> fills[i] == makers[i].quantity)
    && Sum(fills) <= want
    && (forall i | 0 <= i < |fills| ::
          fills[i] < makers[i].quantity && Crosses(taker, makers[i].price) ==> Sum(fills) == want)
  }

  function TradesOf(symbol: string, taker: Order, makers: seq<Order>, fills: seq<int>): seq<Trade>
    requires |fills| == |makers|
  {
    if makers == [] then []
    else (if fills[0] > 0 then [Fill(symbol, taker, makers[0], fills[0])] else [])
         + TradesOf(symbol, taker, makers[1..], fills[1..])
  }

  function RestOf(makers: seq<Order>, fills: seq<int>): seq<Order>
    requires |fills| == |makers|
  {
    if makers == [] then []
    else (if fills[0] == makers[0].quantity then []
          else [makers[0].(quantity := makers[0].quantity - fills[0])])
         + RestOf(makers[1..], fills[1..])
  }

  lemma {:induction false} NothingFilled(symbol: string, taker: Order, makers: seq<Order>, fills: seq<int>)
    requires |fills| == |makers| && forall i | 0 <= i < |fills| :: fills[i] == 0
    requires forall i | 0 <= i < |makers| :: makers[i].quantity > 0
    ensures Sum(fills) == 0 && TradesOf(symbol, taker, makers, fills) == [] && RestOf(makers, fills) == makers
  {
    if makers != [] {
      NothingFilled(symbol, taker, makers[1..], fills[1..]);
    }
  }

  lemma {:induction false} SumNonNegative(fills: seq<int>)
    requires forall i | 0 <= i < |fills| :: fills[i] >= 0
    ensures Sum(fills) >= 0
    ensures Sum(fills) == 0 ==> forall i | 0 <= i < |fills| :: fills[i] == 0
  {
    if fills != [] {
      SumNonNegative(fills[1..]);
      assert forall i | 0 < i < |fills| :: fills[i] == fills[1..][i - 1];
    }
  }

  /** Behind an order outside the taker's limit, everything is outside. */
  lemma LimitCutsOffTheTail(taker: Order, makers: seq<Order>)
    requires SideOk(taker.side.Other(), makers)
    requires makers != [] && !Crosses(taker, makers[0].price)
    ensures forall i | 0 <= i < |makers| :: !Crosses(taker, makers[i].price)
  {
    assert forall i | 0 < i < |makers| :: !Better(taker.side.Other(), makers[i].price, makers[0].price);
  }

  /** If the first maker is filled up, the others share what is left by priority. */
  lemma PriorityTail(taker: Order, makers: seq<Order>, fills: seq<int>)
    requires Priority(taker, makers, fills) && makers != [] && fills[0] == makers[0].quantity && taker.quantity > 0
    ensures Priority(taker.(quantity := taker.quantity - fills[0]), makers[1..], fills[1..])
  {
    var taker' := taker.(quantity := taker.quantity - fills[0]);
    SameLimit(taker, taker');
    assert forall i | 0 < i < |fills| :: fills[i] == fills[1..][i - 1] && makers[i] == makers[1..][i - 1];
    SumNonNegative(fills[1..]);
  }

  /** If it is not, nobody behind it gets anything, and the taker is done. */
  lemma PriorityHead(taker: Order, makers: seq<Order>, fills: seq<int>)
    requires Priority(taker, makers, fills) && makers != [] && fills[0] != makers[0].quantity
    requires taker.quantity > 0 && Crosses(taker, makers[0].price)
    ensures fills[0] == taker.quantity < makers[0].quantity && Sum(fills) == taker.quantity
    ensures forall i | 0 <= i < |fills[1..]| :: fills[1..][i] == 0
  {
    SumNonNegative(fills);
    assert forall i | 0 < i < |fills| :: fills[i] == 0;
    AllZero(fills[1..]);
  }

  lemma {:induction false} AllZero(fills: seq<int>)
    requires forall i | 0 <= i < |fills| :: fills[i] == 0
    ensures Sum(fills) == 0
  {
    if fills != [] {
      AllZero(fills[1..]);
    }
  }

  /** Any allocation that respects priority is the one the walk produces. */
  lemma {:induction false} WalkIsTheOnlyPriorityMatch(symbol: string, taker: Order, makers: seq<Order>, fills: seq<int>)
    requires SideOk(taker.side.Other(), makers)
    requires Priority(taker, makers, fills)
    ensures Walk(symbol, taker, makers) ==
            Outcome(TradesOf(symbol, taker, makers, fills), taker.quantity - Sum(fills), RestOf(makers, fills))
    decreases |makers|
  {
    hide Walk;
    if makers == [] || taker.quantity <= 0 || !Crosses(taker, makers[0].price) {
      NobodyFilled(taker, makers, fills);
      NothingFilled(symbol, taker, makers, fills);
      WalkStops(symbol, taker, makers);
    } else {
      hide Priority, Crosses;
      WalkTurn(symbol, taker, makers);
      var taker' := taker.(quantity := taker.quantity - fills[0]);
      if fills[0] == makers[0].quantity {
        PriorityTail(taker, makers, fills);
        FirstFits(taker, makers, fills);
        WalkIsTheOnlyPriorityMatch(symbol, taker', makers[1..], fills[1..]);
        TradesIgnoreTakerQuantity(symbol, taker, taker', makers[1..], fills[1..]);
      } else {
        PriorityHead(taker, makers, fills);
        NothingFilled(symbol, taker, makers[1..], fills[1..]);
        WalkStops(symbol, taker', [makers[0].(quantity := makers[0].quantity - fills[0])] + makers[1..]);
      }
    }
  }

  lemma NobodyFilled(taker: Order, makers: seq<Order>, fills: seq<int>)
    requires SideOk(taker.side.Other(), makers) && Priority(taker, makers, fills)
    requires makers == [] || taker.quantity <= 0 || !Crosses(taker, makers[0].price)
    ensures forall i | 0 <= i < |fills| :: fills[i] == 0
  {
    SumNonNegative(fills);
    if makers != [] && taker.quantity > 0 {
      LimitCutsOffTheTail(taker, makers);
    }
  }

  lemma FirstFits(taker: Order, makers: seq<Order>, fills: seq<int>)
    requires Priority(taker, makers, fills) && makers != [] && taker.quantity > 0
    ensures |fills| == |makers| && fills[0] <= taker.quantity
  {
    SumNonNegative(fills[1..]);
  }

  lemma {:induction false} TradesIgnoreTakerQuantity(
    symbol: string, taker: Order, taker': Order, makers: seq<Order>, fills: seq<int>)
    requires |fills| == |makers| && taker' == taker.(quantity := taker'.quantity)
    ensures TradesOf(symbol, taker, makers, fills) == TradesOf(symbol, taker', makers, fills)
  {
    if makers != [] {
      TradesIgnoreTakerQuantity(symbol, taker, taker', makers[1..], fills[1..]);
    }
  }

  lemma PriorityCons(taker: Order, makers: seq<Order>, q: int, tail: seq<int>)
    requires makers != [] && taker.quantity > 0 && makers[0].quantity > 0 && Crosses(taker, makers[0].price)
    requires q == Min(taker.quantity, makers[0].quantity)
    requires Priority(taker.(quantity := taker.quantity - q), makers[1..], tail)
    ensures Priority(taker, makers, [q] + tail)
  {
    var taker', fills := taker.(quantity := taker.quantity - q), [q] + tail;
    SameLimit(taker, taker');
    assert forall i | 0 < i < |fills| :: fills[i] == tail[i - 1] && makers[i] == makers[1..][i - 1];
    assert fills[1..] == tail;
    SumNonNegative(tail);
  }

  lemma PriorityNone(taker: Order, makers: seq<Order>, fills: seq<int>)
    requires SideOk(taker.side.Other(), makers) && |fills| == |makers|
    requires makers == [] || taker.quantity <= 0 || !Crosses(taker, makers[0].price)
    requires forall i | 0 <= i < |fills| :: fills[i] == 0
    ensures Priority(taker, makers, fills)
  {
    AllZero(fills);
    if makers != [] && taker.quantity > 0 {
      LimitCutsOffTheTail(taker, makers);
    }
  }

  /** Such an allocation exists for every queue. */
  lemma {:induction false} PriorityMatchExists(taker: Order, makers: seq<Order>) returns (fills: seq<int>)
    requires SideOk(taker.side.Other(), makers)
    ensures Priority(taker, makers, fills)
    decreases |makers|
  {
    hide Priority, Crosses;
    if makers == [] || taker.quantity <= 0 || !Crosses(taker, makers[0].price) {
      fills := seq(|makers|, _ => 0);
      PriorityNone(taker, makers, fills);
    } else {
      var q := Min(taker.quantity, makers[0].quantity);
      var tail := PriorityMatchExists(taker.(quantity := taker.quantity - q), makers[1..]);
      fills := [q] + tail;
      PriorityCons(taker, makers, q, tail);
    }
  }

  // ----- insertion and removal -----------------------------------------------------------

  lemma SideOkCons(side: Side, x: Order, q: seq<Order>)
    requires SideOk(side, q) && x.side == side && x.price > 0 && x.quantity > 0
    requires forall o | o in q :: !Better(side, o.price, x.price)
    ensures SideOk(side, [x] + q)
  {}

  lemma SideOkUncons(side: Side, q: seq<Order>)
    requires SideOk(side, q) && q != []
    ensures SideOk(side, q[1..]) && q == [q[0]] + q[1..]
    ensures forall o | o in q :: !Better(side, o.price, q[0].price)
  {}


  lemma {:induction false} RemoveMembers(q: seq<Order>, id: string)
    ensures forall o :: o in Remove(q, id) <==> o in q && o.id != id
  {
    if q != [] {
      RemoveMembers(q[1..], id);
      assert q == [q[0]] + q[1..];
    }
  }

  lemma {:induction false} RemoveSideOk(side: Side, q: seq<Order>, id: string)
    requires SideOk(side, q)
    ensures SideOk(side, Remove(q, id))
  {
    if q != [] {
      SideOkUncons(side, q);
      RemoveSideOk(side, q[1..], id);
      RemoveMembers(q[1..], id);
      if q[0].id != id {
        SideOkCons(side, q[0], Remove(q[1..], id));
      }
    }
  }

  lemma {:induction false} RemoveUniqueIds(q: seq<Order>, id: string)
    requires UniqueIds(q)
    ensures UniqueIds(Remove(q, id))
  {
    if q != [] {
      assert UniqueIds(q[1..]) && forall o | o in q[1..] :: o.id != q[0].id;
      RemoveUniqueIds(q[1..], id);
      RemoveMembers(q[1..], id);
      var r := Remove(q[1..], id);
      assert forall i | 0 <= i < |r| :: r[i] in q[1..];
    }
  }

  lemma {:induction false} RemoveAbsent(q: seq<Order>, id: string)
    requires LacksId(q, id)
    ensures Remove(q, id) == q
  {
    if q != [] {
      assert q[0] in q && forall o | o in q[1..] :: o in q;
      RemoveAbsent(q[1..], id);
    }
  }

  lemma {:induction false} InsertMembers(q: seq<Order>, o: Order)
    ensures forall x :: x in Insert(q, o) <==> x == o || x in q
  {
    if q != [] && !Better(o.side, o.price, q[0].price) {
      InsertMembers(q[1..], o);
      assert q == [q[0]] + q[1..];
    }
  }

  /** An order better than the whole queue goes to its front. */
  lemma InsertInFront(q: seq<Order>, o: Order)
    requires forall x | x in q :: Better(o.side, o.price, x.price)
    ensures Insert(q, o) == [o] + q
  {
    if q != [] {
      assert q[0] in q;
    }
  }

  lemma {:induction false} InsertSideOk(side: Side, q: seq<Order>, o: Order)
    requires SideOk(side, q)
    requires o.side == side && o.price > 0 && o.quantity > 0
    ensures SideOk(side, Insert(q, o))
  {
    if q != [] {
      SideOkUncons(side, q);
      if Better(side, o.price, q[0].price) {
        SideOkCons(side, o, q);
      } else {
        InsertSideOk(side, q[1..], o);
        InsertMembers(q[1..], o);
        SideOkCons(side, q[0], Insert(q[1..], o));
      }
    }
  }

  lemma {:induction false} InsertUniqueIds(q: seq<Order>, o: Order)
    requires UniqueIds(q) && LacksId(q, o.id)
    ensures UniqueIds(Insert(q, o))
  {
    if q != [] {
      assert UniqueIds(q[1..]) && forall x | x in q[1..] :: x in q && x.id != q[0].id;
      InsertUniqueIds(q[1..], o);
      InsertMembers(q[1..], o);
      var r := Insert(q[1..], o);
      assert forall i | 0 <= i < |r| :: r[i] in r;
    }
  }

  // ----- what the walk leaves ------------------------------------------------------------

  ghost predicate IsRemainder(x: Order, makers: seq<Order>) {
    exists y :: y in makers && x == y.(quantity := x.quantity) && x.quantity <= y.quantity
  }

  lemma {:induction false} RestMembers(symbol: string, taker: Order, makers: seq<Order>)
    requires Positive(makers)
    ensures forall x | x in Walk(symbol, taker, makers).rest :: IsRemainder(x, makers)
    decreases |makers|
  {
    var r := Walk(symbol, taker, makers).rest;
    if makers == [] || taker.quantity <= 0 || !Crosses(taker, makers[0].price) {
      assert forall x | x in r :: x == x.(quantity := x.quantity);
    } else {
      var m, q := makers[0], Min(taker.quantity, makers[0].quantity);
      if q == m.quantity {
        var next := taker.(quantity := taker.quantity - q);
        RestMembers(symbol, next, makers[1..]);
        assert r == Walk(symbol, next, makers[1..]).rest;
        forall x | x in r ensures IsRemainder(x, makers) {
          assert IsRemainder(x, makers[1..]);
          var y :| y in makers[1..] && x == y.(quantity := x.quantity) && x.quantity <= y.quantity;
          assert y in makers;
        }
      } else {
        forall x | x in r ensures IsRemainder(x, makers) {
          var y := if x in makers[1..] then x else m;
          assert y in makers && x == y.(quantity := x.quantity);
        }
      }
    }
  }

  lemma {:induction false} RestOk(symbol: string, taker: Order, makers: seq<Order>)
    requires SideOk(taker.side.Other(), makers)
    ensures SideOk(taker.side.Other(), Walk(symbol, taker, makers).rest)
    ensures UniqueIds(makers) ==> UniqueIds(Walk(symbol, taker, makers).rest)
    decreases |makers|
  {
    if makers != [] {
      var q := Min(taker.quantity, makers[0].quantity);
      if q == makers[0].quantity {
        RestOk(symbol, taker.(quantity := taker.quantity - q), makers[1..]);
      }
    }
  }
}
