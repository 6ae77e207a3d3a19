/** A side of the book as price levels, flattened into matching order. */
module Levels {
  import opened PriceTime
  import opened BookLaws

  type LevelMap = map<int, seq<Order>>

  function At(levels: LevelMap, p: int): seq<Order> {
    if p in levels then levels[p] else []
  }

  /** The queues of the listed prices, one after the other. */
  function Flatten(prices: seq<int>, levels: LevelMap): seq<Order> {
    if prices == [] then []
    else At(levels, prices[0]) + Flatten(prices[1..], levels)
  }

  ghost predicate Ordered(side: Side, prices: seq<int>) {
    forall i, j | 0 <= i < j < |prices| :: Better(side, prices[i], prices[j])
  }

  // ----- the built-in sort, with the side's comparator -----------------------------------

  function InsertPrice(side: Side, prices: seq<int>, p: int): seq<int> {
    if prices == [] || !Better(side, prices[0], p) then [p] + prices
    else [prices[0]] + InsertPrice(side, prices[1..], p)
  }

  function SortPrices(side: Side, prices: seq<int>): seq<int> {
    if prices == [] then []
    else InsertPrice(side, SortPrices(side, prices[..|prices| - 1]), prices[|prices| - 1])
  }

  lemma {:induction false} InsertPriceKeeps(side: Side, prices: seq<int>, p: int)
    requires Ordered(side, prices) && p !in prices
    ensures Ordered(side, InsertPrice(side, prices, p))
    ensures forall x :: x in InsertPrice(side, prices, p) <==> x == p || x in prices
  {
    if prices != [] {
      assert forall i | 0 < i < |prices| :: Better(side, prices[0], prices[i]);
      InsertPriceKeeps(side, prices[1..], p);
      var r := InsertPrice(side, prices[1..], p);
      assert forall i | 0 <= i < |r| :: r[i] in r;
      assert prices == [prices[0]] + prices[1..];
    }
  }

  lemma {:induction false} InsertPriceLast(side: Side, prices: seq<int>, p: int)
    requires forall i | 0 <= i < |prices| :: Better(side, prices[i], p)
    ensures InsertPrice(side, prices, p) == prices + [p]
  {
    if prices != [] {
      InsertPriceLast(side, prices[1..], p);
    }
  }

  lemma {:induction false} SortOrdered(side: Side, prices: seq<int>)
    requires Ordered(side, prices)
    ensures SortPrices(side, prices) == prices
  {
    if prices != [] {
      var n := |prices| - 1;
      SortOrdered(side, prices[..n]);
      InsertPriceLast(side, prices[..n], prices[n]);
    }
  }

  lemma PushAndSort(side: Side, prices: seq<int>, p: int)
    requires Ordered(side, prices)
    ensures SortPrices(side, prices + [p]) == InsertPrice(side, prices, p)
  {
    SortOrdered(side, prices);
    assert (prices + [p])[..|prices|] == prices;
  }

  function WithoutPrice(prices: seq<int>, p: int): seq<int> {
    if prices == [] then []
    else (if prices[0] == p then [] else [prices[0]]) + WithoutPrice(prices[1..], p)
  }

  lemma {:induction false} WithoutPriceMembers(prices: seq<int>, p: int)
    ensures forall x :: x in WithoutPrice(prices, p) <==> x in prices && x != p
  {
    if prices != [] {
      WithoutPriceMembers(prices[1..], p);
      assert prices == [prices[0]] + prices[1..];
    }
  }

  lemma {:induction false} WithoutPriceOrdered(side: Side, prices: seq<int>, p: int)
    requires Ordered(side, prices)
    ensures Ordered(side, WithoutPrice(prices, p))
  {
    if prices != [] {
      assert forall x | x in prices[1..] :: Better(side, prices[0], x);
      WithoutPriceOrdered(side, prices[1..], p);
      WithoutPriceMembers(prices[1..], p);
      var r := WithoutPrice(prices[1..], p);
      assert forall i | 0 <= i < |r| :: r[i] in r;
    }
  }

  // ----- levels against the flat queue ---------------------------------------------------

  /** Every order of a level is priced at the level. */
  ghost predicate PricedByLevel(levels: LevelMap) {
    forall p, i | p in levels && 0 <= i < |levels[p]| :: levels[p][i].price == p
  }

  lemma {:induction false} FlattenFrame(prices: seq<int>, a: LevelMap, b: LevelMap)
    requires forall p | p in prices :: At(a, p) == At(b, p)
    ensures Flatten(prices, a) == Flatten(prices, b)
  {
    if prices != [] {
      assert prices[0] in prices && forall p | p in prices[1..] :: p in prices;
      FlattenFrame(prices[1..], a, b);
    }
  }

  /** Joining the end of the level is inserting behind all orders of equal or better price. */
  lemma {:induction false} InsertIntoLevel(side: Side, prices: seq<int>, levels: LevelMap, o: Order)
    requires Ordered(side, prices) && PricedByLevel(levels) && o.side == side
    requires forall p | p in prices :: p in levels
    requires o.price in prices
    ensures Flatten(prices, levels[o.price := levels[o.price] + [o]]) == Insert(Flatten(prices, levels), o)
  {
    hide Insert;
    var p, tail := prices[0], prices[1..];
    var levels' := levels[o.price := levels[o.price] + [o]];
    assert forall x | x in tail :: x in prices && Better(side, p, x);
    if p == o.price {
      FlattenFrame(tail, levels, levels');
      FlattenPrices(tail, levels);
      InsertBehind(levels[p], Flatten(tail, levels), o);
      assert levels[p] + [o] + Flatten(tail, levels) == levels[p] + ([o] + Flatten(tail, levels));
      InsertInFront(Flatten(tail, levels), o);
    } else {
      assert o.price in tail;
      InsertIntoLevel(side, tail, levels, o);
      InsertBehind(levels[p], Flatten(tail, levels), o);
    }
  }

  lemma {:induction false} InsertNewLevel(side: Side, prices: seq<int>, levels: LevelMap, o: Order)
    requires Ordered(side, prices) && PricedByLevel(levels) && o.side == side
    requires forall p | p in prices :: p in levels
    requires o.price !in prices
    ensures Flatten(InsertPrice(side, prices, o.price), levels[o.price := [o]]) == Insert(Flatten(prices, levels), o)
  {
    var levels' := levels[o.price := [o]];
    if prices == [] {
    } else {
      var p, tail := prices[0], prices[1..];
      assert p in prices && forall x | x in tail :: x in prices && Better(side, p, x);
      if !Better(side, p, o.price) {
        FlattenFrame(prices, levels, levels');
        FlattenPrices(prices, levels);
        InsertInFront(Flatten(prices, levels), o);
      } else {
        InsertNewLevel(side, tail, levels, o);
        InsertBehind(levels[p], Flatten(tail, levels), o);
      }
    }
  }

  lemma {:induction false} FlattenPrices(prices: seq<int>, levels: LevelMap)
    requires PricedByLevel(levels)
    ensures forall x | x in Flatten(prices, levels) :: x.price in prices
  {
    if prices != [] {
      var p := prices[0];
      FlattenPrices(prices[1..], levels);
      assert p in prices && forall x | x in prices[1..] :: x in prices;
      assert forall x | x in At(levels, p) :: x.price == p;
    }
  }

  lemma {:induction false} InsertBehind(a: seq<Order>, b: seq<Order>, o: Order)
    requires forall i | 0 <= i < |a| :: !Better(o.side, o.price, a[i].price)
    ensures Insert(a + b, o) == a + Insert(b, o)
  {
    if a == [] {
      assert a + b == b && a + Insert(b, o) == Insert(b, o);
    } else {
      assert (a + b)[1..] == a[1..] + b;
      InsertBehind(a[1..], b, o);
    }
  }

  lemma {:induction false} RemoveConcat(a: seq<Order>, b: seq<Order>, id: string)
    ensures Remove(a + b, id) == Remove(a, id) + Remove(b, id)
  {
    if a == [] {
      assert a + b == b;
    } else {
      assert (a + b)[1..] == a[1..] + b;
      RemoveConcat(a[1..], b, id);
    }
  }

  /** Removing an id that only one level may hold. */
  lemma {:induction false} RemoveFromLevel(prices: seq<int>, levels: LevelMap, at: int, id: string)
    requires forall i, j | 0 <= i < j < |prices| :: prices[i] != prices[j]
    requires at in levels
    requires forall p | p in levels && p != at :: LacksId(levels[p], id)
    ensures Remove(Flatten(prices, levels), id) == Flatten(prices, levels[at := Remove(levels[at], id)])
  {
    if prices != [] {
      var p, tail := prices[0], prices[1..];
      RemoveFromLevel(tail, levels, at, id);
      RemoveConcat(At(levels, p), Flatten(tail, levels), id);
      if p in levels && p != at {
        RemoveAbsent(levels[p], id);
      }
    }
  }

  lemma {:induction false} DropEmptyLevel(prices: seq<int>, levels: LevelMap, p: int)
    requires p in levels && levels[p] == []
    ensures Flatten(WithoutPrice(prices, p), levels - {p}) == Flatten(prices, levels)
  {
    if prices != [] {
      var q, tail, levels' := prices[0], prices[1..], levels - {p};
      DropEmptyLevel(tail, levels, p);
      if q == p {
        assert At(levels, q) == [] && WithoutPrice(prices, p) == WithoutPrice(tail, p);
      } else {
        assert At(levels', q) == At(levels, q);
        assert WithoutPrice(prices, p) == [q] + WithoutPrice(tail, p);
        assert Flatten([q] + WithoutPrice(tail, p), levels') == At(levels', q) + Flatten(WithoutPrice(tail, p), levels');
      }
    }
  }

  // ----- published depth -----------------------------------------------------------------

  datatype Level = Level(price: int, volume: int)

  function Total(q: seq<Order>): int {
    if q == [] then 0 else q[0].quantity + Total(q[1..])
  }

  /** Price and resting volume of the listed levels. */
  function Depth(prices: seq<int>, levels: LevelMap): seq<Level> {
    if prices == [] then []
    else [Level(prices[0], Total(At(levels, prices[0])))] + Depth(prices[1..], levels)
  }

  /** The same from the flat queue: neighbours of equal price form a level. */
  function Group(q: seq<Order>): seq<Level> {
    if q == [] then []
    else
      var g := Group(q[1..]);
      if g != [] && g[0].price == q[0].price then [Level(q[0].price, q[0].quantity + g[0].volume)] + g[1..]
      else [Level(q[0].price, q[0].quantity)] + g
  }

  lemma {:induction false} GroupLevel(a: seq<Order>, r: seq<Order>, p: int)
    requires a != [] && forall i | 0 <= i < |a| :: a[i].price == p
    requires r != [] ==> r[0].price != p
    ensures Group(a + r) == [Level(p, Total(a))] + Group(r)
  {
    assert (a + r)[1..] == a[1..] + r;
    if |a| == 1 {
      assert a[1..] + r == r && Total(a[1..]) == 0;
    } else {
      GroupLevel(a[1..], r, p);
    }
  }

  lemma {:induction false} DepthIsGroup(side: Side, prices: seq<int>, levels: LevelMap)
    requires Ordered(side, prices) && PricedByLevel(levels)
    requires forall p | p in prices :: p in levels && levels[p] != []
    ensures Depth(prices, levels) == Group(Flatten(prices, levels))
  {
    if prices != [] {
      var p, tail := prices[0], prices[1..];
      assert p in prices && forall x | x in tail :: x in prices && Better(side, p, x);
      DepthIsGroup(side, tail, levels);
      FlattenPrices(tail, levels);
      var r := Flatten(tail, levels);
      assert r != [] ==> r[0] in r;
      GroupLevel(levels[p], r, p);
    }
  }

  const PUBLISHED_LEVELS := 20

  function Best<T>(s: seq<T>): seq<T> {
    s[..Min(PUBLISHED_LEVELS, |s|)]
  }
}
