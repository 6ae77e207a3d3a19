/** The impact estimate: a walk over published price levels instead of over orders. */
module Impacts {
  import opened PriceTime
  import opened BookLaws
  import opened RunLaws
  import opened Levels
  import opened Workers

  datatype Sweep = Sweep(filled: int, cost: int)

  /** What an order of the given size takes from the levels, and what that costs. */
  function Swept(levels: seq<Level>, size: int): Sweep {
    if levels == [] || size <= 0 then Sweep(0, 0)
    else
      var fill := Min(size, levels[0].volume);
      var rest := Swept(levels[1..], size - fill);
      Sweep(fill + rest.filled, fill * levels[0].price + rest.cost)
  }

  /** To two decimals, halves upwards. */
  function Rounded(x: real): real {
    (x * 100.0 + 0.5).Floor as real / 100.0
  }

  /** Distance of the average fill price from the middle of the market, in basis points. */
  function Impact(s: Sweep, mid: real): real {
    if s.filled == 0 then 100.0
    else if mid == 0.0 then 0.0
    else Rounded(Distance(s.cost as real / s.filled as real, mid) / mid * 10000.0)
  }

  function Distance(a: real, b: real): real {
    if a < b then b - a else a - b
  }

  method EstimateImpact(levels: seq<Level>, size: int, mid: real) returns (impact: real)
    ensures impact == Impact(Swept(levels, size), mid)
  {
    var remaining, totalCost, filledSize, i := size, 0, 0, 0;
    while i < |levels| && remaining > 0
      invariant 0 <= i <= |levels|
      invariant var rest := Swept(levels[i..], remaining);
        Swept(levels, size) == Sweep(filledSize + rest.filled, totalCost + rest.cost)
    {
      var fill := Min(remaining, levels[i].volume);
      assert levels[i..][0] == levels[i] && levels[i..][1..] == levels[i + 1..];
      totalCost := totalCost + fill * levels[i].price;
      filledSize := filledSize + fill;
      remaining := remaining - fill;
      i := i + 1;
    }
    if filledSize == 0 {
      return 100.0;
    }
    var avgFillPrice := totalCost as real / filledSize as real;
    if mid == 0.0 {
      return 0.0;
    }
    impact := Rounded(Distance(avgFillPrice, mid) / mid * 10000.0);
  }

  // ----- the estimate in numbers ---------------------------------------------------------

  /** An empty side is estimated at 100 basis points; a middle of 0 at none. */
  lemma EmptySideAndZeroMiddle(levels: seq<Level>, size: int, mid: real)
    requires forall i | 0 <= i < |levels| :: levels[i].volume > 0
    ensures levels == [] || size <= 0 ==> Impact(Swept(levels, size), mid) == 100.0
    ensures levels != [] && size > 0 && mid == 0.0 ==> Impact(Swept(levels, size), mid) == 0.0
  {
    if levels != [] && size > 0 {
      SweptIsCapped(levels, size);
    }
  }

  /** r is x rounded to hundredths, halves upwards. */
  ghost predicate IsNearest(r: real, x: real) {
    && (100.0 * r).Floor as real == 100.0 * r
    && x - 0.005 < r <= x + 0.005
  }

  lemma RoundedIsNearest(x: real)
    ensures IsNearest(Rounded(x), x)
  {
    var k := (x * 100.0 + 0.5).Floor;
    assert k as real <= x * 100.0 + 0.5 < k as real + 1.0;
  }

  /** Otherwise: ten thousand times the distance of the average price from the middle, over the middle, to the hundredth. */
  lemma ImpactInBasisPoints(filled: int, cost: int, mid: real)
    requires filled > 0 && mid > 0.0
    ensures
      var average := cost as real / filled as real;
      var r := Impact(Sweep(filled, cost), mid);
      && (average >= mid ==> IsNearest(r, (average - mid) / mid * 10000.0))
      && (average <= mid ==> IsNearest(r, (mid - average) / mid * 10000.0))
  {
    hide Rounded, IsNearest;
    var average := cost as real / filled as real;
    RoundedIsNearest(Distance(average, mid) / mid * 10000.0);
  }

  /** An order that fits the best level pays its price. */
  lemma OneLevel(levels: seq<Level>, size: int, mid: real)
    requires levels != [] && 0 < size <= levels[0].volume && mid > 0.0
    ensures
      var price, r := levels[0].price as real, Impact(Swept(levels, size), mid);
      && (price >= mid ==> IsNearest(r, (price - mid) / mid * 10000.0))
      && (price <= mid ==> IsNearest(r, (mid - price) / mid * 10000.0))
  {
    hide IsNearest, Impact;
    NothingSwept(levels[1..], 0);
    assert Swept(levels, size) == Sweep(size, size * levels[0].price);
    assert (size * levels[0].price) as real / size as real == levels[0].price as real;
    ImpactInBasisPoints(size, size * levels[0].price, mid);
  }

  // ----- the walk over levels is the match -----------------------------------------------

  function Traded(trades: seq<Trade>): int {
    if trades == [] then 0 else trades[0].quantity + Traded(trades[1..])
  }

  function Notional(trades: seq<Trade>): int {
    if trades == [] then 0 else trades[0].price * trades[0].quantity + Notional(trades[1..])
  }

  /** Levels of equal price may be merged. */
  lemma MergeLevels(p: int, v: int, w: int, rest: seq<Level>, size: int)
    requires v > 0 && w > 0
    ensures Swept([Level(p, v), Level(p, w)] + rest, size) == Swept([Level(p, v + w)] + rest, size)
  {
    var two, one := [Level(p, v), Level(p, w)] + rest, [Level(p, v + w)] + rest;
    assert two[1..] == [Level(p, w)] + rest && two[1..][1..] == rest && one[1..] == rest;
    if size > v {
      var fill := Min(size - v, w);
      assert Min(size, v + w) == v + fill && (v + fill) * p == v * p + fill * p;
    }
  }

  /** A market order trades what the walk over all levels of the other side takes, at the same cost. */
  lemma {:induction false} SweepIsMatch(symbol: string, taker: Order, makers: seq<Order>)
    requires taker.price <= 0
    requires forall i | 0 <= i < |makers| :: makers[i].quantity > 0
    ensures var trades := Walk(symbol, taker, makers).trades;
      Swept(Group(makers), taker.quantity) == Sweep(Traded(trades), Notional(trades))
    decreases |makers|
  {
    hide Swept;
    if makers == [] || taker.quantity <= 0 {
      NothingSwept(Group(makers), taker.quantity);
    } else {
      var m, rest := makers[0], Group(makers[1..]);
      var q := Min(taker.quantity, m.quantity);
      var next := taker.(quantity := taker.quantity - q);
      SplitFirst(makers, taker.quantity);
      SweptFirst(Level(m.price, m.quantity), rest, taker.quantity);
      TradedFirst(Fill(symbol, taker, m, q), Walk(symbol, next, makers[1..]).trades);
      if q == m.quantity {
        SweepIsMatch(symbol, next, makers[1..]);
      } else {
        NothingSwept(rest, taker.quantity - q);
        TradedFirst(Fill(symbol, taker, m, q), []);
      }
    }
  }

  lemma NothingSwept(levels: seq<Level>, size: int)
    requires levels == [] || size <= 0
    ensures Swept(levels, size) == Sweep(0, 0)
  {}

  lemma SweptFirst(first: Level, rest: seq<Level>, size: int)
    requires size > 0
    ensures var fill := Min(size, first.volume);
      var s := Swept(rest, size - fill);
      Swept([first] + rest, size) == Sweep(fill + s.filled, fill * first.price + s.cost)
  {
    assert ([first] + rest)[1..] == rest;
  }

  lemma TradedFirst(t: Trade, ts: seq<Trade>)
    ensures Traded([t] + ts) == t.quantity + Traded(ts) && Notional([t] + ts) == t.quantity * t.price + Notional(ts)
  {
    assert ([t] + ts)[1..] == ts;
  }

  lemma SplitFirst(makers: seq<Order>, size: int)
    requires makers != [] && forall i | 0 <= i < |makers| :: makers[i].quantity > 0
    ensures Swept(Group(makers), size) == Swept([Level(makers[0].price, makers[0].quantity)] + Group(makers[1..]), size)
  {
    var m, rest := makers[0], Group(makers[1..]);
    GroupIsPositive(makers[1..]);
    if rest != [] && rest[0].price == m.price {
      assert [Level(m.price, m.quantity), rest[0]] + rest[1..] == [Level(m.price, m.quantity)] + rest;
      MergeLevels(m.price, m.quantity, rest[0].volume, rest[1..], size);
    }
  }

  lemma {:induction false} GroupIsPositive(q: seq<Order>)
    requires forall i | 0 <= i < |q| :: q[i].quantity > 0
    ensures forall i | 0 <= i < |Group(q)| :: Group(q)[i].volume > 0
  {
    if q != [] {
      GroupIsPositive(q[1..]);
    }
  }

  function Volume(levels: seq<Level>): int {
    if levels == [] then 0 else levels[0].volume + Volume(levels[1..])
  }

  lemma {:induction false} SweptIsCapped(levels: seq<Level>, size: int)
    requires forall i | 0 <= i < |levels| :: levels[i].volume > 0
    ensures Volume(levels) >= 0 && (levels != [] ==> Volume(levels) > 0)
    ensures size >= 0 ==> Swept(levels, size).filled == Min(size, Volume(levels))
  {
    if levels != [] {
      SweptIsCapped(levels[1..], if size > levels[0].volume then size - levels[0].volume else 0);
    }
  }

  lemma {:induction false} VolumeConcat(a: seq<Level>, b: seq<Level>)
    ensures Volume(a + b) == Volume(a) + Volume(b)
  {
    if a == [] {
      assert a + b == b;
    } else {
      assert (a + b)[1..] == a[1..] + b;
      VolumeConcat(a[1..], b);
    }
  }

  lemma {:induction false} CoveredSweep(a: seq<Level>, b: seq<Level>, size: int)
    requires forall i | 0 <= i < |a| :: a[i].volume > 0
    requires size <= Volume(a)
    ensures Swept(a + b, size) == Swept(a, size)
  {
    if a == [] {
    } else if size > 0 {
      assert (a + b)[1..] == a[1..] + b;
      SweptIsCapped(a[1..], 0);
      CoveredSweep(a[1..], b, size - Min(size, a[0].volume));
    }
  }

  /** The first levels tell as much as all of them exactly when they cover the size, or are all there are. */
  lemma PrefixSuffices(a: seq<Level>, b: seq<Level>, size: int)
    requires forall i | 0 <= i < |a + b| :: (a + b)[i].volume > 0
    ensures Swept(a, size) == Swept(a + b, size) <==> size <= Volume(a) || b == []
  {
    assert forall i | 0 <= i < |a| :: a[i] == (a + b)[i];
    assert forall i | 0 <= i < |b| :: b[i] == (a + b)[|a| + i];
    if size <= Volume(a) {
      CoveredSweep(a, b, size);
    } else if b == [] {
      assert a + b == a;
    } else {
      SweptIsCapped(a, size);
      SweptIsCapped(b, size);
      SweptIsCapped(a + b, size);
      VolumeConcat(a, b);
    }
  }

  /**
   * In every reachable book: the estimate from the published levels is built on the very quantity and cost
   * a market order would trade, exactly when those levels cover the size or the side has no more of them.
   */
  lemma EstimateAgreesWithMatcher(symbol: string, ms: seq<Msg>, taker: Order)
    requires FreshIds(ms) && taker.price <= 0
    ensures
      var b := Run(symbol, INITIAL, ms).book;
      var trades := Match(symbol, b, taker).trades;
      var levels := Group(b.On(taker.side.Other()));
      Swept(Best(levels), taker.quantity) == Sweep(Traded(trades), Notional(trades)) <==>
        taker.quantity <= Volume(Best(levels)) || |levels| <= PUBLISHED_LEVELS
  {
    ReachableBooks(symbol, ms);
    var makers := Run(symbol, INITIAL, ms).book.On(taker.side.Other());
    var levels := Group(makers);
    SweepIsMatch(symbol, taker, makers);
    GroupIsPositive(makers);
    var more := levels[|Best(levels)|..];
    assert levels == Best(levels) + more;
    PrefixSuffices(Best(levels), more, taker.quantity);
  }

  // ----- larger orders get worse prices --------------------------------------------------

  ghost predicate Rising(levels: seq<Level>) {
    forall i, j | 0 <= i < j < |levels| :: levels[i].price <= levels[j].price
  }

  ghost predicate Falling(levels: seq<Level>) {
    forall i, j | 0 <= i < j < |levels| :: levels[i].price >= levels[j].price
  }

  lemma {:induction false} CostsAtLeast(levels: seq<Level>, size: int, p: int)
    requires forall i | 0 <= i < |levels| :: levels[i].volume > 0 && levels[i].price >= p
    ensures Swept(levels, size).filled >= 0 && Swept(levels, size).cost >= p * Swept(levels, size).filled
  {
    if levels != [] && size > 0 {
      var fill := Min(size, levels[0].volume);
      CostsAtLeast(levels[1..], size - fill, p);
      AtLeast(fill, levels[0].price, p);
      var rest := Swept(levels[1..], size - fill).filled;
      assert p * (fill + rest) == p * fill + p * rest;
    }
  }

  lemma AtLeast(q: int, price: int, p: int)
    requires q >= 0 && price >= p
    ensures q * price >= p * q
  {}

  /** A price between what the smaller order has paid at most and what the larger one still pays at least. */
  lemma {:induction false} Pivot(levels: seq<Level>, small: int, large: int) returns (p: int)
    requires 0 < small <= large && levels != [] && Rising(levels)
    requires forall i | 0 <= i < |levels| :: levels[i].volume > 0
    ensures p >= levels[0].price
    ensures var a, b := Swept(levels, small), Swept(levels, large);
      && 0 < a.filled <= b.filled
      && a.cost <= p * a.filled && b.cost - a.cost >= p * (b.filled - a.filled)
  {
    hide Swept;
    var first, tail := levels[0], levels[1..];
    assert levels == [first] + tail;
    SweptFirst(first, tail, small);
    SweptFirst(first, tail, large);
    var a, b := Swept(levels, small), Swept(levels, large);
    if small <= first.volume {
      p := first.price;
      NothingSwept(tail, 0);
      CostsAtLeast(levels, large, p);
      SweptIsCapped(levels, large);
      SweptIsCapped(tail, 0);
      PivotStarts(p, small, b);
    } else if tail == [] {
      p := first.price;
      NothingSwept(tail, small - first.volume);
      NothingSwept(tail, large - first.volume);
    } else {
      p := Pivot(tail, small - first.volume, large - first.volume);
      var a', b' := Swept(tail, small - first.volume), Swept(tail, large - first.volume);
      PivotStays(p, first.volume, first.price, a', b', a, b);
    }
  }

  lemma PivotStarts(p: int, small: int, b: Sweep)
    requires b.cost >= p * b.filled
    ensures b.cost - small * p >= p * (b.filled - small) && small * p <= p * small
  {
    assert p * (b.filled - small) == p * b.filled - p * small;
  }

  lemma PivotStays(p: int, v: int, price: int, a': Sweep, b': Sweep, a: Sweep, b: Sweep)
    requires v >= 0 && price <= p
    requires a == Sweep(v + a'.filled, v * price + a'.cost) && b == Sweep(v + b'.filled, v * price + b'.cost)
    requires a'.cost <= p * a'.filled && b'.cost - a'.cost >= p * (b'.filled - a'.filled)
    ensures a.cost <= p * a.filled && b.cost - a.cost >= p * (b.filled - a.filled)
  {
    assert v * price <= p * v;
    assert p * (v + a'.filled) == p * v + p * a'.filled;
    assert b.filled - a.filled == b'.filled - a'.filled && b.cost - a.cost == b'.cost - a'.cost;
  }

  lemma CrossMultiply(ac: int, af: int, bc: int, bf: int, p: int)
    requires 0 < af <= bf && ac <= p * af && bc - ac >= p * (bf - af)
    ensures ac * bf <= bc * af
  {
    var d := bf - af;
    assert ac * d <= (p * af) * d;
    assert (p * d) * af <= (bc - ac) * af;
    assert (p * af) * d == (p * d) * af;
    assert ac * bf == ac * af + ac * d;
  }

  /** On the ask side the average price never falls when the order gets larger. */
  lemma BuyingMoreCostsMore(levels: seq<Level>, small: int, large: int)
    requires 0 < small <= large && levels != [] && Rising(levels)
    requires forall i | 0 <= i < |levels| :: levels[i].volume > 0
    ensures var a, b := Swept(levels, small), Swept(levels, large);
      0 < a.filled <= b.filled && a.cost * b.filled <= b.cost * a.filled
  {
    var p := Pivot(levels, small, large);
    var a, b := Swept(levels, small), Swept(levels, large);
    CrossMultiply(a.cost, a.filled, b.cost, b.filled, p);
  }

  function Mirrored(levels: seq<Level>): seq<Level> {
    seq(|levels|, i requires 0 <= i < |levels| => Level(-levels[i].price, levels[i].volume))
  }

  lemma {:induction false} MirroredSweep(levels: seq<Level>, size: int)
    ensures Swept(Mirrored(levels), size) == Sweep(Swept(levels, size).filled, -Swept(levels, size).cost)
  {
    if levels != [] && size > 0 {
      assert Mirrored(levels)[1..] == Mirrored(levels[1..]);
      MirroredSweep(levels[1..], size - Min(size, levels[0].volume));
    }
  }

  /** On the bid side the average price never rises when the order gets larger. */
  lemma SellingMoreEarnsLess(levels: seq<Level>, small: int, large: int)
    requires 0 < small <= large && levels != [] && Falling(levels)
    requires forall i | 0 <= i < |levels| :: levels[i].volume > 0
    ensures var a, b := Swept(levels, small), Swept(levels, large);
      0 < a.filled <= b.filled && a.cost * b.filled >= b.cost * a.filled
  {
    hide Swept;
    MirroredSweep(levels, small);
    MirroredSweep(levels, large);
    BuyingMoreCostsMore(Mirrored(levels), small, large);
    var a, b := Swept(levels, small), Swept(levels, large);
    assert (-a.cost) * b.filled == -(a.cost * b.filled) && (-b.cost) * a.filled == -(b.cost * a.filled);
  }

  lemma AverageOrder(ac: int, af: int, bc: int, bf: int)
    requires af > 0 && bf > 0 && ac * bf <= bc * af
    ensures ac as real / af as real <= bc as real / bf as real
  {
    var x, y := ac as real / af as real, bc as real / bf as real;
    assert x * af as real == ac as real && y * bf as real == bc as real;
    assert (ac * bf) as real == ac as real * bf as real && (bc * af) as real == bc as real * af as real;
    var k := af as real * bf as real;
    assert x * k == ac as real * bf as real && y * k == bc as real * af as real;
    assert (x - y) * k <= 0.0 && k > 0.0;
  }

  lemma AverageAtLeast(c: int, f: int, p: int)
    requires f > 0 && c >= p * f
    ensures c as real / f as real >= p as real
  {
    AverageOrder(p, 1, c, f);
  }

  lemma AverageAtMost(c: int, f: int, p: int)
    requires f > 0 && -c >= -p * f
    ensures c as real / f as real <= p as real
  {
    assert c * 1 <= p * f;
    AverageOrder(c, f, p, 1);
  }

  lemma ScaleOrder(d: real, e: real, mid: real)
    requires d <= e && mid > 0.0
    ensures Rounded(d / mid * 10000.0) <= Rounded(e / mid * 10000.0)
  {
    assert d / mid * mid == d && e / mid * mid == e;
    assert d / mid <= e / mid;
    RoundingKeepsOrder(d / mid * 10000.0, e / mid * 10000.0);
  }

  lemma RoundingKeepsOrder(x: real, y: real)
    requires x <= y
    ensures Rounded(x) <= Rounded(y)
  {
    var m, n := (x * 100.0 + 0.5).Floor, (y * 100.0 + 0.5).Floor;
    assert m <= n;
  }

  /** So the estimated impact of a buy grows with its size, as long as the middle is not above the best ask. */
  lemma BuyImpactGrows(levels: seq<Level>, small: int, large: int, mid: real)
    requires 0 < small <= large && levels != [] && Rising(levels) && 0.0 < mid <= levels[0].price as real
    requires forall i | 0 <= i < |levels| :: levels[i].volume > 0
    ensures Impact(Swept(levels, small), mid) <= Impact(Swept(levels, large), mid)
  {
    hide Swept, Rounded;
    BuyingMoreCostsMore(levels, small, large);
    var a, b := Swept(levels, small), Swept(levels, large);
    AverageOrder(a.cost, a.filled, b.cost, b.filled);
    CostsAtLeast(levels, small, levels[0].price);
    AverageAtLeast(a.cost, a.filled, levels[0].price);
    var x, y := a.cost as real / a.filled as real, b.cost as real / b.filled as real;
    ScaleOrder(x - mid, y - mid, mid);
  }

  /** And that of a sell, as long as the middle is not below the best bid. */
  lemma SellImpactGrows(levels: seq<Level>, small: int, large: int, mid: real)
    requires 0 < small <= large && levels != [] && Falling(levels) && mid > 0.0 && mid >= levels[0].price as real
    requires forall i | 0 <= i < |levels| :: levels[i].volume > 0
    ensures Impact(Swept(levels, small), mid) <= Impact(Swept(levels, large), mid)
  {
    hide Swept, Rounded;
    SellingMoreEarnsLess(levels, small, large);
    var a, b := Swept(levels, small), Swept(levels, large);
    AverageOrder(b.cost, b.filled, a.cost, a.filled);
    MirroredSweep(levels, small);
    CostsAtLeast(Mirrored(levels), small, -levels[0].price);
    AverageAtMost(a.cost, a.filled, levels[0].price);
    var x, y := a.cost as real / a.filled as real, b.cost as real / b.filled as real;
    ScaleOrder(mid - x, mid - y, mid);
  }

  ghost predicate InOrder(side: Side, levels: seq<Level>) {
    forall i, j | 0 <= i < j < |levels| :: !Better(side, levels[j].price, levels[i].price)
  }

  lemma {:induction false} GroupKeepsBound(side: Side, q: seq<Order>, p: int)
    requires forall i | 0 <= i < |q| :: !Better(side, q[i].price, p)
    ensures forall i | 0 <= i < |Group(q)| :: !Better(side, Group(q)[i].price, p)
  {
    if q != [] {
      GroupKeepsBound(side, q[1..], p);
    }
  }

  lemma {:induction false} LevelsAreSorted(side: Side, q: seq<Order>)
    requires SideOk(side, q)
    ensures InOrder(side, Group(q))
  {
    if q != [] {
      LevelsAreSorted(side, q[1..]);
      GroupKeepsBound(side, q[1..], q[0].price);
    }
  }

  /** The levels published for a reachable book are what the price laws above ask for. */
  lemma PublishedLevelsAreSorted(symbol: string, ms: seq<Msg>, side: Side)
    requires FreshIds(ms)
    ensures var levels := Best(Group(Run(symbol, INITIAL, ms).book.On(side)));
      && (forall i | 0 <= i < |levels| :: levels[i].volume > 0)
      && (if side.Sell? then Rising(levels) else Falling(levels))
  {
    ReachableBooks(symbol, ms);
    var q := Run(symbol, INITIAL, ms).book.On(side);
    assert SideOk(side, q);
    LevelsAreSorted(side, q);
    GroupIsPositive(q);
  }

  function QuantityAt(q: seq<Order>, price: int): int {
    if q == [] then 0 else (if q[0].price == price then q[0].quantity else 0) + QuantityAt(q[1..], price)
  }

  ghost predicate HasLevel(levels: seq<Level>, price: int) {
    exists i :: 0 <= i < |levels| && levels[i].price == price
  }

  /** Levels are strictly ordered, every order has one, and it holds the quantities at its price. */
  ghost predicate LevelsOf(side: Side, levels: seq<Level>, q: seq<Order>) {
    && (forall i, j | 0 <= i < j < |levels| :: Better(side, levels[i].price, levels[j].price))
    && (forall i | 0 <= i < |levels| :: levels[i].volume == QuantityAt(q, levels[i].price) > 0)
    && (forall o | o in q :: HasLevel(levels, o.price))
  }

  lemma {:induction false} NothingAt(q: seq<Order>, price: int)
    requires forall i | 0 <= i < |q| :: q[i].price != price
    ensures QuantityAt(q, price) == 0
  {
    if q != [] {
      NothingAt(q[1..], price);
    }
  }

  lemma {:induction false} GroupIsLevelsOf(side: Side, q: seq<Order>)
    requires SideOk(side, q)
    ensures LevelsOf(side, Group(q), q)
  {
    if q != [] {
      var rest := Group(q[1..]);
      GroupIsLevelsOf(side, q[1..]);
      GroupKeepsBound(side, q[1..], q[0].price);
      if rest == [] || rest[0].price != q[0].price {
        NewLevel(side, q, rest);
      } else {
        MergedLevel(side, q, rest);
      }
    }
  }

  lemma NewLevel(side: Side, q: seq<Order>, rest: seq<Level>)
    requires q != [] && SideOk(side, q) && LevelsOf(side, rest, q[1..])
    requires forall i | 0 <= i < |rest| :: !Better(side, rest[i].price, q[0].price)
    requires rest != [] ==> rest[0].price != q[0].price
    ensures LevelsOf(side, [Level(q[0].price, q[0].quantity)] + rest, q)
  {
    var levels := [Level(q[0].price, q[0].quantity)] + rest;
    forall i | 0 <= i < |rest| ensures Better(side, q[0].price, rest[i].price) {}
    forall i | 0 <= i < |q[1..]| ensures q[1..][i].price != q[0].price {
      assert q[1..][i] in q[1..];
    }
    NothingAt(q[1..], q[0].price);
    StillLevels(q, rest, levels, 1);
  }

  lemma MergedLevel(side: Side, q: seq<Order>, rest: seq<Level>)
    requires q != [] && SideOk(side, q) && LevelsOf(side, rest, q[1..])
    requires rest != [] && rest[0].price == q[0].price
    ensures LevelsOf(side, [Level(q[0].price, q[0].quantity + rest[0].volume)] + rest[1..], q)
  {
    StillLevels(q, rest, [Level(q[0].price, q[0].quantity + rest[0].volume)] + rest[1..], 0);
  }

  lemma StillLevels(q: seq<Order>, rest: seq<Level>, levels: seq<Level>, k: nat)
    requires q != [] && levels != [] && levels[0].price == q[0].price && |levels| == |rest| + k
    requires forall i | 0 <= i < |rest| :: rest[i].price == levels[i + k].price
    requires forall o | o in q[1..] :: HasLevel(rest, o.price)
    ensures forall o | o in q :: HasLevel(levels, o.price)
  {
    forall o | o in q ensures HasLevel(levels, o.price) {
      if o != q[0] {
        assert o in q[1..];
        var i :| 0 <= i < |rest| && rest[i].price == o.price;
        assert levels[i + k].price == o.price;
      }
    }
  }

  /**
   * At most 20 levels, best price first, each with all that rests at its price; an order whose price is
   * not among them is worse than 20 that are.
   */
  ghost predicate TopOf(side: Side, levels: seq<Level>, q: seq<Order>) {
    && |levels| <= 20
    && (forall i | 0 <= i < |levels| :: levels[i].volume == QuantityAt(q, levels[i].price) > 0)
    && (forall i, j | 0 <= i < j < |levels| ::
          if side == Buy then levels[i].price > levels[j].price else levels[i].price < levels[j].price)
    && (forall o | o in q && !HasLevel(levels, o.price) :: |levels| == 20 &&
          forall i | 0 <= i < 20 :: if side == Buy then levels[i].price > o.price else levels[i].price < o.price)
  }

  lemma BestIsTopOf(side: Side, levels: seq<Level>, q: seq<Order>)
    requires LevelsOf(side, levels, q)
    ensures TopOf(side, Best(levels), q)
  {
    hide QuantityAt;
    var top := Best(levels);
    forall o | o in q && !HasLevel(top, o.price)
      ensures |top| == 20 && forall i | 0 <= i < 20 :: Better(side, top[i].price, o.price)
    {
      var k :| 0 <= k < |levels| && levels[k].price == o.price;
    }
  }

  /** In every reachable book the depth that is published tells what rests at the best 20 prices of either side. */
  lemma DepthTellsTheBook(symbol: string, ms: seq<Msg>)
    requires FreshIds(ms)
    ensures var b := Run(symbol, INITIAL, ms).book;
      TopOf(Buy, DepthOf(b).bids, b.bids) && TopOf(Sell, DepthOf(b).asks, b.asks)
  {
    hide Run, TopOf, LevelsOf, Group, Best;
    ReachableBooks(symbol, ms);
    var b := Run(symbol, INITIAL, ms).book;
    GroupIsLevelsOf(Buy, b.bids);
    GroupIsLevelsOf(Sell, b.asks);
    BestIsTopOf(Buy, Group(b.bids), b.bids);
    BestIsTopOf(Sell, Group(b.asks), b.asks);
  }

  /**
   * In every reachable book with orders on both sides the middle of the best bid and the best ask lies
   * between them, and from any price between them the estimates of both sides grow with the size.
   */
  lemma ImpactGrowsInReachableBooks(symbol: string, ms: seq<Msg>, small: int, large: int, mid: real)
    requires FreshIds(ms) && 0 < small <= large
    requires var b := Run(symbol, INITIAL, ms).book; b.bids != [] && b.asks != []
    ensures
      var b := Run(symbol, INITIAL, ms).book;
      var bids, asks := Best(Group(b.bids)), Best(Group(b.asks));
      && bids != [] && asks != []
      && var bid, ask := bids[0].price as real, asks[0].price as real;
         && 0.0 < bid <= (bid + ask) / 2.0 <= ask
         && (bid <= mid <= ask ==>
               && Impact(Swept(asks, small), mid) <= Impact(Swept(asks, large), mid)
               && Impact(Swept(bids, small), mid) <= Impact(Swept(bids, large), mid))
  {
    hide Swept, Impact, Run;
    var b := Run(symbol, INITIAL, ms).book;
    ReachableBooks(symbol, ms);
    PublishedLevelsAreSorted(symbol, ms, Buy);
    PublishedLevelsAreSorted(symbol, ms, Sell);
    GroupStarts(b.bids);
    GroupStarts(b.asks);
    var bids, asks := Best(Group(b.bids)), Best(Group(b.asks));
    assert b.bids[0] in b.bids && b.asks[0] in b.asks && b.bids[0].price > 0;
    if bids[0].price as real <= mid <= asks[0].price as real {
      BuyImpactGrows(asks, small, large, mid);
      SellImpactGrows(bids, small, large, mid);
    }
  }

  /** c cents in ticks. */
  function Cents(c: int, cent: nat): int {
    c * cent
  }

  /** The middle of bid and ask to the cent, halves upwards; a cent is the given number of ticks. */
  function RoundedMiddle(bid: int, ask: int, cent: nat): int
    requires cent > 0
  {
    Cents((bid + ask + cent) / (2 * cent), cent)
  }

  /** It is a whole number of cents, at most half a cent off. */
  lemma RoundedMiddleIsNearest(bid: int, ask: int, cent: nat)
    requires cent > 0
    ensures RoundedMiddle(bid, ask, cent) % cent == 0
    ensures bid + ask - cent < 2 * RoundedMiddle(bid, ask, cent) <= bid + ask + cent
  {
    var m := (bid + ask + cent) / (2 * cent);
    Quotient(bid + ask + cent, 2 * cent, m);
    assert (2 * cent) * m == 2 * Cents(m, cent);
    WholeCents(m, cent);
  }

  lemma WholeCents(m: int, cent: nat)
    requires cent > 0
    ensures Cents(m, cent) % cent == 0
  {
    Remainder(Cents(m, cent), cent, m, 0);
  }

  lemma Remainder(a: int, b: int, q: int, r: int)
    requires b > 0 && a == q * b + r && 0 <= r < b
    ensures a % b == r
  {
    var d := a / b - q;
    assert a == a / b * b + a % b;
    assert d * b == r - a % b;
  }

  /** Rounding keeps the middle between bid and ask if and only if there is a whole cent between them. */
  lemma RoundedMiddleStaysInside(bid: int, ask: int, cent: nat)
    requires bid <= ask && cent > 0
    ensures bid <= RoundedMiddle(bid, ask, cent) <= ask <==> exists c :: bid <= Cents(c, cent) <= ask
  {
    var m := (bid + ask + cent) / (2 * cent);
    Quotient(bid + ask + cent, 2 * cent, m);
    if c :| bid <= Cents(c, cent) <= ask {
      if c < m {
        CentsApart(c, m, cent);
      } else if m < c {
        CentsApart(m, c, cent);
      }
      assert (2 * cent) * m == 2 * Cents(m, cent);
    }
  }

  lemma Quotient(a: int, b: int, q: int)
    requires b > 0 && q == a / b
    ensures b * q <= a < b * q + b
  {}

  lemma CentsApart(c: int, d: int, cent: nat)
    requires c < d
    ensures Cents(c, cent) + cent <= Cents(d, cent)
  {
    Multiples(d - c - 1, cent);
    assert (c + 1 + (d - c - 1)) * cent == c * cent + cent + (d - c - 1) * cent;
  }

  lemma Multiples(e: nat, cent: nat)
    ensures e * cent >= 0
  {}

  /** So with a whole cent in the spread the estimates grow from the rounded middle, too. */
  lemma RoundedImpactGrows(symbol: string, ms: seq<Msg>, small: int, large: int, cent: nat)
    requires FreshIds(ms) && 0 < small <= large && cent > 0
    requires var b := Run(symbol, INITIAL, ms).book;
      b.bids != [] && b.asks != [] && exists c :: b.bids[0].price <= Cents(c, cent) <= b.asks[0].price
    ensures
      var b := Run(symbol, INITIAL, ms).book;
      var bids, asks := Best(Group(b.bids)), Best(Group(b.asks));
      var mid := RoundedMiddle(b.bids[0].price, b.asks[0].price, cent) as real;
      && Impact(Swept(asks, small), mid) <= Impact(Swept(asks, large), mid)
      && Impact(Swept(bids, small), mid) <= Impact(Swept(bids, large), mid)
  {
    hide Swept, Impact, Run, RoundedMiddle;
    var b := Run(symbol, INITIAL, ms).book;
    GroupStarts(b.bids);
    GroupStarts(b.asks);
    var bid, ask := b.bids[0].price, b.asks[0].price;
    ImpactGrowsInReachableBooks(symbol, ms, small, large, RoundedMiddle(bid, ask, cent) as real);
    RoundedMiddleStaysInside(bid, ask, cent);
  }

  lemma GroupStarts(q: seq<Order>)
    requires q != []
    ensures Group(q) != [] && Group(q)[0].price == q[0].price
  {}
}
