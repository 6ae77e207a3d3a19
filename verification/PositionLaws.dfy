/** Cash identity, zero sum, fragmentation, entry-price hull and the meaning of liquidation. */
module PositionLaws {
  import opened Keys
  import opened Positions
  import opened Wrappers

  // ----- one fill ------------------------------------------------------------------------

  /** Cash put in so far: what the position cost minus what it has earned. */
  function Cost(p: Position): real {
    p.size * p.averageEntryPrice - p.realizedPnl
  }

  lemma BlendSpreadsNotional(s: real, e: real, q: real, price: real, n: real)
    requires n != 0.0
    ensures Abs(n) * BlendedEntry(s, e, q, price, n) == Abs(s) * e + q * price
  {}

  lemma Product(x: real, y: real, z: real)
    ensures x * (y - z) == x * y - x * z && (y - z) * x == y * x - z * x && (y + z) * x == y * x + z * x
  {}

  /** Scaling in, in terms of products only: n * b is the new cost. */
  lemma ScaleInBooksCash(p: Position, isBuy: bool, price: real, quantity: real)
    requires quantity > 0.0 && p.leverage != 0.0 && ScalesIn(p, isBuy, quantity)
    ensures Cost(Apply(p, isBuy, price, quantity)) == Cost(p) + Signed(isBuy, quantity) * price
  {
    hide BlendedEntry, OpenMargin, LongLiquidation, ShortLiquidation, Gain;
    var n := p.size + Signed(isBuy, quantity);
    BlendSpreadsNotional(p.size, p.averageEntryPrice, quantity, price, n);
    var b := BlendedEntry(p.size, p.averageEntryPrice, quantity, price, n);
    if isBuy {
      assert Abs(n) == n && Abs(p.size) == p.size;
    } else {
      assert Abs(n) == -n && Abs(p.size) == -p.size;
      assert n * b == -(-n * b) && p.size * p.averageEntryPrice == -(-p.size * p.averageEntryPrice);
    }
  }

  lemma ScaleOutBooksCash(p: Position, isBuy: bool, price: real, quantity: real)
    requires quantity > 0.0 && p.leverage != 0.0 && !ScalesIn(p, isBuy, quantity)
    ensures Cost(Apply(p, isBuy, price, quantity)) == Cost(p) + Signed(isBuy, quantity) * price
  {
    hide OpenMargin, LongLiquidation, ShortLiquidation, BlendedEntry;
    var s, e := p.size, p.averageEntryPrice;
    var q := MinReal(Abs(s), quantity);
    Product(q, e, price);
    Product(q, price, e);
    Product(e, s, quantity);
    Product(e, s, -quantity);
    Product(price, s, quantity);
    Product(price, s, -quantity);
  }

  /** Every branch books exactly the cash that changed hands. */
  lemma FillBooksCash(p: Position, isBuy: bool, price: real, quantity: real)
    requires quantity > 0.0 && p.leverage != 0.0
    ensures Cost(Apply(p, isBuy, price, quantity)) == Cost(p) + Signed(isBuy, quantity) * price
  {
    if ScalesIn(p, isBuy, quantity) {
      ScaleInBooksCash(p, isBuy, price, quantity);
    } else {
      ScaleOutBooksCash(p, isBuy, price, quantity);
    }
  }

  /** Adding to a position: notionals add up, nothing is realized. */
  lemma AddingBlends(p: Position, isBuy: bool, price: real, quantity: real)
    requires quantity > 0.0 && p.leverage != 0.0
    requires if isBuy then p.size >= 0.0 else p.size <= 0.0
    ensures var r, q := Apply(p, isBuy, price, quantity), if isBuy then quantity else -quantity;
      && r.size == p.size + q
      && r.size * r.averageEntryPrice == p.size * p.averageEntryPrice + q * price
      && r.realizedPnl == p.realizedPnl
  {
    hide BlendedEntry, OpenMargin, LongLiquidation, ShortLiquidation, Gain;
    ScaleInBooksCash(p, isBuy, price, quantity);
  }

  /**
   * Trading against a position realizes, for the units it closes, the distance between entry and price:
   * a partial close keeps the entry, a full one resets it, and a flip opens the rest at the trade's price.
   */
  lemma ReducingRealizes(p: Position, isBuy: bool, price: real, quantity: real)
    requires quantity > 0.0 && p.leverage != 0.0
    requires if isBuy then p.size < 0.0 else p.size > 0.0
    ensures
      var r := Apply(p, isBuy, price, quantity);
      var open := if isBuy then -p.size else p.size;
      var perUnit := if isBuy then p.averageEntryPrice - price else price - p.averageEntryPrice;
      && r.size == (if isBuy then p.size + quantity else p.size - quantity)
      && (quantity < open ==> r.averageEntryPrice == p.averageEntryPrice && r.realizedPnl == p.realizedPnl + quantity * perUnit)
      && (quantity == open ==> r.averageEntryPrice == 0.0 && r.realizedPnl == p.realizedPnl + open * perUnit)
      && (quantity > open ==> r.averageEntryPrice == price && r.realizedPnl == p.realizedPnl + open * perUnit)
  {
    hide BlendedEntry, OpenMargin, LongLiquidation, ShortLiquidation;
  }

  /** Margin times leverage is the notional, whatever the fill; leverage and unrealized PnL are left alone. */
  lemma MarginFollows(p: Position, isBuy: bool, price: real, quantity: real)
    requires quantity > 0.0 && p.leverage != 0.0
    ensures
      var r := Apply(p, isBuy, price, quantity);
      && r.leverage == p.leverage && r.unrealizedPnl == p.unrealizedPnl
      && r.marginUsed * r.leverage == (if r.size < 0.0 then -r.size else r.size) * r.averageEntryPrice
  {
    hide EntryAfter, RealizedAfter, Margin, Liquidation;
    var r := Apply(p, isBuy, price, quantity);
    MarginTimesLeverage(r.size, r.averageEntryPrice, r.leverage);
  }

  lemma MarginTimesLeverage(size: real, entry: real, leverage: real)
    requires leverage != 0.0
    ensures Margin(size, entry, leverage) * leverage == (if size < 0.0 then -size else size) * entry
  {
    var notional := Abs(size) * entry;
    assert notional / leverage * leverage == notional;
  }

  /** The liquidation price is one leverage-th of the entry below the entry of a long, above that of a short. */
  lemma LiquidationFollows(p: Position, isBuy: bool, price: real, quantity: real)
    requires quantity > 0.0 && p.leverage != 0.0
    ensures
      var r := Apply(p, isBuy, price, quantity);
      && (r.size == 0.0 ==> r.liquidationPrice == None)
      && (r.size > 0.0 ==> r.liquidationPrice == Some(r.averageEntryPrice - r.averageEntryPrice / r.leverage))
      && (r.size < 0.0 ==> r.liquidationPrice == Some(r.averageEntryPrice + r.averageEntryPrice / r.leverage))
  {
    hide EntryAfter, RealizedAfter, Margin, LongLiquidation, ShortLiquidation;
    var r := Apply(p, isBuy, price, quantity);
    LiquidationDistance(r.averageEntryPrice, r.leverage);
  }

  lemma LiquidationDistance(entry: real, leverage: real)
    requires leverage != 0.0
    ensures LongLiquidation(entry, leverage) == entry - entry / leverage
    ensures ShortLiquidation(entry, leverage) == entry + entry / leverage
  {
    assert entry * (1.0 / leverage) == entry / leverage;
    Product(entry, 1.0, 1.0 / leverage);
    Product(entry, 1.0, -(1.0 / leverage));
  }

  /** While the position is open, the loss at its liquidation price is exactly its margin. */
  lemma LiquidationLosesTheMargin(p: Position, isBuy: bool, price: real, quantity: real)
    requires quantity > 0.0 && p.leverage != 0.0
    ensures var r := Apply(p, isBuy, price, quantity);
      && (r.size == 0.0 <==> r.liquidationPrice.None?)
      && (r.size != 0.0 ==> Unrealized(r, r.liquidationPrice.value) == -r.marginUsed)
      && (r.size == 0.0 ==> r.marginUsed == 0.0)
  {
    hide EntryAfter, RealizedAfter, Gain, OpenMargin, LongLiquidation, ShortLiquidation;
    var r := Apply(p, isBuy, price, quantity);
    LiquidationIdentity(r.size, r.averageEntryPrice, p.leverage);
  }

  lemma LiquidationIdentity(size: real, entry: real, leverage: real)
    requires leverage != 0.0
    ensures size > 0.0 ==> Gain(size, LongLiquidation(entry, leverage) - entry) == -OpenMargin(size, entry, leverage)
    ensures size < 0.0 ==> Gain(size, ShortLiquidation(entry, leverage) - entry) == -OpenMargin(size, entry, leverage)
  {
    var inverse := 1.0 / leverage;
    assert (Abs(size) * entry) / leverage == Abs(size) * entry * inverse;
    assert entry * (1.0 - inverse) - entry == -(entry * inverse);
    assert entry * (1.0 + inverse) - entry == entry * inverse;
    if size > 0.0 {
      assert size * -(entry * inverse) == -(size * entry * inverse);
    } else if size < 0.0 {
      assert size * (entry * inverse) == -(-size * entry * inverse);
    }
  }

  // ----- splitting a fill ----------------------------------------------------------------

  lemma BlendTwice(s: real, e: real, q1: real, q2: real, price: real, n1: real, n2: real)
    requires q1 > 0.0 && q2 > 0.0 && Abs(n1) == Abs(s) + q1 && Abs(n2) == Abs(s) + q1 + q2
    ensures BlendedEntry(n1, BlendedEntry(s, e, q1, price, n1), q2, price, n2) == BlendedEntry(s, e, q1 + q2, price, n2)
  {
    BlendSpreadsNotional(s, e, q1, price, n1);
    Product(price, q1, q2);
  }

  /** Adding to a position entered at the trade's price does not move the entry. */
  lemma BlendSamePrice(s: real, q: real, price: real, n: real)
    requires q > 0.0 && Abs(n) == Abs(s) + q
    ensures BlendedEntry(s, price, q, price, n) == price
  {
    Product(price, Abs(s), q);
    assert Abs(s) * price + q * price == (Abs(s) + q) * price;
    assert ((Abs(s) + q) * price) / (Abs(s) + q) == price;
  }

  lemma GainSplits(q1: real, q2: real, perUnit: real)
    ensures Gain(q1 + q2, perUnit) == Gain(q1, perUnit) + Gain(q2, perUnit)
  {}

  lemma SplitEntry(p: Position, isBuy: bool, price: real, q1: real, q2: real)
    requires q1 > 0.0 && q2 > 0.0 && p.leverage != 0.0
    ensures EntryAfter(Apply(p, isBuy, price, q1), isBuy, price, q2) == EntryAfter(p, isBuy, price, q1 + q2)
  {
    hide BlendedEntry, OpenMargin, LongLiquidation, ShortLiquidation, Gain;
    var s, e, n1 := p.size, p.averageEntryPrice, p.size + Signed(isBuy, q1);
    var n2 := n1 + Signed(isBuy, q2);
    assert n2 == s + Signed(isBuy, q1 + q2);
    if ScalesIn(p, isBuy, q1) {
      BlendTwice(s, e, q1, q2, price, n1, n2);
    } else if q1 >= Abs(s) {
      BlendSamePrice(n1, q2, price, n2);
      BlendFromFlat(q2, price, n2);
    }
  }

  lemma BlendFromFlat(q: real, price: real, n: real)
    requires q > 0.0 && n != 0.0
    ensures Abs(n) == q ==> BlendedEntry(0.0, 0.0, q, price, n) == price
  {
    if Abs(n) == q {
      assert (q * price) / q == price;
    }
  }

  lemma SplitRealized(p: Position, isBuy: bool, price: real, q1: real, q2: real)
    requires q1 > 0.0 && q2 > 0.0 && p.leverage != 0.0
    ensures RealizedAfter(Apply(p, isBuy, price, q1), isBuy, price, q2) == RealizedAfter(p, isBuy, price, q1 + q2)
  {
    hide BlendedEntry, OpenMargin, LongLiquidation, ShortLiquidation, Gain;
    if !ScalesIn(p, isBuy, q1) && q1 < Abs(p.size) {
      var perUnit := if isBuy then p.averageEntryPrice - price else price - p.averageEntryPrice;
      GainSplits(q1, MinReal(Abs(p.size) - q1, q2), perUnit);
    }
  }

  /** Two fills at one price are one fill of their sum, from any position, across a close or a flip too. */
  lemma SplittingChangesNothing(p: Position, isBuy: bool, price: real, q1: real, q2: real)
    requires q1 > 0.0 && q2 > 0.0 && p.leverage != 0.0
    ensures Apply(Apply(p, isBuy, price, q1), isBuy, price, q2) == Apply(p, isBuy, price, q1 + q2)
  {
    hide EntryAfter, RealizedAfter, Margin, Liquidation;
    SplitEntry(p, isBuy, price, q1, q2);
    SplitRealized(p, isBuy, price, q1, q2);
  }

  // ----- runs of one position ------------------------------------------------------------

  datatype Fill = Fill(isBuy: bool, price: real, quantity: real)

  ghost predicate Positive(fills: seq<Fill>) {
    forall i | 0 <= i < |fills| :: fills[i].quantity > 0.0
  }

  function AfterFills(p: Position, fills: seq<Fill>): (r: Position)
    requires Positive(fills) && p.leverage != 0.0
    ensures r.leverage == p.leverage
  {
    if fills == [] then p
    else
      var f := fills[|fills| - 1];
      Apply(AfterFills(p, fills[..|fills| - 1]), f.isBuy, f.price, f.quantity)
  }

  function CashOut(fills: seq<Fill>): real {
    if fills == [] then 0.0
    else CashOut(fills[..|fills| - 1])
         + Signed(fills[|fills| - 1].isBuy, fills[|fills| - 1].quantity) * fills[|fills| - 1].price
  }

  /** size * averageEntryPrice - realizedPnl is the cash paid, after any fills from flat. */
  lemma {:induction false} CashOfFills(fills: seq<Fill>)
    requires Positive(fills)
    ensures Cost(AfterFills(FLAT, fills)) == CashOut(fills)
  {
    hide Apply;
    if fills != [] {
      var f := fills[|fills| - 1];
      CashOfFills(fills[..|fills| - 1]);
      FillBooksCash(AfterFills(FLAT, fills[..|fills| - 1]), f.isBuy, f.price, f.quantity);
    }
  }

  function Times(x: real, y: real): real {
    x * y
  }

  lemma Weighted(t: real, lo: real, x: real, hi: real)
    requires t >= 0.0 && (t != 0.0 ==> lo <= x <= hi)
    ensures Times(t, lo) <= Times(t, x) <= Times(t, hi)
  {}

  lemma Split(c: real, t: real, q: real, x: real)
    requires c == t + q
    ensures Times(c, x) == Times(t, x) + Times(q, x)
  {}

  lemma Cancel(c: real, x: real, y: real)
    requires c > 0.0 && Times(c, x) <= Times(c, y)
    ensures x <= y
  {}

  lemma Blend(s: real, e: real, q: real, price: real, n: real)
    requires n != 0.0
    ensures Times(Abs(n), BlendedEntry(s, e, q, price, n)) == Times(Abs(s), e) + Times(q, price)
  {
    BlendSpreadsNotional(s, e, q, price, n);
  }

  lemma BlendStaysBetween(s: real, e: real, q: real, price: real, n: real, lo: real, hi: real)
    requires q > 0.0 && Abs(n) == Abs(s) + q && lo <= price <= hi && (s != 0.0 ==> lo <= e <= hi)
    ensures lo <= BlendedEntry(s, e, q, price, n) <= hi
  {
    hide Times, BlendedEntry;
    var c, t, b := Abs(n), Abs(s), BlendedEntry(s, e, q, price, n);
    Blend(s, e, q, price, n);
    Weighted(q, lo, price, hi);
    Weighted(t, lo, e, hi);
    Split(c, t, q, lo);
    Split(c, t, q, hi);
    Cancel(c, lo, b);
    Cancel(c, b, hi);
  }

  /** While open, the entry price lies between any bounds on the prices traded. */
  lemma {:induction false} HullOfFills(fills: seq<Fill>, lo: real, hi: real)
    requires Positive(fills) && forall i | 0 <= i < |fills| :: lo <= fills[i].price <= hi
    ensures var p := AfterFills(FLAT, fills); p.size != 0.0 ==> lo <= p.averageEntryPrice <= hi
  {
    if fills != [] {
      hide BlendedEntry, OpenMargin, LongLiquidation, ShortLiquidation, Gain;
      var f := fills[|fills| - 1];
      HullOfFills(fills[..|fills| - 1], lo, hi);
      var p := AfterFills(FLAT, fills[..|fills| - 1]);
      if ScalesIn(p, f.isBuy, f.quantity) {
        BlendStaysBetween(p.size, p.averageEntryPrice, f.quantity, f.price, p.size + Signed(f.isBuy, f.quantity), lo, hi);
      }
    }
  }

  // ----- runs of the whole engine --------------------------------------------------------

  ghost predicate Tradable(trades: seq<Trade>) {
    forall i | 0 <= i < |trades| :: trades[i].quantity > 0.0
  }

  function AfterTrades(trades: seq<Trade>): (r: Portfolio)
    requires Tradable(trades)
    ensures Levered(r)
  {
    if trades == [] then map[] else Executed(AfterTrades(trades[..|trades| - 1]), trades[|trades| - 1])
  }

  ghost predicate Distinct(users: seq<string>) {
    forall i, j | 0 <= i < j < |users| :: users[i] != users[j]
  }

  /** Both sides of every trade in the symbol are listed. */
  ghost predicate Lists(users: seq<string>, trades: seq<Trade>, symbol: string) {
    forall i | 0 <= i < |trades| && trades[i].symbol == symbol :: trades[i].buyerId in users && trades[i].sellerId in users
  }

  /** No listed user's key for the symbol coincides with the key of another position the trades touch. */
  ghost predicate KeysApart(users: seq<string>, symbol: string, trades: seq<Trade>) {
    forall u, i | u in users && 0 <= i < |trades| ::
      !Clash(u, symbol, trades[i].buyerId, trades[i].symbol) && !Clash(u, symbol, trades[i].sellerId, trades[i].symbol)
  }

  /** User ids of one length, as UUIDs are, keep all keys apart, whatever the symbols. */
  ghost predicate OneLength(users: seq<string>, trades: seq<Trade>, n: nat) {
    && (forall u | u in users :: |u| == n)
    && (forall i | 0 <= i < |trades| :: |trades[i].buyerId| == n && |trades[i].sellerId| == n)
  }

  lemma OneLengthKeepsApart(users: seq<string>, symbol: string, trades: seq<Trade>, n: nat)
    requires OneLength(users, trades, n)
    ensures KeysApart(users, symbol, trades)
  {
    forall u, i | u in users && 0 <= i < |trades|
      ensures !Clash(u, symbol, trades[i].buyerId, trades[i].symbol)
      ensures !Clash(u, symbol, trades[i].sellerId, trades[i].symbol)
    {
      EqualLengthsNeverClash(u, symbol, trades[i].buyerId, trades[i].symbol);
      EqualLengthsNeverClash(u, symbol, trades[i].sellerId, trades[i].symbol);
    }
  }

  // ----- each position follows from its own fills ----------------------------------------

  /** The fills that reach a position key: the buyer's side of a trade before the seller's. */
  function FillsUnder(trades: seq<Trade>, key: string): seq<Fill> {
    if trades == [] then []
    else
      var t := trades[|trades| - 1];
      FillsUnder(trades[..|trades| - 1], key)
      + (if Join(t.buyerId, t.symbol) == key then [Fill(true, t.price, t.quantity)] else [])
      + (if Join(t.sellerId, t.symbol) == key then [Fill(false, t.price, t.quantity)] else [])
  }

  /** The fills of a user in a symbol; a trade with oneself is two of them. */
  function FillsOf(trades: seq<Trade>, u: string, s: string): seq<Fill> {
    if trades == [] then []
    else
      var t := trades[|trades| - 1];
      FillsOf(trades[..|trades| - 1], u, s)
      + (if t.buyerId == u && t.symbol == s then [Fill(true, t.price, t.quantity)] else [])
      + (if t.sellerId == u && t.symbol == s then [Fill(false, t.price, t.quantity)] else [])
  }

  lemma OneMoreFill(p: Position, fills: seq<Fill>, f: Fill)
    requires Positive(fills) && f.quantity > 0.0 && p.leverage != 0.0
    ensures Positive(fills + [f])
    ensures AfterFills(p, fills + [f]) == Apply(AfterFills(p, fills), f.isBuy, f.price, f.quantity)
  {
    assert (fills + [f])[..|fills|] == fills;
  }

  /** In every run, what is stored under a key is the flat position after the fills that reach the key. */
  lemma {:induction false} PositionIsItsFills(trades: seq<Trade>, key: string)
    requires Tradable(trades)
    ensures Positive(FillsUnder(trades, key))
    ensures At(AfterTrades(trades), key) == AfterFills(FLAT, FillsUnder(trades, key))
  {
    hide Apply, AfterFills;
    if trades == [] {
      NoFills(FLAT);
    } else {
      var before, t := trades[..|trades| - 1], trades[|trades| - 1];
      PositionIsItsFills(before, key);
      var fills := FillsUnder(before, key);
      var bought := fills + if Join(t.buyerId, t.symbol) == key then [Fill(true, t.price, t.quantity)] else [];
      OneMoreFill(FLAT, fills, Fill(true, t.price, t.quantity));
      assert fills + [] == fills && bought + [] == bought;
      OneMoreFill(FLAT, bought, Fill(false, t.price, t.quantity));
    }
  }

  lemma NoFills(p: Position)
    requires p.leverage != 0.0
    ensures AfterFills(p, []) == p
  {}

  lemma {:induction false} FillsUnderOwnKey(trades: seq<Trade>, u: string, s: string)
    requires KeysApart([u], s, trades)
    ensures FillsUnder(trades, Join(u, s)) == FillsOf(trades, u, s)
  {
    if trades != [] {
      var t := trades[|trades| - 1];
      assert u in [u];
      JoinClashes(u, s, t.buyerId, t.symbol);
      JoinClashes(u, s, t.sellerId, t.symbol);
      FillsUnderOwnKey(trades[..|trades| - 1], u, s);
    }
  }

  /** For every user and symbol: size times entry minus realized PnL is the cash paid, in every run. */
  lemma CashIdentity(trades: seq<Trade>, u: string, s: string)
    requires Tradable(trades) && KeysApart([u], s, trades)
    ensures Cost(At(AfterTrades(trades), Join(u, s))) == CashOut(FillsOf(trades, u, s))
  {
    hide Cost, AfterFills, FillsUnder, FillsOf, CashOut, KeysApart;
    PositionIsItsFills(trades, Join(u, s));
    FillsUnderOwnKey(trades, u, s);
    CashOfFills(FillsOf(trades, u, s));
  }

  ghost predicate PricedWithin(trades: seq<Trade>, u: string, s: string, lo: real, hi: real) {
    forall i | 0 <= i < |trades| && trades[i].symbol == s && (trades[i].buyerId == u || trades[i].sellerId == u) ::
      lo <= trades[i].price <= hi
  }

  lemma {:induction false} FillsWithin(trades: seq<Trade>, u: string, s: string, lo: real, hi: real)
    requires PricedWithin(trades, u, s, lo, hi)
    ensures forall i | 0 <= i < |FillsOf(trades, u, s)| :: lo <= FillsOf(trades, u, s)[i].price <= hi
  {
    if trades != [] {
      FillsWithin(trades[..|trades| - 1], u, s, lo, hi);
    }
  }

  /** While the position is open, its entry price lies within any bounds on the user's prices in the symbol. */
  lemma EntryPriceHull(trades: seq<Trade>, u: string, s: string, lo: real, hi: real)
    requires Tradable(trades) && KeysApart([u], s, trades) && PricedWithin(trades, u, s, lo, hi)
    ensures var p := At(AfterTrades(trades), Join(u, s)); p.size != 0.0 ==> lo <= p.averageEntryPrice <= hi
  {
    hide AfterFills, FillsUnder, FillsOf, KeysApart;
    PositionIsItsFills(trades, Join(u, s));
    FillsUnderOwnKey(trades, u, s);
    FillsWithin(trades, u, s, lo, hi);
    HullOfFills(FillsOf(trades, u, s), lo, hi);
  }

  // ----- sums over the users -------------------------------------------------------------

  /** Something summed over the users' positions in a symbol. */
  function Sum(ps: Portfolio, users: seq<string>, symbol: string, f: Position -> real): real {
    if users == [] then 0.0 else f(At(ps, Join(users[0], symbol))) + Sum(ps, users[1..], symbol, f)
  }

  /** A fill changes the sum by the change of the one position, once per listing of the user. */
  lemma {:induction false} SumAfterSide(
    ps: Portfolio, users: seq<string>, symbol: string, f: Position -> real, u: string, s: string, v: Position)
    requires Distinct(users) && forall w | w in users :: !Clash(w, symbol, u, s)
    ensures Sum(ps[Join(u, s) := v], users, symbol, f)
            == Sum(ps, users, symbol, f) + if u in users && s == symbol then f(v) - f(At(ps, Join(u, s))) else 0.0
  {
    if users != [] {
      SumAfterSide(ps, users[1..], symbol, f, u, s, v);
      JoinClashes(users[0], symbol, u, s);
      assert users == [users[0]] + users[1..];
    }
  }

  const SIZE := (p: Position) => p.size
  const COST := (p: Position) => Cost(p)

  /** Realized plus unrealized PnL at a mark, over the users. */
  function Pnl(ps: Portfolio, users: seq<string>, symbol: string, mark: real): real {
    if users == [] then 0.0
    else
      var p := At(ps, Join(users[0], symbol));
      p.realizedPnl + Unrealized(p, mark) + Pnl(ps, users[1..], symbol, mark)
  }

  lemma {:induction false} PnlIsSizeAndCost(ps: Portfolio, users: seq<string>, symbol: string, mark: real)
    ensures Pnl(ps, users, symbol, mark) == Sum(ps, users, symbol, SIZE) * mark - Sum(ps, users, symbol, COST)
  {
    hide At, Join;
    if users != [] {
      PnlIsSizeAndCost(ps, users[1..], symbol, mark);
      PnlOfOne(At(ps, Join(users[0], symbol)), Sum(ps, users[1..], symbol, SIZE), mark);
    }
  }

  lemma PnlOfOne(p: Position, others: real, mark: real)
    ensures p.realizedPnl + Unrealized(p, mark) + others * mark == (SIZE(p) + others) * mark - COST(p)
  {
    Product(p.size, mark, p.averageEntryPrice);
    Product(mark, p.size, others);
  }

  lemma SideMovesSums(ps: Portfolio, users: seq<string>, symbol: string, u: string, s: string, price: real, q: real, isBuy: bool)
    requires q > 0.0 && At(ps, Join(u, s)).leverage != 0.0
    requires Distinct(users) && forall w | w in users :: !Clash(w, symbol, u, s)
    ensures var ps', hit := Side(ps, u, s, price, q, isBuy), u in users && s == symbol;
      && Sum(ps', users, symbol, SIZE) == Sum(ps, users, symbol, SIZE) + (if hit then Signed(isBuy, q) else 0.0)
      && Sum(ps', users, symbol, COST) == Sum(ps, users, symbol, COST) + (if hit then Signed(isBuy, q) * price else 0.0)
  {
    var p := At(ps, Join(u, s));
    var v := Apply(p, isBuy, price, q);
    SumAfterSide(ps, users, symbol, SIZE, u, s, v);
    SumAfterSide(ps, users, symbol, COST, u, s, v);
    FillBooksCash(p, isBuy, price, q);
  }

  lemma FlatIsNothing(key: string)
    ensures SIZE(At(map[], key)) == 0.0 && COST(At(map[], key)) == 0.0
  {
    assert FLAT.size == 0.0;
  }

  lemma {:induction false} NobodyHasAnything(users: seq<string>, symbol: string)
    ensures Sum(map[], users, symbol, SIZE) == 0.0 && Sum(map[], users, symbol, COST) == 0.0
  {
    hide At, Join, Cost;
    if users != [] {
      FlatIsNothing(Join(users[0], symbol));
      NobodyHasAnything(users[1..], symbol);
    }
  }

  lemma {:induction false} SumsAreZero(trades: seq<Trade>, users: seq<string>, symbol: string)
    requires Tradable(trades) && Distinct(users) && Lists(users, trades, symbol) && KeysApart(users, symbol, trades)
    ensures Sum(AfterTrades(trades), users, symbol, SIZE) == 0.0 && Sum(AfterTrades(trades), users, symbol, COST) == 0.0
  {
    hide Sum, Executed, Distinct, Lists, Tradable, KeysApart;
    if trades == [] {
      NobodyHasAnything(users, symbol);
    }
    if trades != [] {
      var before, t := trades[..|trades| - 1], trades[|trades| - 1];
      LastTrade(trades, users, symbol);
      SumsAreZero(before, users, symbol);
      TradeMovesNothing(AfterTrades(before), t, users, symbol);
    }
  }

  lemma LastTrade(trades: seq<Trade>, users: seq<string>, symbol: string)
    requires Tradable(trades) && Lists(users, trades, symbol) && KeysApart(users, symbol, trades) && trades != []
    ensures var before, t := trades[..|trades| - 1], trades[|trades| - 1];
      && Tradable(before) && Lists(users, before, symbol) && KeysApart(users, symbol, before)
      && t.quantity > 0.0 && KeysApart(users, symbol, [t]) && (t.symbol == symbol ==> t.buyerId in users && t.sellerId in users)
  {}

  /** What the buyer's side adds to either sum the seller's side takes away. */
  lemma TradeMovesNothing(ps: Portfolio, t: Trade, users: seq<string>, symbol: string)
    requires Levered(ps) && t.quantity > 0.0 && KeysApart(users, symbol, [t]) && Distinct(users)
    requires t.symbol == symbol ==> t.buyerId in users && t.sellerId in users
    ensures Sum(Executed(ps, t), users, symbol, SIZE) == Sum(ps, users, symbol, SIZE)
    ensures Sum(Executed(ps, t), users, symbol, COST) == Sum(ps, users, symbol, COST)
  {
    hide Apply, Sum, Clash;
    assert [t][0] == t;
    SideMovesSums(ps, users, symbol, t.buyerId, t.symbol, t.price, t.quantity, true);
    var mid := Side(ps, t.buyerId, t.symbol, t.price, t.quantity, true);
    KeepsLeverage(At(ps, Join(t.buyerId, t.symbol)), true, t.price, t.quantity);
    SideMovesSums(mid, users, symbol, t.sellerId, t.symbol, t.price, t.quantity, false);
    Opposite(t.quantity, t.price);
  }

  lemma Opposite(q: real, price: real)
    ensures Signed(true, q) + Signed(false, q) == 0.0
    ensures Signed(true, q) * price + Signed(false, q) * price == 0.0
  {}

  /** Per symbol, sizes sum to zero and so does realized plus unrealized PnL at any mark. */
  lemma ZeroSum(trades: seq<Trade>, users: seq<string>, symbol: string, mark: real)
    requires Tradable(trades) && Distinct(users) && Lists(users, trades, symbol)
    requires KeysApart(users, symbol, trades)
    ensures Sum(AfterTrades(trades), users, symbol, SIZE) == 0.0
    ensures Pnl(AfterTrades(trades), users, symbol, mark) == 0.0
  {
    SumsAreZero(trades, users, symbol);
    PnlIsSizeAndCost(AfterTrades(trades), users, symbol, mark);
  }

  /** With user ids of one length it holds for every symbol there is. */
  lemma ZeroSumForEverySymbol(trades: seq<Trade>, users: seq<string>, symbol: string, mark: real, n: nat)
    requires Tradable(trades) && Distinct(users) && Lists(users, trades, symbol) && OneLength(users, trades, n)
    ensures Sum(AfterTrades(trades), users, symbol, SIZE) == 0.0
    ensures Pnl(AfterTrades(trades), users, symbol, mark) == 0.0
  {
    OneLengthKeepsApart(users, symbol, trades, n);
    ZeroSum(trades, users, symbol, mark);
  }

  /**
   * A mark changes nothing but the unrealized PnL of an open position, which becomes size times the distance
   * from the entry unless it is within a cent of that already; marking again changes nothing.
   */
  lemma MarkingSettles(p: Position, mark: real)
    ensures
      var m, due := Marked(p, mark), p.size * (mark - p.averageEntryPrice);
      && m.(unrealizedPnl := p.unrealizedPnl) == p && Marked(m, mark) == m
      && (p.size == 0.0 ==> m == p)
      && (p.size != 0.0 ==>
            m.unrealizedPnl == if due - 0.01 <= p.unrealizedPnl <= due + 0.01 then p.unrealizedPnl else due)
  {
    var due := p.size * (mark - p.averageEntryPrice);
    assert Unrealized(p, mark) == due;
    hide Gain;
    assert Unrealized(Marked(p, mark), mark) == Unrealized(p, mark);
  }
}
