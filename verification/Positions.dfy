/** The in-memory position engine. Exact reals stand for the source's doubles. */
module Positions {
  import opened Keys
  import opened Wrappers

  /** A position as a value. */
  datatype Position = Position(
    size: real, averageEntryPrice: real, realizedPnl: real, unrealizedPnl: real,
    marginUsed: real, liquidationPrice: Option<real>, leverage: real)

  const FLAT := Position(0.0, 0.0, 0.0, 0.0, 0.0, None, 1.0)

  function Abs(x: real): real {
    if x < 0.0 then -x else x
  }

  function Sign(x: real): int {
    if x > 0.0 then 1 else if x < 0.0 then -1 else 0
  }

  function MinReal(a: real, b: real): real {
    if a < b then a else b
  }

  function Signed(isBuy: bool, quantity: real): real {
    if isBuy then quantity else -quantity
  }

  /** The trade points the way the position already does, or opens one. */
  predicate ScalesIn(p: Position, isBuy: bool, quantity: real) {
    Sign(p.size) == Sign(Signed(isBuy, quantity)) || p.size == 0.0
  }

  /** Notional of the old position and the trade, spread over the new size. */
  function BlendedEntry(size: real, entry: real, quantity: real, price: real, newSize: real): real
    requires newSize != 0.0
  {
    (Abs(size) * entry + quantity * price) / Abs(newSize)
  }

  function Gain(quantity: real, perUnit: real): real {
    quantity * perUnit
  }

  function LongLiquidation(entry: real, leverage: real): real
    requires leverage != 0.0
  {
    entry * (1.0 - 1.0 / leverage)
  }

  function ShortLiquidation(entry: real, leverage: real): real
    requires leverage != 0.0
  {
    entry * (1.0 + 1.0 / leverage)
  }

  function OpenMargin(size: real, entry: real, leverage: real): real
    requires leverage != 0.0
  {
    (Abs(size) * entry) / leverage
  }

  function EntryAfter(p: Position, isBuy: bool, price: real, quantity: real): real
    requires quantity > 0.0
  {
    var newSize := p.size + Signed(isBuy, quantity);
    if ScalesIn(p, isBuy, quantity) then BlendedEntry(p.size, p.averageEntryPrice, quantity, price, newSize)
    else if quantity > Abs(p.size) then price
    else if newSize == 0.0 then 0.0
    else p.averageEntryPrice
  }

  function RealizedAfter(p: Position, isBuy: bool, price: real, quantity: real): real {
    if ScalesIn(p, isBuy, quantity) then p.realizedPnl
    else p.realizedPnl + Gain(MinReal(Abs(p.size), quantity),
                              if isBuy then p.averageEntryPrice - price else price - p.averageEntryPrice)
  }

  function Margin(size: real, entry: real, leverage: real): real
    requires leverage != 0.0
  {
    if size == 0.0 then 0.0 else OpenMargin(size, entry, leverage)
  }

  function Liquidation(size: real, entry: real, leverage: real): Option<real>
    requires leverage != 0.0
  {
    if size > 0.0 then Some(LongLiquidation(entry, leverage))
    else if size < 0.0 then Some(ShortLiquidation(entry, leverage))
    else None
  }

  /** One side of a trade. */
  function Apply(p: Position, isBuy: bool, price: real, quantity: real): (r: Position)
    requires quantity > 0.0 && p.leverage != 0.0
    ensures r.leverage == p.leverage
  {
    var size, entry := p.size + Signed(isBuy, quantity), EntryAfter(p, isBuy, price, quantity);
    p.(size := size, averageEntryPrice := entry, realizedPnl := RealizedAfter(p, isBuy, price, quantity),
       marginUsed := Margin(size, entry, p.leverage), liquidationPrice := Liquidation(size, entry, p.leverage))
  }

  function Unrealized(p: Position, mark: real): real {
    Gain(p.size, mark - p.averageEntryPrice)
  }

  /** A mark refreshes the stored unrealized PnL of an open position, unless it is within a cent. */
  function Marked(p: Position, mark: real): Position {
    if p.size == 0.0 || Abs(p.unrealizedPnl - Unrealized(p, mark)) <= 0.01 then p
    else p.(unrealizedPnl := Unrealized(p, mark))
  }

  lemma ShortGain(size: real, entry: real, mark: real)
    requires size < 0.0
    ensures Gain(Abs(size), entry - mark) == Gain(size, mark - entry)
  {}

  class PositionState {
    const userId: string
    const symbol: string
    var size: real
    var averageEntryPrice: real
    var realizedPnl: real
    var unrealizedPnl: real
    var marginUsed: real
    var liquidationPrice: Option<real>
    var leverage: real
    var isDirty: bool

    constructor (userId: string, symbol: string)
      ensures Value() == FLAT && this.userId == userId && this.symbol == symbol
    {
      this.userId, this.symbol := userId, symbol;
      size, averageEntryPrice, realizedPnl, unrealizedPnl, marginUsed := 0.0, 0.0, 0.0, 0.0, 0.0;
      liquidationPrice, leverage, isDirty := None, 1.0, false;
    }

    ghost function Value(): Position
      reads this
    {
      Position(size, averageEntryPrice, realizedPnl, unrealizedPnl, marginUsed, liquidationPrice, leverage)
    }

    /** The body of processSide, once the position is found. */
    method ProcessFill(price: real, quantity: real, isBuy: bool)
      requires quantity > 0.0 && leverage != 0.0
      modifies this
      ensures Value() == Apply(old(Value()), isBuy, price, quantity) && isDirty
    {
      hide BlendedEntry, Gain, LongLiquidation, ShortLiquidation, OpenMargin;
      var currentSize, avgEntry, realized := size, averageEntryPrice, realizedPnl;
      var tradeQty := if isBuy then quantity else -quantity;
      var newSize := currentSize + tradeQty;
      var newAvgEntry := avgEntry;
      if Sign(currentSize) == Sign(tradeQty) || currentSize == 0.0 {
        newAvgEntry := BlendedEntry(currentSize, avgEntry, quantity, price, newSize);
      } else {
        var reducedQty := MinReal(Abs(currentSize), quantity);
        var pnlPerUnit := if isBuy then avgEntry - price else price - avgEntry;
        realized := realized + Gain(reducedQty, pnlPerUnit);
        if Abs(tradeQty) > Abs(currentSize) {
          newAvgEntry := price;
        } else if newSize == 0.0 {
          newAvgEntry := 0.0;
        }
      }
      var newMarginUsed := if newSize == 0.0 then 0.0 else OpenMargin(newSize, newAvgEntry, leverage);
      var liqPrice: Option<real> := None;
      if newSize > 0.0 { liqPrice := Some(LongLiquidation(newAvgEntry, leverage)); }
      if newSize < 0.0 { liqPrice := Some(ShortLiquidation(newAvgEntry, leverage)); }
      size, averageEntryPrice, realizedPnl := newSize, newAvgEntry, realized;
      marginUsed, liquidationPrice, isDirty := newMarginUsed, liqPrice, true;
    }

    /** The body of markToMarket for one position of the symbol. */
    method Mark(currentPrice: real)
      modifies this
      ensures Value() == Marked(old(Value()), currentPrice)
      ensures isDirty == (old(isDirty) || Value() != old(Value()))
    {
      hide Gain;
      if size != 0.0 {
        var newUnrealized := 0.0;
        if size > 0.0 {
          newUnrealized := Gain(size, currentPrice - averageEntryPrice);
        } else if size < 0.0 {
          newUnrealized := Gain(Abs(size), averageEntryPrice - currentPrice);
          ShortGain(size, averageEntryPrice, currentPrice);
        }
        if Abs(unrealizedPnl - newUnrealized) > 0.01 {
          unrealizedPnl := newUnrealized;
          isDirty := true;
        }
      }
    }
  }

  type Portfolio = map<string, Position>

  function At(ps: Portfolio, key: string): Position {
    if key in ps then ps[key] else FLAT
  }

  ghost predicate Levered(ps: Portfolio) {
    forall k | k in ps :: ps[k].leverage != 0.0
  }

  function Side(ps: Portfolio, userId: string, symbol: string, price: real, quantity: real, isBuy: bool): Portfolio
    requires quantity > 0.0 && At(ps, Join(userId, symbol)).leverage != 0.0
  {
    var key := Join(userId, symbol);
    ps[key := Apply(At(ps, key), isBuy, price, quantity)]
  }

  datatype Trade = Trade(symbol: string, price: real, quantity: real, buyerId: string, sellerId: string)

  function Executed(ps: Portfolio, t: Trade): (r: Portfolio)
    requires t.quantity > 0.0 && Levered(ps)
    ensures Levered(r)
  {
    Side(Side(ps, t.buyerId, t.symbol, t.price, t.quantity, true), t.sellerId, t.symbol, t.price, t.quantity, false)
  }

  class PositionEngine {
    var positions: map<string, PositionState>

    constructor ()
      ensures Valid() && View() == map[]
    {
      positions := map[];
    }

    ghost predicate Valid()
      reads this, positions.Values
    {
      && (forall k, k' | k in positions && k' in positions && k != k' :: positions[k] != positions[k'])
      && (forall k | k in positions :: positions[k].leverage != 0.0)
      && Keyed()
    }

    /** Every position is stored under the key of its user and symbol. */
    ghost predicate Keyed()
      reads `positions
    {
      forall k | k in positions :: k == Join(positions[k].userId, positions[k].symbol)
    }

    ghost function View(): Portfolio
      reads this, positions.Values
    {
      map k | k in positions :: positions[k].Value()
    }

    /** Looks a position up, opening a flat one if there is none. */
    method Find(userId: string, symbol: string) returns (pos: PositionState)
      requires Valid()
      modifies `positions
      ensures Valid() && Join(userId, symbol) in positions && positions[Join(userId, symbol)] == pos
      ensures View() == old(View())[Join(userId, symbol) := At(old(View()), Join(userId, symbol))]
      ensures pos.Value() == At(old(View()), Join(userId, symbol))
      ensures fresh(positions.Values - old(positions.Values))
    {
      hide Join;
      var key := Join(userId, symbol);
      if key !in positions {
        pos := new PositionState(userId, symbol);
        positions := positions[key := pos];
      } else {
        pos := positions[key];
      }
    }

    method ProcessSide(userId: string, symbol: string, price: real, quantity: real, isBuy: bool)
      requires Valid() && quantity > 0.0
      modifies this, positions.Values
      ensures Valid() && View() == Side(old(View()), userId, symbol, price, quantity, isBuy)
      ensures fresh(positions.Values - old(positions.Values))
    {
      hide Apply, Join, PositionEngine.Keyed;
      var pos := Find(userId, symbol);
      pos.ProcessFill(price, quantity, isBuy);
      KeepsLeverage(At(old(View()), Join(userId, symbol)), isBuy, price, quantity);
    }

    method HandleTradeExecution(t: Trade)
      requires Valid() && t.quantity > 0.0
      modifies this, positions.Values
      ensures Valid() && View() == Executed(old(View()), t)
    {
      ProcessSide(t.buyerId, t.symbol, t.price, t.quantity, true);
      ProcessSide(t.sellerId, t.symbol, t.price, t.quantity, false);
    }

    /** Marks every position of the symbol, and no other. */
    method MarkToMarket(symbol: string, currentPrice: real)
      requires Valid()
      modifies positions.Values
      ensures Valid() && View().Keys == old(View()).Keys
      ensures forall k | k in positions ::
        View()[k] == if positions[k].symbol == symbol then Marked(old(View())[k], currentPrice) else old(View())[k]
    {
      hide Marked, Join, PositionEngine.Keyed;
      var todo := positions.Keys;
      while todo != {}
        invariant todo <= positions.Keys
        invariant forall k | k in todo :: positions[k].Value() == old(positions[k].Value())
        invariant forall k | k in positions && k !in todo ::
          positions[k].Value() == (if positions[k].symbol == symbol then Marked(old(positions[k].Value()), currentPrice)
                                   else old(positions[k].Value()))
        decreases todo
      {
        var k :| k in todo;
        if positions[k].symbol == symbol {
          MarkedKeepsLeverage(positions[k].Value(), currentPrice);
          positions[k].Mark(currentPrice);
        }
        todo := todo - {k};
      }
      forall k | k in positions ensures positions[k].leverage != 0.0 {
        MarkedKeepsLeverage(old(positions[k].Value()), currentPrice);
      }
    }
  }

  lemma MarkedKeepsLeverage(p: Position, mark: real)
    ensures Marked(p, mark).leverage == p.leverage
  {}

  lemma KeepsLeverage(p: Position, isBuy: bool, price: real, quantity: real)
    requires quantity > 0.0 && p.leverage != 0.0
    ensures Apply(p, isBuy, price, quantity).leverage == p.leverage
  {}
}
