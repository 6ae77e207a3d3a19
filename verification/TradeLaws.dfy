/** Laws of the trades and quantities of a whole run. */
module TradeLaws {
  import opened PriceTime
  import opened BookLaws
  import opened RunLaws

  // ----- every trade is between two orders that were sent, on terms both accept ----------

  ghost predicate TradeOk(symbol: string, ms: seq<Msg>, t: Trade) {
    var a, b := Arrival(ms, t.makerOrderId), Arrival(ms, t.takerOrderId);
    && 0 <= a < b
    && var maker, taker := ms[a].order, ms[b].order;
       maker.side != taker.side && maker.price > 0 && Deal(symbol, taker, maker, t)
  }

  ghost predicate NoPairTwice(trades: seq<Trade>) {
    forall i, j | 0 <= i < j < |trades| ::
      trades[i].takerOrderId != trades[j].takerOrderId || trades[i].makerOrderId != trades[j].makerOrderId
  }

  lemma TradeOkIsStable(symbol: string, ms: seq<Msg>, m: Msg, t: Trade)
    requires FreshIds(ms + [m]) && TradeOk(symbol, ms, t)
    ensures TradeOk(symbol, ms + [m], t)
    ensures m.AddMsg? ==> t.takerOrderId != m.order.id
  {
    ArrivalIsStable(ms, m, t.makerOrderId);
    ArrivalIsStable(ms, m, t.takerOrderId);
  }

  lemma MatchTradesOk(symbol: string, ms: seq<Msg>, b: Book, o: Order)
    requires FreshIds(ms + [AddMsg(o)]) && WellFormed(b) && BookKnown(ms, b)
    ensures forall t | t in Match(symbol, b, o).trades :: TradeOk(symbol, ms + [AddMsg(o)], t)
    ensures forall t | t in Match(symbol, b, o).trades :: t.takerOrderId == o.id
    ensures NoPairTwice(Match(symbol, b, o).trades)
  {
    var makers, ms' := b.On(o.side.Other()), ms + [AddMsg(o)];
    var trades := Match(symbol, b, o).trades;
    WalkTrades(symbol, o, makers);
    SideKnownIsStable(ms, AddMsg(o), makers);
    NewcomerIsLast(ms, makers, o);
    forall i | 0 <= i < |trades| ensures TradeOk(symbol, ms', trades[i]) && trades[i].takerOrderId == o.id {
      assert makers[i] in makers && Known(ms', makers[i]);
    }
  }

  /** In every run with fresh ids, all trades are fair and no (taker, maker) pair trades twice. */
  lemma {:induction false} TradesAreFairAndDistinct(symbol: string, ms: seq<Msg>)
    requires FreshIds(ms)
    ensures forall t | t in Run(symbol, INITIAL, ms).trades :: TradeOk(symbol, ms, t)
    ensures NoPairTwice(Run(symbol, INITIAL, ms).trades)
  {
    if ms != [] {
      var n := |ms| - 1;
      var before, m := ms[..n], ms[n];
      assert ms == before + [m];
      TradesAreFairAndDistinct(symbol, before);
      ReachableBooks(symbol, before);
      var s := Run(symbol, INITIAL, before);
      forall t | t in s.trades ensures TradeOk(symbol, ms, t) && (m.AddMsg? ==> t.takerOrderId != m.order.id) {
        TradeOkIsStable(symbol, before, m, t);
      }
      if m.AddMsg? {
        MatchTradesOk(symbol, before, s.book, m.order);
        AppendKeepsPairs(s.trades, Match(symbol, s.book, m.order).trades, m.order.id);
      }
    }
  }

  lemma AppendKeepsPairs(a: seq<Trade>, b: seq<Trade>, taker: string)
    requires NoPairTwice(a) && NoPairTwice(b)
    requires forall t | t in a :: t.takerOrderId != taker
    requires forall t | t in b :: t.takerOrderId == taker
    ensures NoPairTwice(a + b)
  {
    var c := a + b;
    forall i, j | 0 <= i < j < |c|
      ensures c[i].takerOrderId != c[j].takerOrderId || c[i].makerOrderId != c[j].makerOrderId
    {
      if i < |a| <= j {
        assert c[i] in a && c[j] in b;
      }
    }
  }

  // ----- quantity conservation -----------------------------------------------------------

  function Quantity(q: seq<Order>, id: string): int {
    if q == [] then 0 else (if q[0].id == id then q[0].quantity else 0) + Quantity(q[1..], id)
  }

  function Placed(ms: seq<Msg>, id: string): int {
    if ms == [] then 0
    else Placed(ms[..|ms| - 1], id) + match ms[|ms| - 1]
      case AddMsg(o) => if o.id == id then o.quantity else 0
      case CancelMsg(_) => 0
  }

  function FilledAsTaker(trades: seq<Trade>, id: string): int {
    if trades == [] then 0
    else (if trades[0].takerOrderId == id then trades[0].quantity else 0) + FilledAsTaker(trades[1..], id)
  }

  function FilledAsMaker(trades: seq<Trade>, id: string): int {
    if trades == [] then 0
    else (if trades[0].makerOrderId == id then trades[0].quantity else 0) + FilledAsMaker(trades[1..], id)
  }

  lemma {:induction false} QuantityConcat(a: seq<Order>, b: seq<Order>, id: string)
    ensures Quantity(a + b, id) == Quantity(a, id) + Quantity(b, id)
  {
    if a == [] {
      assert a + b == b;
    } else {
      assert (a + b)[1..] == a[1..] + b;
      QuantityConcat(a[1..], b, id);
    }
  }

  lemma {:induction false} FilledConcat(a: seq<Trade>, b: seq<Trade>, id: string)
    ensures FilledAsTaker(a + b, id) == FilledAsTaker(a, id) + FilledAsTaker(b, id)
    ensures FilledAsMaker(a + b, id) == FilledAsMaker(a, id) + FilledAsMaker(b, id)
  {
    if a == [] {
      assert a + b == b;
    } else {
      assert (a + b)[1..] == a[1..] + b;
      FilledConcat(a[1..], b, id);
    }
  }

  lemma {:induction false} QuantityInsert(q: seq<Order>, o: Order, id: string)
    ensures Quantity(Insert(q, o), id) == Quantity(q, id) + Quantity([o], id)
  {
    if q != [] && !Better(o.side, o.price, q[0].price) {
      QuantityInsert(q[1..], o, id);
    }
  }

  lemma {:induction false} QuantityRemove(q: seq<Order>, cut: string, id: string)
    ensures Quantity(Remove(q, cut), id) + Quantity(WithId(q, cut), id) == Quantity(q, id)
  {
    if q != [] {
      QuantityRemove(q[1..], cut, id);
      QuantityConcat(if q[0].id == cut then [q[0]] else [], WithId(q[1..], cut), id);
    }
  }

  lemma {:induction false} WalkConserves(symbol: string, taker: Order, makers: seq<Order>, id: string)
    ensures var w := Walk(symbol, taker, makers);
      && Quantity(makers, id) == FilledAsMaker(w.trades, id) + Quantity(w.rest, id)
      && taker.quantity - w.left == FilledAsTaker(w.trades, taker.id)
      && (id != taker.id ==> FilledAsTaker(w.trades, id) == 0)
    decreases |makers|
  {
    if makers != [] && taker.quantity > 0 && Crosses(taker, makers[0].price) {
      var q := Min(taker.quantity, makers[0].quantity);
      if q == makers[0].quantity {
        WalkConserves(symbol, taker.(quantity := taker.quantity - q), makers[1..], id);
      }
    }
  }

  function Accounted(s: State, id: string): int {
    FilledAsTaker(s.trades, id) + FilledAsMaker(s.trades, id)
    + Quantity(s.book.bids, id) + Quantity(s.book.asks, id)
    + Quantity(s.cancelled, id) + Quantity(s.discarded, id)
  }

  lemma AddConserves(symbol: string, s: State, o: Order, id: string)
    ensures Accounted(Step(symbol, s, AddMsg(o)), id) == Accounted(s, id) + if o.id == id then o.quantity else 0
  {
    var w := Match(symbol, s.book, o);
    WalkConserves(symbol, o, s.book.On(o.side.Other()), id);
    FilledConcat(s.trades, w.trades, id);
    var remainder := o.(quantity := w.left);
    if Rests(o, w) {
      QuantityInsert(s.book.On(o.side), remainder, id);
      assert s.discarded + [] == s.discarded;
    } else {
      QuantityConcat(s.discarded, [remainder], id);
    }
  }

  lemma CancelConserves(symbol: string, s: State, cut: string, id: string)
    ensures Accounted(Step(symbol, s, CancelMsg(cut)), id) == Accounted(s, id)
  {
    QuantityRemove(s.book.bids, cut, id);
    QuantityRemove(s.book.asks, cut, id);
    QuantityConcat(s.cancelled, WithId(s.book.bids, cut), id);
    QuantityConcat(s.cancelled + WithId(s.book.bids, cut), WithId(s.book.asks, cut), id);
  }

  /**
   * Quantity sent under an id = filled as taker + filled as maker + resting + cancelled + discarded,
   * for every run, with or without fresh ids.
   */
  lemma {:induction false} QuantityIsConserved(symbol: string, ms: seq<Msg>, id: string)
    ensures Placed(ms, id) == Accounted(Run(symbol, INITIAL, ms), id)
  {
    if ms != [] {
      var before, m := ms[..|ms| - 1], ms[|ms| - 1];
      QuantityIsConserved(symbol, before, id);
      match m
      case AddMsg(o) => AddConserves(symbol, Run(symbol, INITIAL, before), o, id);
      case CancelMsg(cut) => CancelConserves(symbol, Run(symbol, INITIAL, before), cut, id);
    }
  }

  /** Only what is left of market orders is ever discarded, and only what a cancel names is cancelled. */
  lemma {:induction false} OnlyMarketOrdersAreDiscarded(symbol: string, ms: seq<Msg>)
    ensures forall o | o in Run(symbol, INITIAL, ms).discarded :: o.price <= 0 || o.quantity <= 0
    ensures forall o | o in Run(symbol, INITIAL, ms).cancelled :: CancelMsg(o.id) in ms
  {
    if ms != [] {
      var before, m := ms[..|ms| - 1], ms[|ms| - 1];
      OnlyMarketOrdersAreDiscarded(symbol, before);
      assert ms == before + [m];
      if m.CancelMsg? {
        WithIdMembers(Run(symbol, INITIAL, before).book.bids, m.id);
        WithIdMembers(Run(symbol, INITIAL, before).book.asks, m.id);
      }
    }
  }

  // ----- a resting order is what it was sent with, minus what it traded -------------------

  ghost predicate Absent(b: Book, id: string) {
    LacksId(b.bids, id) && LacksId(b.asks, id)
  }

  ghost predicate GoneForGood(ms: seq<Msg>, b: Book, gone: seq<Order>) {
    forall x | x in gone :: Arrival(ms, x.id) >= 0 && Absent(b, x.id)
  }

  lemma {:induction false} WithIdMembers(q: seq<Order>, id: string)
    ensures forall x :: x in WithId(q, id) <==> x in q && x.id == id
  {
    if q != [] {
      WithIdMembers(q[1..], id);
      assert q == [q[0]] + q[1..];
    }
  }

  lemma AddKeepsAbsent(symbol: string, b: Book, o: Order, id: string)
    requires WellFormed(b) && Absent(b, id)
    requires id != o.id || !Rests(o, Match(symbol, b, o))
    ensures Absent(Add(symbol, b, o), id)
  {
    var makers, w := b.On(o.side.Other()), Match(symbol, b, o);
    RestMembers(symbol, o, makers);
    forall x | x in w.rest ensures x.id != id {
      assert IsRemainder(x, makers);
    }
    if Rests(o, w) {
      InsertMembers(b.On(o.side), o.(quantity := w.left));
    }
  }

  lemma StepKeepsAbsent(symbol: string, s: State, m: Msg, id: string)
    requires WellFormed(s.book) && Absent(s.book, id)
    requires m.AddMsg? ==> id != m.order.id || !Rests(m.order, Match(symbol, s.book, m.order))
    ensures Absent(Step(symbol, s, m).book, id)
  {
    match m
    case AddMsg(o) => AddKeepsAbsent(symbol, s.book, o, id);
    case CancelMsg(cut) => CancelUnknownKeeps(s.book, cut, id);
  }

  lemma CancelUnknownKeeps(b: Book, cut: string, id: string)
    requires WellFormed(b)
    ensures Absent(b, id) || id == cut ==> Absent(Cancel(b, cut), id)
  {
    RemoveMembers(b.bids, cut);
    RemoveMembers(b.asks, cut);
  }

  lemma GoneStaysGone(symbol: string, ms: seq<Msg>, s: State, m: Msg, gone: seq<Order>)
    requires FreshIds(ms + [m]) && WellFormed(s.book) && GoneForGood(ms, s.book, gone)
    ensures GoneForGood(ms + [m], Step(symbol, s, m).book, gone)
  {
    forall x | x in gone ensures Arrival(ms + [m], x.id) >= 0 && Absent(Step(symbol, s, m).book, x.id) {
      ArrivalIsStable(ms, m, x.id);
      StepKeepsAbsent(symbol, s, m, x.id);
    }
  }

  lemma {:induction false} CancelledAndDiscardedAreGone(symbol: string, ms: seq<Msg>)
    requires FreshIds(ms)
    ensures var s := Run(symbol, INITIAL, ms); GoneForGood(ms, s.book, s.cancelled + s.discarded)
  {
    if ms != [] {
      var before, m := ms[..|ms| - 1], ms[|ms| - 1];
      assert ms == before + [m];
      CancelledAndDiscardedAreGone(symbol, before);
      ReachableBooks(symbol, before);
      var s := Run(symbol, INITIAL, before);
      GoneStaysGone(symbol, before, s, m, s.cancelled + s.discarded);
      NewlyGone(symbol, before, s, m);
    }
  }

  lemma NewlyGone(symbol: string, ms: seq<Msg>, s: State, m: Msg)
    requires FreshIds(ms + [m]) && WellFormed(s.book) && BookKnown(ms, s.book)
    ensures var s' := Step(symbol, s, m);
      && GoneForGood(ms + [m], s'.book, s'.cancelled[|s.cancelled|..])
      && GoneForGood(ms + [m], s'.book, s'.discarded[|s.discarded|..])
  {
    var s' := Step(symbol, s, m);
    match m
    case CancelMsg(id) =>
      var cut := s'.cancelled[|s.cancelled|..];
      assert cut == WithId(s.book.bids, id) + WithId(s.book.asks, id);
      forall x | x in cut ensures Arrival(ms + [m], x.id) >= 0 && Absent(s'.book, x.id) {
        WithIdMembers(s.book.bids, id);
        WithIdMembers(s.book.asks, id);
        ArrivalIsStable(ms, m, x.id);
        CancelUnknownKeeps(s.book, id, x.id);
      }
    case AddMsg(o) =>
      hide WellFormed, BookKnown, Known, InTimeOrder;
      NewcomerIsLast(ms, s.book.bids, o);
      if !Rests(o, Match(symbol, s.book, o)) {
        SideKnownIsStable(ms, m, s.book.bids);
        SideKnownIsStable(ms, m, s.book.asks);
        AddKeepsAbsent(symbol, s.book, o, o.id);
      }
  }

  lemma {:induction false} QuantityOfUnique(q: seq<Order>, x: Order)
    requires UniqueIds(q) && x in q
    ensures Quantity(q, x.id) == x.quantity
  {
    if q[0] == x {
      QuantityOfAbsent(q[1..], x.id);
    } else {
      var i :| 0 < i < |q| && q[i] == x;
      assert q[1..][i - 1] == x;
      QuantityOfUnique(q[1..], x);
    }
  }

  lemma {:induction false} QuantityOfAbsent(q: seq<Order>, id: string)
    requires forall i | 0 <= i < |q| :: q[i].id != id
    ensures Quantity(q, id) == 0
  {
    if q != [] {
      QuantityOfAbsent(q[1..], id);
    }
  }

  /** Hence an order that is fully filled no longer rests, and cancelling it changes nothing. */
  lemma RestingIsSentMinusFilled(symbol: string, ms: seq<Msg>, x: Order)
    requires FreshIds(ms)
    requires var b := Run(symbol, INITIAL, ms).book; x in b.bids || x in b.asks
    ensures var s := Run(symbol, INITIAL, ms);
      x.quantity == Placed(ms, x.id) - FilledAsTaker(s.trades, x.id) - FilledAsMaker(s.trades, x.id)
    ensures x.quantity > 0
  {
    var s := Run(symbol, INITIAL, ms);
    ReachableBooks(symbol, ms);
    QuantityIsConserved(symbol, ms, x.id);
    CancelledAndDiscardedAreGone(symbol, ms);
    var gone := s.cancelled + s.discarded;
    forall i | 0 <= i < |gone| ensures gone[i].id != x.id {
      assert gone[i] in gone;
    }
    QuantityOfAbsent(gone, x.id);
    QuantityConcat(s.cancelled, s.discarded, x.id);
    if x in s.book.bids {
      QuantityOfUnique(s.book.bids, x);
      QuantityOfAbsent(s.book.asks, x.id);
    } else {
      QuantityOfUnique(s.book.asks, x);
      assert forall y | y in s.book.bids :: y.id != x.id;
      assert forall i | 0 <= i < |s.book.bids| :: s.book.bids[i] in s.book.bids;
      QuantityOfAbsent(s.book.bids, x.id);
    }
  }
}
