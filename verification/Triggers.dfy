/** Stop and take-profit triggers in per-symbol buckets. One step is what a handler does between two awaits. */
module TriggerEngines {
  import PT = PriceTime

  datatype Kind = STOP | STOP_LIMIT | TAKE_PROFIT | OTHER

  /** An order waiting for its trigger, as loaded; a price of 0 is an absent price. */
  datatype Waiting = Waiting(id: string, symbol: string, side: PT.Side, kind: Kind, triggerPrice: int, stopPrice: int)

  datatype Trigger = Trigger(id: string, symbol: string, side: PT.Side, kind: Kind, triggerPrice: int)

  type Buckets = map<string, seq<Trigger>>

  function At(buckets: Buckets, symbol: string): seq<Trigger> {
    if symbol in buckets then buckets[symbol] else []
  }

  datatype Registry = Stops | TakeProfits

  /** A sell stop or a buy take-profit fires at or below its price, the others at or above. */
  predicate Fires(r: Registry, t: Trigger, price: int) {
    if r.Stops? == t.side.Sell? then price <= t.triggerPrice else price >= t.triggerPrice
  }

  function Satisfied(r: Registry, bucket: seq<Trigger>, price: int): seq<Trigger> {
    if bucket == [] then []
    else
      var n := |bucket| - 1;
      Satisfied(r, bucket[..n], price) + if Fires(r, bucket[n], price) then [bucket[n]] else []
  }

  /** filter(t => t.id !== id) */
  function Without(bucket: seq<Trigger>, id: string): seq<Trigger> {
    if bucket == [] then []
    else
      var n := |bucket| - 1;
      Without(bucket[..n], id) + if bucket[n].id != id then [bucket[n]] else []
  }

  function Removed(buckets: Buckets, id: string, symbol: string): Buckets {
    if symbol in buckets then buckets[symbol := Without(buckets[symbol], id)] else buckets
  }

  /** The registries, what the evaluation in progress has still to fire, and the ORDER_TRIGGERED events so far. */
  datatype State = State(stops: Buckets, takeProfits: Buckets, triggered: seq<Trigger>, fired: seq<Trigger>) {
    function On(r: Registry): Buckets {
      if r.Stops? then stops else takeProfits
    }
  }

  const INITIAL := State.State(map[], map[], [], [])

  /** What becomes of a fired event: published, only stored, or neither; the last two end the evaluation. */
  datatype Answer = Published | NotPublished | NotStored

  datatype Event =
    | Add(order: Waiting)
    | Remove(id: string, symbol: string)
    | Tick(symbol: string, price: int)
    | Fire(answer: Answer)

  function TriggerOf(w: Waiting): Trigger {
    Trigger(w.id, w.symbol, w.side, w.kind, if w.triggerPrice != 0 then w.triggerPrice else w.stopPrice)
  }

  function Step(s: State, e: Event): State {
    match e
    case Add(w) =>
      if w.triggerPrice == 0 && w.stopPrice == 0 then s
      else if w.kind.STOP? || w.kind.STOP_LIMIT? then
        s.(stops := s.stops[w.symbol := At(s.stops, w.symbol) + [TriggerOf(w)]])
      else if w.kind.TAKE_PROFIT? then
        s.(takeProfits := s.takeProfits[w.symbol := At(s.takeProfits, w.symbol) + [TriggerOf(w)]])
      else s
    case Remove(id, symbol) =>
      s.(stops := Removed(s.stops, id, symbol), takeProfits := Removed(s.takeProfits, id, symbol))
    case Tick(symbol, price) =>
      s.(triggered := Satisfied(Stops, At(s.stops, symbol), price) + Satisfied(TakeProfits, At(s.takeProfits, symbol), price))
    case Fire(answer) =>
      if s.triggered == [] then s
      else
        var t := s.triggered[0];
        State.State(Removed(s.stops, t.id, t.symbol), Removed(s.takeProfits, t.id, t.symbol),
                    if answer.Published? then s.triggered[1..] else [],
                    if answer.NotStored? then s.fired else s.fired + [t])
  }

  class TriggerEngine {
    var stopBuckets: Buckets
    var takeProfitBuckets: Buckets
    var triggered: seq<Trigger>
    var fired: seq<Trigger>

    ghost function View(): State reads this {
      State.State(stopBuckets, takeProfitBuckets, triggered, fired)
    }

    constructor ()
      ensures View() == INITIAL
    {
      stopBuckets, takeProfitBuckets, triggered, fired := map[], map[], [], [];
    }

    method AddTrigger(order: Waiting)
      modifies this
      ensures View() == Step(old(View()), Add(order))
    {
      if order.triggerPrice == 0 && order.stopPrice == 0 {
        return;
      }
      var price := if order.triggerPrice != 0 then order.triggerPrice else order.stopPrice;
      var trigger := Trigger(order.id, order.symbol, order.side, order.kind, price);
      if order.kind == STOP || order.kind == STOP_LIMIT {
        var bucket := At(stopBuckets, order.symbol);
        bucket := bucket + [trigger];
        stopBuckets := stopBuckets[order.symbol := bucket];
      } else if order.kind == TAKE_PROFIT {
        var bucket := At(takeProfitBuckets, order.symbol);
        bucket := bucket + [trigger];
        takeProfitBuckets := takeProfitBuckets[order.symbol := bucket];
      }
    }

    method RemoveTrigger(orderId: string, symbol: string)
      modifies `stopBuckets, `takeProfitBuckets
      ensures View() == Step(old(View()), Remove(orderId, symbol))
    {
      if symbol in stopBuckets {
        stopBuckets := stopBuckets[symbol := Without(stopBuckets[symbol], orderId)];
      }
      if symbol in takeProfitBuckets {
        takeProfitBuckets := takeProfitBuckets[symbol := Without(takeProfitBuckets[symbol], orderId)];
      }
    }

    /** evaluateTriggers up to its first await; the ticks are handled one after the other. */
    method EvaluateTriggers(symbol: string, currentPrice: int)
      requires triggered == []
      modifies `triggered
      ensures View() == Step(old(View()), Tick(symbol, currentPrice))
    {
      var stops, takeProfits := At(stopBuckets, symbol), At(takeProfitBuckets, symbol);
      for i := 0 to |stops|
        invariant triggered == Satisfied(Stops, stops[..i], currentPrice)
      {
        var stop := stops[i];
        assert stops[..i + 1][..i] == stops[..i];
        if stop.side.Sell? && currentPrice <= stop.triggerPrice {
          triggered := triggered + [stop];
        } else if stop.side.Buy? && currentPrice >= stop.triggerPrice {
          triggered := triggered + [stop];
        }
      }
      assert stops[..|stops|] == stops;
      ghost var first := triggered;
      for i := 0 to |takeProfits|
        invariant triggered == first + Satisfied(TakeProfits, takeProfits[..i], currentPrice)
      {
        var tp := takeProfits[i];
        assert takeProfits[..i + 1][..i] == takeProfits[..i];
        if tp.side.Sell? && currentPrice >= tp.triggerPrice {
          triggered := triggered + [tp];
        } else if tp.side.Buy? && currentPrice <= tp.triggerPrice {
          triggered := triggered + [tp];
        }
      }
      assert takeProfits[..|takeProfits|] == takeProfits;
    }

    /** The next round of the firing loop; an event that cannot be stored or published ends the evaluation. */
    method FireOne(answer: Answer)
      requires triggered != []
      modifies this
      ensures View() == Step(old(View()), Fire(answer))
    {
      var order := triggered[0];
      RemoveTrigger(order.id, order.symbol);
      if answer == NotStored {
        triggered := [];
        return;
      }
      fired := fired + [order];
      triggered := if answer == Published then triggered[1..] else [];
    }
  }
}
