/** The main thread's side of matching: fills go into the event log, depths into a cache. */
module MatchingEngines {
  import PriceTime
  import Workers
  import opened EventStores
  import opened OmsEngines

  class MatchingEngine {
    const store: EventStore
    var orderBookCache: map<string, Workers.Depth>

    constructor (store: EventStore)
      ensures this.store == store && orderBookCache == map[]
    {
      this.store := store;
      orderBookCache := map[];
    }

    method OnWorkerMessage(msg: Workers.Posted) returns (published: bool)
      modifies this, store
      ensures match msg
        case TradeExecuted(t) =>
          && orderBookCache == old(orderBookCache)
          && published == !Taken(old(store.log), t.takerOrderId + "-" + t.makerOrderId)
          && store.log == Appended(old(store.log),
               Event(t.takerOrderId, TRADE_EXECUTED, Executed(t), t.takerOrderId + "-" + t.makerOrderId))
        case DepthUpdate(symbol, bids, asks) =>
          orderBookCache == old(orderBookCache)[symbol := Workers.Depth(bids, asks)] && store.log == old(store.log)
    {
      match msg
      case TradeExecuted(t) =>
        published := store.Append(FillOf(t));
      case DepthUpdate(symbol, bids, asks) =>
        orderBookCache := orderBookCache[symbol := Workers.Depth(bids, asks)];
        published := true;
    }

    /** Handles everything a worker posted, one message after the other. */
    method Drain(posted: seq<Workers.Posted>)
      modifies this, store
      ensures store.log == Recorded(old(store.log), Workers.TradesIn(posted))
      ensures forall s :: GetOrderBookDepth(s) == Workers.Shown(old(GetOrderBookDepth(s)), posted, s)
    {
      assert posted[0..] == posted;
      for i := 0 to |posted|
        invariant Recorded(store.log, Workers.TradesIn(posted[i..])) ==
                  Recorded(old(store.log), Workers.TradesIn(posted))
        invariant forall s :: GetOrderBookDepth(s) == Workers.Shown(old(GetOrderBookDepth(s)), posted[..i], s)
      {
        assert posted[i..][1..] == posted[i + 1..] && posted[..i + 1][..i] == posted[..i];
        var _ := OnWorkerMessage(posted[i]);
        ghost var rest := Workers.TradesIn(posted[i + 1..]);
        if posted[i].TradeExecuted? {
          assert Workers.TradesIn(posted[i..]) == [posted[i].trade] + rest && ([posted[i].trade] + rest)[1..] == rest;
        } else {
          assert Workers.TradesIn(posted[i..]) == [] + rest == rest;
        }
      }
      assert posted[..|posted|] == posted;
    }

    function GetOrderBookDepth(symbol: string): (d: Workers.Depth)
      reads this
    {
      if symbol in orderBookCache then orderBookCache[symbol] else Workers.NO_DEPTH
    }
  }

  function Recorded(log: Log, trades: seq<PriceTime.Trade>): Log
    decreases |trades|
  {
    if trades == [] then log else Recorded(Appended(log, FillOf(trades[0])), trades[1..])
  }

  /**
   * Worker and main thread together: the log records the trades of all books in order, and the cache
   * shows the top of every book, whatever messages with fresh order ids were sent.
   */
  method Serve(msgs: seq<Workers.Message>) returns (engine: MatchingEngine)
    requires forall s | s != "" :: PriceTime.FreshIds(Workers.For(msgs, s))
    ensures engine.store.log == Recorded([], Workers.Published(msgs))
    ensures forall s | s != "" ::
      engine.GetOrderBookDepth(s) == Workers.DepthOf(PriceTime.Run(s, PriceTime.INITIAL, Workers.For(msgs, s)).book)
  {
    hide Recorded, Workers.Shown, Workers.DepthOf, PriceTime.Run, Workers.For, Workers.Published, PriceTime.FreshIds,
      Workers.InStep, Workers.Worker.Valid;
    var w, posted := Workers.Replay(msgs);
    forall s | s != ""
      ensures Workers.Shown(Workers.NO_DEPTH, posted, s)
              == Workers.DepthOf(PriceTime.Run(s, PriceTime.INITIAL, Workers.For(msgs, s)).book)
    {
      Workers.InStepBook(s, Workers.BookAt(w.orderBooks, s), Workers.TradesIn(posted), msgs);
    }
    var store := new EventStore();
    engine := new MatchingEngine(store);
    engine.Drain(posted);
  }
}
