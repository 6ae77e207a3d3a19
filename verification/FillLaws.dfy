/** From the worker to the log: no trade of any run is lost, and what can go wrong with other order ids. */
module FillLaws {
  import opened PriceTime
  import BookLaws
  import opened RunLaws
  import opened TradeLaws
  import opened Workers
  import opened Keys
  import EventStores
  import OmsEngines
  import FillRecords
  import OmsLaws
  import MatchingEngines

  /** No two ADD_ORDER messages carry the same order id, whatever their symbols. */
  ghost predicate FreshOrders(msgs: seq<Message>) {
    forall i, j | 0 <= i < j < |msgs| && msgs[i].body.AddOrder? && msgs[j].body.AddOrder? ::
      msgs[i].body.order.id != msgs[j].body.order.id
  }

  ghost predicate Sent(msgs: seq<Message>, id: string) {
    exists i :: 0 <= i < |msgs| && msgs[i].body.AddOrder? && msgs[i].body.order.id == id
  }

  lemma {:induction false} ForComesFrom(msgs: seq<Message>, symbol: string)
    ensures forall i | 0 <= i < |For(msgs, symbol)| && For(msgs, symbol)[i].AddMsg? ::
      Sent(msgs, For(msgs, symbol)[i].order.id)
  {
    if msgs != [] {
      var n := |msgs| - 1;
      ForComesFrom(msgs[..n], symbol);
      forall i | 0 <= i < |For(msgs, symbol)| && For(msgs, symbol)[i].AddMsg?
        ensures Sent(msgs, For(msgs, symbol)[i].order.id)
      {
        if i < |For(msgs[..n], symbol)| {
          var k :| 0 <= k < n && msgs[..n][k].body.AddOrder? && msgs[..n][k].body.order.id == For(msgs, symbol)[i].order.id;
          assert msgs[k] == msgs[..n][k];
        } else {
          assert msgs[n].body.AddOrder?;
        }
      }
    }
  }

  lemma {:induction false} FreshEverywhere(msgs: seq<Message>, symbol: string)
    requires FreshOrders(msgs)
    ensures FreshIds(For(msgs, symbol))
  {
    if msgs != [] {
      var n := |msgs| - 1;
      FreshEverywhere(msgs[..n], symbol);
      ForComesFrom(msgs[..n], symbol);
    }
  }

  /** Across all symbols, no pair of orders trades twice. */
  lemma {:induction false} NoPairTwiceAnywhere(msgs: seq<Message>)
    requires FreshOrders(msgs)
    ensures NoPairTwice(Published(msgs))
    ensures forall t | t in Published(msgs) :: Sent(msgs, t.takerOrderId)
  {
    hide FreshOrders, Sent, FreshIds, For, BookLaws.WellFormed, BookKnown, Match, Run;
    if msgs != [] {
      var n := |msgs| - 1;
      var before, m := msgs[..n], msgs[n];
      LastMessage(msgs);
      NoPairTwiceAnywhere(before);
      if m.symbol != "" && m.body.AddOrder? {
        var o, ms := m.body.order, For(before, m.symbol);
        FreshEverywhere(msgs, m.symbol);
        FreshEverywhere(before, m.symbol);
        ForStep(before, m, m.symbol);
        OneAdd(m);
        ReachableBooks(m.symbol, ms);
        var b := Run(m.symbol, INITIAL, ms).book;
        MatchTradesOk(m.symbol, ms, b, o);
        AppendKeepsPairs(Published(before), Match(m.symbol, b, o).trades, o.id);
      }
    }
  }

  lemma LastMessage(msgs: seq<Message>)
    requires FreshOrders(msgs) && msgs != []
    ensures var before, m := msgs[..|msgs| - 1], msgs[|msgs| - 1];
      && msgs == before + [m] && FreshOrders(before)
      && (forall id | Sent(before, id) :: Sent(msgs, id))
      && (m.body.AddOrder? ==> Sent(msgs, m.body.order.id) && !Sent(before, m.body.order.id))
  {
    var before, m := msgs[..|msgs| - 1], msgs[|msgs| - 1];
    forall id | Sent(before, id) ensures Sent(msgs, id) && (m.body.AddOrder? ==> m.body.order.id != id) {
      var i :| 0 <= i < |before| && before[i].body.AddOrder? && before[i].body.order.id == id;
      assert msgs[i] == before[i];
    }
  }

  lemma OneAdd(m: Message)
    requires m.body.AddOrder?
    ensures For([m], m.symbol) == [AddMsg(m.body.order)]
  {
    assert [m][..0] == [];
  }

  /** The handlers of the worker's messages may finish in any order. */
  lemma PairsOfPart(part: seq<Trade>, whole: seq<Trade>)
    requires NoPairTwice(whole) && multiset(part) <= multiset(whole)
    ensures NoPairTwice(part)
  {
    forall i, j | 0 <= i < j < |part|
      ensures part[i].takerOrderId != part[j].takerOrderId || part[i].makerOrderId != part[j].makerOrderId
    {
      var t, u := part[i], part[j];
      if t == u {
        TwoPlaces(part, i, j);
        Repeated(whole, t);
      } else {
        assert t in multiset(part) && u in multiset(part);
        assert t in whole && u in whole;
      }
    }
  }

  lemma TwoPlaces(s: seq<Trade>, i: nat, j: nat)
    requires i < j < |s| && s[i] == s[j]
    ensures multiset(s)[s[i]] >= 2
  {
    assert s == s[..j] + s[j..];
    assert s[i] == s[..j][i] && s[i] in s[..j];
    assert s[j] == s[j..][0] && s[j] in s[j..];
    assert s[i] in multiset(s[..j]) && s[i] in multiset(s[j..]);
  }

  lemma {:induction false} Repeated(s: seq<Trade>, t: Trade)
    requires multiset(s)[t] >= 2
    ensures exists i, j :: 0 <= i < j < |s| && s[i] == t == s[j]
  {
    var n := |s| - 1;
    assert s == s[..n] + [s[n]];
    if s[n] == t {
      assert t in multiset(s[..n]);
      assert t in s[..n];
      var i :| 0 <= i < n && s[..n][i] == t;
      assert s[i] == t == s[n];
    } else {
      Repeated(s[..n], t);
      var i, j :| 0 <= i < j < n && s[..n][i] == t == s[..n][j];
      assert s[i] == t == s[j];
    }
  }

  /**
   * End to end, with handlers that finish in any order: every trade the worker published and the log was
   * asked to record is in the log, if and only if none meets an order event on its key. Intents whose keys
   * stay apart from those of the trades, such as UUIDs, never cause that.
   */
  lemma EveryPublishedTradeIsLogged(msgs: seq<Message>, actions: seq<OmsEngines.Action>)
    requires FreshOrders(msgs) && FillRecords.AllNamed(actions)
    requires multiset(FillRecords.Trades(actions)) <= multiset(Published(msgs))
    ensures FillRecords.Fills(OmsEngines.Run(actions).log) == FillRecords.Trades(actions) <==>
      forall i | 0 <= i < |actions| && actions[i].Execute? ::
        !OmsLaws.OrderHolds(OmsEngines.Run(actions[..i]).log, Key(actions[i].trade))
    ensures FillRecords.KeysStayApart(actions) ==>
      FillRecords.Fills(OmsEngines.Run(actions).log) == FillRecords.Trades(actions)
  {
    NoPairTwiceAnywhere(msgs);
    PairsOfPart(FillRecords.Trades(actions), Published(msgs));
    FillRecords.NoFillIsDropped(actions);
    if FillRecords.KeysStayApart(actions) {
      FillRecords.ApartKeysDropNothing(actions);
    }
  }

  // ----- ids of any shape ----------------------------------------------------------------

  ghost predicate TradesClash(t: Trade, u: Trade) {
    Clash(t.takerOrderId, t.makerOrderId, u.takerOrderId, u.makerOrderId)
  }

  function Key(t: Trade): string {
    OmsEngines.FillOf(t).key
  }

  lemma StillFree(log: EventStores.Log, e: EventStores.Event, key: string)
    requires !EventStores.Taken(log, key) && e.key != key
    ensures !EventStores.Taken(log + [e], key)
  {}

  lemma {:induction false} DistinctKeysAreKept(log: EventStores.Log, ts: seq<Trade>)
    requires forall i | 0 <= i < |ts| :: !EventStores.Taken(log, Key(ts[i]))
    requires forall i, j | 0 <= i < j < |ts| :: Key(ts[i]) != Key(ts[j])
    ensures FillRecords.Fills(MatchingEngines.Recorded(log, ts)) == FillRecords.Fills(log) + ts
    decreases |ts|
  {
    hide FillRecords.Fills, EventStores.Taken;
    if ts == [] {
      assert FillRecords.Fills(log) + ts == FillRecords.Fills(log);
    } else {
      var e := OmsEngines.FillOf(ts[0]);
      assert !EventStores.Taken(log, Key(ts[0]));
      FillRecords.FillsConcat(log, [e]);
      FillRecords.FillsOfOne(e);
      forall i | 0 <= i < |ts| - 1 ensures !EventStores.Taken(log + [e], Key(ts[1..][i])) {
        StillFree(log, e, Key(ts[i + 1]));
      }
      DistinctKeysAreKept(log + [e], ts[1..]);
      assert FillRecords.Fills(log) + [ts[0]] + ts[1..] == FillRecords.Fills(log) + ts;
    }
  }

  lemma {:induction false} TakenKeysAreLost(log: EventStores.Log, ts: seq<Trade>, i: int, j: int)
    requires 0 <= j < |ts| && -1 <= i < j
    requires if i < 0 then EventStores.Taken(log, Key(ts[j])) else Key(ts[i]) == Key(ts[j])
    ensures |MatchingEngines.Recorded(log, ts)| < |log| + |ts|
    decreases |ts|
  {
    var log' := EventStores.Appended(log, OmsEngines.FillOf(ts[0]));
    if j == 0 {
      NoMoreThanSent(log', ts[1..]);
    } else {
      if i == 0 {
        assert log'[|log'| - 1].key == Key(ts[j]) || EventStores.Taken(log, Key(ts[j]));
      }
      if i <= 0 && EventStores.Taken(log, Key(ts[j])) {
        var k :| 0 <= k < |log| && log[k].key == Key(ts[j]);
        assert log'[k] == log[k];
      }
      TakenKeysAreLost(log', ts[1..], if i <= 0 then -1 else i - 1, j - 1);
    }
  }

  lemma {:induction false} NoMoreThanSent(log: EventStores.Log, ts: seq<Trade>)
    ensures |MatchingEngines.Recorded(log, ts)| <= |log| + |ts|
    decreases |ts|
  {
    if ts != [] {
      NoMoreThanSent(EventStores.Appended(log, OmsEngines.FillOf(ts[0])), ts[1..]);
    }
  }

  lemma {:induction false} FillsAreFewer(log: EventStores.Log)
    ensures |FillRecords.Fills(log)| <= |log|
  {
    if log != [] {
      FillsAreFewer(log[..|log| - 1]);
    }
  }

  lemma NothingTaken()
    ensures FillRecords.Fills([]) == [] && forall key :: !EventStores.Taken([], key)
  {}

  /** With ids of any shape: all of a run's trades are recorded exactly when no dash can be shifted between two. */
  lemma FillsSurviveExactlyWithoutClashes(ts: seq<Trade>)
    requires NoPairTwice(ts)
    ensures FillRecords.Fills(MatchingEngines.Recorded([], ts)) == ts <==>
      forall i, j | 0 <= i < j < |ts| :: !TradesClash(ts[i], ts[j])
  {
    hide FillRecords.Fills, MatchingEngines.Recorded, EventStores.Taken;
    NothingTaken();
    forall i, j | 0 <= i < j < |ts| ensures Key(ts[i]) == Key(ts[j]) <==> TradesClash(ts[i], ts[j]) {
      var t, u := ts[i], ts[j];
      JoinClashes(t.takerOrderId, t.makerOrderId, u.takerOrderId, u.makerOrderId);
    }
    if i, j :| 0 <= i < j < |ts| && Key(ts[i]) == Key(ts[j]) {
      TakenKeysAreLost([], ts, i, j);
      FillsAreFewer(MatchingEngines.Recorded([], ts));
    } else {
      DistinctKeysAreKept([], ts);
    }
  }

  /** A sell order comes into an empty book and a buy order of the same size takes it. */
  lemma MeetAlone(symbol: string, ms: seq<Msg>, maker: Order, taker: Order)
    requires Run(symbol, INITIAL, ms).book == EMPTY_BOOK
    requires maker.side.Sell? && taker.side.Buy? && maker.price == taker.price > 0
    requires maker.quantity == taker.quantity > 0
    ensures var s := Run(symbol, INITIAL, ms + [AddMsg(maker)] + [AddMsg(taker)]);
      && s.book == EMPTY_BOOK
      && s.trades == Run(symbol, INITIAL, ms).trades + [Fill(symbol, taker, maker, taker.quantity)]
  {
    var m1 := ms + [AddMsg(maker)];
    var m2 := m1 + [AddMsg(taker)];
    assert m1[..|ms|] == ms && m2[..|m1|] == m1;
    var s := Run(symbol, INITIAL, ms);
    assert Run(symbol, INITIAL, m1).book == Book([], [maker]) && Run(symbol, INITIAL, m1).trades == s.trades;
    assert Walk(symbol, taker, [maker]) == Outcome([Fill(symbol, taker, maker, taker.quantity)], 0, []);
  }

  lemma NothingRun(symbol: string)
    ensures Run(symbol, INITIAL, []) == INITIAL
  {}

  ghost predicate LosesAFill(ts: seq<Trade>) {
    FillRecords.Fills(MatchingEngines.Recorded([], ts)) != ts
  }

  /**
   * Such a run of the matcher alone: two trades of different orders, of which the second is taken for a
   * repeat. Its ids are no UUIDs, so the orders table keeps them from being activated and they cannot
   * reach the matcher through the order management; only a UUID column stands between the two.
   */
  lemma DashedIdsCanLoseAFill(symbol: string)
    ensures exists ms :: FreshIds(ms) && LosesAFill(Run(symbol, INITIAL, ms).trades)
  {
    hide Run, FillRecords.Fills, MatchingEngines.Recorded;
    NothingRun(symbol);
    var o1, o2 := Order("c", "s", Sell, 10, 1), Order("a-b", "b", Buy, 10, 1);
    var o3, o4 := Order("b-c", "s", Sell, 10, 1), Order("a", "b", Buy, 10, 1);
    var t, u := Fill(symbol, o2, o1, 1), Fill(symbol, o4, o3, 1);
    var m2 := [] + [AddMsg(o1)] + [AddMsg(o2)];
    var m4 := m2 + [AddMsg(o3)] + [AddMsg(o4)];
    MeetAlone(symbol, [], o1, o2);
    MeetAlone(symbol, m2, o3, o4);
    assert o2.id != o4.id && o1.id[0] != o2.id[0] && |o1.id| != |o3.id| && o1.id != o4.id && o2.id[0] != o3.id[0] && o3.id != o4.id;
    assert FreshIds(m4);
    TradesAreFairAndDistinct(symbol, m4);
    assert Run(symbol, INITIAL, m4).trades == [t, u];
    FillsSurviveExactlyWithoutClashes([t, u]);
    assert Shifted("a", "b-c", "a-b", "c", "b");
    assert TradesClash([t, u][0], [t, u][1]);
    assert LosesAFill(Run(symbol, INITIAL, m4).trades);
  }
}
