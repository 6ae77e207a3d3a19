/** Which trades the log records: every one whose key is free, and when that is all of them. */
module FillRecords {
  import PriceTime
  import TradeLaws
  import opened EventStores
  import opened Keys
  import opened KeyShapes
  import opened OmsEngines
  import opened OmsLaws

  ghost function Trades(actions: seq<Action>): seq<PriceTime.Trade> {
    if actions == [] then []
    else
      var n := |actions| - 1;
      Trades(actions[..n]) + if actions[n].Execute? then [actions[n].trade] else []
  }

  ghost function Fills(log: Log): seq<PriceTime.Trade> {
    if log == [] then []
    else
      var e := log[|log| - 1];
      Fills(log[..|log| - 1]) + if e.payload.Executed? then [e.payload.trade] else []
  }

  /** The trades that found their key free. */
  ghost function FreeTrades(actions: seq<Action>): seq<PriceTime.Trade> {
    if actions == [] then []
    else
      var n := |actions| - 1;
      FreeTrades(actions[..n]) + if Drops(actions, n) || !actions[n].Execute? then [] else [actions[n].trade]
  }

  /** Action i is a trade that finds its key taken. */
  ghost predicate Drops(actions: seq<Action>, i: nat)
    requires i < |actions|
  {
    actions[i].Execute? && Taken(Run(actions[..i]).log, FillOf(actions[i].trade).key)
  }

  lemma {:induction false} FillsConcat(log: Log, more: Log)
    ensures Fills(log + more) == Fills(log) + Fills(more)
  {
    if more == [] {
      assert log + more == log;
    } else {
      var n := |more| - 1;
      assert (log + more)[..|log| + n] == log + more[..n];
      FillsConcat(log, more[..n]);
    }
  }

  lemma FillsOfOne(e: Event)
    ensures Fills([e]) == if e.payload.Executed? then [e.payload.trade] else []
  {
    assert [e][..0] == [];
  }

  lemma OthersAreNoFills(s: State, a: Action)
    requires !a.Execute?
    ensures s.log <= Step(s, a).log
    ensures forall i | |s.log| <= i < |Step(s, a).log| :: !Step(s, a).log[i].payload.Executed?
  {}

  lemma StepRecordsFills(s: State, a: Action)
    ensures Fills(Step(s, a).log) == Fills(s.log) +
      if a.Execute? && !Taken(s.log, FillOf(a.trade).key) then [a.trade] else []
  {
    hide Taken;
    if a.Execute? {
      FillsOfOne(FillOf(a.trade));
      FillsConcat(s.log, [FillOf(a.trade)]);
    } else {
      hide Step;
      OthersAreNoFills(s, a);
      var more := Step(s, a).log[|s.log|..];
      assert Step(s, a).log == s.log + more;
      FillsConcat(s.log, more);
      NoFills(more);
    }
  }

  lemma {:induction false} NoFills(log: Log)
    requires forall i | 0 <= i < |log| :: !log[i].payload.Executed?
    ensures Fills(log) == []
  {
    if log != [] {
      NoFills(log[..|log| - 1]);
    }
  }

  /** In every run, whatever the keys: the log holds exactly the trades that found their key free, in order. */
  lemma {:induction false} FreeTradesAreRecorded(actions: seq<Action>)
    ensures Fills(Run(actions).log) == FreeTrades(actions)
  {
    hide Step, Taken;
    if actions != [] {
      var n := |actions| - 1;
      FreeTradesAreRecorded(actions[..n]);
      StepRecordsFills(Run(actions[..n]), actions[n]);
    }
  }

  lemma {:induction false} AllFree(actions: seq<Action>)
    ensures |FreeTrades(actions)| <= |Trades(actions)|
    ensures FreeTrades(actions) == Trades(actions) <==> forall i | 0 <= i < |actions| :: !Drops(actions, i)
    ensures |FreeTrades(actions)| == |Trades(actions)| ==> FreeTrades(actions) == Trades(actions)
  {
    hide Run, Taken;
    if actions != [] {
      var n := |actions| - 1;
      var before := actions[..n];
      AllFree(before);
      forall i | 0 <= i < n ensures Drops(before, i) == Drops(actions, i) {
        assert before[..i] == actions[..i];
      }
    }
  }

  /** So every trade is recorded if and only if none finds its key taken. */
  lemma FillsAreCompleteExactly(actions: seq<Action>)
    ensures Fills(Run(actions).log) == Trades(actions) <==> forall i | 0 <= i < |actions| :: !Drops(actions, i)
  {
    FreeTradesAreRecorded(actions);
    AllFree(actions);
  }

  // ----- who can take the key of a trade -------------------------------------------------

  ghost predicate AllNamed(actions: seq<Action>) {
    forall a | a in actions && a.Execute? :: Named(a.trade)
  }

  lemma {:induction false} TradesComeFrom(actions: seq<Action>, t: PriceTime.Trade)
    ensures t in Trades(actions) <==> Execute(t) in actions
  {
    if actions != [] {
      var n := |actions| - 1;
      assert actions == actions[..n] + [actions[n]];
      TradesComeFrom(actions[..n], t);
    }
  }

  lemma {:induction false} TradesOfPrefix(actions: seq<Action>, n: nat)
    requires n <= |actions|
    ensures Trades(actions[..n]) <= Trades(actions)
  {
    if n == |actions| {
      assert actions[..n] == actions;
    } else {
      var before := actions[..|actions| - 1];
      TradesOfPrefix(before, n);
      assert before[..n] == actions[..n];
    }
  }

  ghost predicate SamePair(t: PriceTime.Trade, u: PriceTime.Trade) {
    t.takerOrderId == u.takerOrderId && t.makerOrderId == u.makerOrderId
  }

  ghost predicate PairIn(ts: seq<PriceTime.Trade>, t: PriceTime.Trade) {
    exists i | 0 <= i < |ts| :: SamePair(ts[i], t)
  }

  /** Of the trades with the same taker and maker, the first. */
  ghost function FirstOfPairs(ts: seq<PriceTime.Trade>): seq<PriceTime.Trade> {
    if ts == [] then []
    else
      var n := |ts| - 1;
      FirstOfPairs(ts[..n]) + if PairIn(ts[..n], ts[n]) then [] else [ts[n]]
  }

  /** A trade finds its key taken if and only if an order event sits on it or its pair has traded before. */
  lemma WhatTakesAFillKey(actions: seq<Action>, i: nat)
    requires i < |actions| && actions[i].Execute? && AllNamed(actions)
    ensures Drops(actions, i) <==>
      OrderHolds(Run(actions[..i]).log, FillOf(actions[i].trade).key) || PairIn(Trades(actions[..i]), actions[i].trade)
  {
    hide Run;
    var before, t := actions[..i], actions[i].trade;
    var key, log := FillOf(t).key, Run(before).log;
    assert actions[i] in actions;
    OrderIdShape(t.takerOrderId);
    if Taken(log, key) {
      var k :| 0 <= k < |log| && log[k].key == key;
      EveryEventComes(before);
      assert log[k] in log && Comes(before, log, log[k]);
      FillKeyShape(key);
      if log[k].eventType.TRADE_EXECUTED? {
        var u := log[k].payload.trade;
        assert Execute(u) in actions;
        FillKeysAreInjective(u.takerOrderId, u.makerOrderId, t.takerOrderId, t.makerOrderId);
        TradesComeFrom(before, u);
        var j :| 0 <= j < |Trades(before)| && Trades(before)[j] == u;
        assert SamePair(Trades(before)[j], t);
      }
    }
    if PairIn(Trades(before), t) {
      var j :| 0 <= j < |Trades(before)| && SamePair(Trades(before)[j], t);
      var u := Trades(before)[j];
      TradesComeFrom(before, u);
      UsedKeysAreTaken(before, Execute(u), key);
    }
  }

  lemma EarlierPairIsAnother(actions: seq<Action>, i: nat)
    requires i < |actions| && actions[i].Execute? && TradeLaws.NoPairTwice(Trades(actions))
    ensures !PairIn(Trades(actions[..i]), actions[i].trade)
  {
    TradesOfPrefix(actions, i + 1);
    assert actions[..i + 1][..i] == actions[..i];
    var ts, all := Trades(actions[..i]), Trades(actions);
    assert all[|ts|] == actions[i].trade && forall k | 0 <= k < |ts| :: ts[k] == all[k];
  }

  /** Where no order event sits on its key, nothing but a second trade of the same two orders is suppressed. */
  lemma {:induction false} OnlyRepeatsAreSuppressed(actions: seq<Action>)
    requires AllNamed(actions)
    requires forall i | 0 <= i < |actions| && actions[i].Execute? ::
      !OrderHolds(Run(actions[..i]).log, FillOf(actions[i].trade).key)
    ensures Fills(Run(actions).log) == FirstOfPairs(Trades(actions))
  {
    hide Run, OrderHolds, Fills, Drops, PairIn, Named;
    FreeTradesAreRecorded(actions);
    if actions != [] {
      var n := |actions| - 1;
      var before := actions[..n];
      forall i | 0 <= i < n ensures before[..i] == actions[..i] && before[i] == actions[i] {}
      assert actions == before + [actions[n]];
      OnlyRepeatsAreSuppressed(before);
      FreeTradesAreRecorded(before);
      if actions[n].Execute? {
        WhatTakesAFillKey(actions, n);
        var ts := Trades(before);
        assert (ts + [actions[n].trade])[..|ts|] == ts;
      } else {
        assert Trades(actions) == Trades(before);
      }
    }
  }

  /** If no pair trades twice, every trade is recorded if and only if none meets an order event on its key. */
  lemma NoFillIsDropped(actions: seq<Action>)
    requires AllNamed(actions) && TradeLaws.NoPairTwice(Trades(actions))
    ensures Fills(Run(actions).log) == Trades(actions) <==>
      forall i | 0 <= i < |actions| && actions[i].Execute? ::
        !OrderHolds(Run(actions[..i]).log, FillOf(actions[i].trade).key)
  {
    hide Run, Fills, Trades, OrderHolds;
    FillsAreCompleteExactly(actions);
    forall i | 0 <= i < |actions| && actions[i].Execute?
      ensures Drops(actions, i) <==> OrderHolds(Run(actions[..i]).log, FillOf(actions[i].trade).key)
    {
      EarlierPairIsAnother(actions, i);
      WhatTakesAFillKey(actions, i);
    }
  }

  /** No intent of the run has, or lends to a child, the key of one of its trades. */
  ghost predicate KeysStayApart(actions: seq<Action>) {
    forall x, t | Arrive(x) in actions && Execute(t) in actions :: !Claims(x, FillOf(t).key)
  }

  /** Then no trade is lost. */
  lemma ApartKeysDropNothing(actions: seq<Action>)
    requires AllNamed(actions) && TradeLaws.NoPairTwice(Trades(actions)) && KeysStayApart(actions)
    ensures Fills(Run(actions).log) == Trades(actions)
  {
    NoFillIsDropped(actions);
    forall i | 0 <= i < |actions| && actions[i].Execute?
      ensures !OrderHolds(Run(actions[..i]).log, FillOf(actions[i].trade).key)
    {
      var key := FillOf(actions[i].trade).key;
      assert actions[i] == Execute(actions[i].trade) && actions[i] in actions;
      forall x | Arrive(x) in actions[..i] ensures !Claims(x, key) {
        assert Arrive(x) in actions;
      }
      if OrderHolds(Run(actions[..i]).log, key) {
        HoldersClaim(actions[..i], key);
      }
    }
  }

  /** UUID keys stay apart from all fills and all cancels. */
  lemma UuidsClaimNothingElse(x: Intent, t: PriceTime.Trade)
    requires Uuid(x.idempotencyKey) && Named(t)
    ensures !Claims(x, FillOf(t).key) && forall id :: !Claims(x, id + "-cancel")
  {
    var k, key := x.idempotencyKey, FillOf(t).key;
    assert FillKey(key);
    OrderIdShape(k);
    assert (k + "-tp")[..|k|] == k && (k + "-sl")[..|k|] == k;
    assert (k + "-tp")[|k|..] == "-tp" && (k + "-sl")[|k|..] == "-sl";
    OrderIdShape(k + "-tp");
    OrderIdShape(k + "-sl");
  }

  /** A run in which no pair trades twice and this trade is not recorded. */
  ghost predicate LosesFill(actions: seq<Action>, intents: set<Intent>, t: PriceTime.Trade) {
    && Interleaving(actions) && (forall a | a in actions :: Within(a, intents))
    && TradeLaws.NoPairTwice(Trades(actions)) && t in Trades(actions) && t !in Fills(Run(actions).log)
  }

  /** That can happen exactly if one of the intents has the key of the trade, or lends it to a child. */
  lemma FillsThatCanBeLost(intents: set<Intent>, t: PriceTime.Trade)
    requires Named(t) && t.takerOrderId != t.makerOrderId
    ensures (exists actions :: LosesFill(actions, intents, t)) <==>
      exists x :: x in intents && x.idempotencyKey != "" && Claims(x, FillOf(t).key)
  {
    if actions :| LosesFill(actions, intents, t) {
      LostToAnOrder(actions, intents, t);
    }
    if x :| x in intents && x.idempotencyKey != "" && Claims(x, FillOf(t).key) {
      var actions := LoseFillTo(x, intents, t);
    }
  }

  lemma LoseFillTo(x: Intent, intents: set<Intent>, t: PriceTime.Trade) returns (actions: seq<Action>)
    requires x in intents && x.idempotencyKey != "" && Claims(x, FillOf(t).key)
    requires Named(t) && t.takerOrderId != t.makerOrderId
    ensures LosesFill(actions, intents, t)
  {
    hide Run, Interleaving, Claims, Fills, Named, Batch, Trades, TradeLaws.NoPairTwice, Taken;
    var stored := StoreFirst(x, intents);
    Extended(stored, Execute(t));
    ClaimsAreStored(x, FillOf(t).key);
    actions := stored + [Execute(t)];
    assert forall a | a in actions :: Within(a, intents);
    assert Run(actions).log == Batch(x);
    OnlyTrade(stored, t);
    OrdersAreNoFills(x);
  }

  lemma OrdersAreNoFills(x: Intent)
    ensures Fills(Batch(x)) == []
  {
    NoFills(Batch(x));
  }

  lemma OnlyTrade(actions: seq<Action>, t: PriceTime.Trade)
    requires forall a | a in actions :: !a.Execute?
    ensures Trades(actions + [Execute(t)]) == [t] && TradeLaws.NoPairTwice([t])
  {
    NoTrades(actions);
    assert (actions + [Execute(t)])[..|actions|] == actions;
  }

  lemma {:induction false} NoTrades(actions: seq<Action>)
    requires forall a | a in actions :: !a.Execute?
    ensures Trades(actions) == []
  {
    if actions != [] {
      NoTrades(actions[..|actions| - 1]);
    }
  }

  lemma LostToAnOrder(actions: seq<Action>, intents: set<Intent>, t: PriceTime.Trade)
    requires LosesFill(actions, intents, t)
    ensures exists x :: x in intents && x.idempotencyKey != "" && Claims(x, FillOf(t).key)
  {
    TradesComeFrom(actions, t);
    var i :| 0 <= i < |actions| && actions[i] == Execute(t);
    if !Drops(actions, i) {
      RecordedForGood(actions, i);
    }
    EarlierPairIsAnother(actions, i);
    WhatTakesAFillKey(actions, i);
    HoldersClaim(actions[..i], FillOf(t).key);
    var x :| Arrive(x) in actions[..i] && Claims(x, FillOf(t).key);
    assert Arrive(x) in actions;
  }

  lemma RecordedForGood(actions: seq<Action>, i: nat)
    requires i < |actions| && actions[i].Execute? && !Drops(actions, i)
    ensures actions[i].trade in Fills(Run(actions).log)
  {
    hide Run, Fills, Taken;
    FreeTradesAreRecorded(actions);
    FreeForGood(actions, i);
  }

  lemma {:induction false} FreeForGood(actions: seq<Action>, i: nat)
    requires i < |actions| && actions[i].Execute? && !Drops(actions, i)
    ensures actions[i].trade in FreeTrades(actions)
  {
    hide Run, Taken;
    var n := |actions| - 1;
    if i < n {
      assert actions[..n][..i] == actions[..i];
      FreeForGood(actions[..n], i);
    }
  }
}
