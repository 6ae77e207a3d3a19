/** One outcome per intent, children exactly with their parent, and cancels, in every interleaving. */
module OmsLaws {
  import PriceTime
  import opened EventStores
  import opened Keys
  import opened KeyShapes
  import opened OmsEngines
  import opened Wrappers

  // ----- one outcome per intent, whatever its key ----------------------------------------

  /** The controller replaces an empty key by a fresh one. */
  ghost predicate Keyed(a: Action) {
    a.Arrive? ==> a.intent.idempotencyKey != ""
  }

  ghost predicate Plain(e: Event) {
    match e.eventType
    case ORDER_CREATED => e.key == e.aggregateId != ""
    case ORDER_REJECTED => e.key == e.aggregateId != ""
    case ORDER_CANCELED => e.key == e.aggregateId + "-cancel"
    case TRADE_EXECUTED => e.payload.Executed? && e.key == FillOf(e.payload.trade).key
    case ORDER_ACTIVATED => e.key == ""
  }

  ghost predicate Settled(t: Task) {
    t.stage.Publishing? || t.stage.Finished?
  }

  /** A task past its commit or its rejection finds its key in the log. */
  ghost predicate TaskOk(log: Log, t: Task) {
    t.intent.idempotencyKey != "" && (Settled(t) ==> Taken(log, t.intent.idempotencyKey))
  }

  ghost predicate Basic(s: State) {
    UniqueKeys(s.log) && (forall e | e in s.log :: Plain(e)) && forall t | t in s.tasks :: TaskOk(s.log, t)
  }

  lemma TakenExtended(log: Log, more: Log, key: string)
    requires Taken(log, key)
    ensures Taken(log + more, key)
  {
    var i :| 0 <= i < |log| && log[i].key == key;
    assert (log + more)[i].key == key;
  }

  /** The log only grows. */
  lemma LogGrows(s: State, a: Action)
    ensures s.log <= Step(s, a).log
  {}

  lemma StepKeepsTask(s: State, a: Action, i: nat)
    requires Basic(s) && Possible(s, a) && Keyed(a) && i < |Step(s, a).tasks|
    ensures TaskOk(Step(s, a).log, Step(s, a).tasks[i])
  {
    var s' := Step(s, a);
    if i < |s.tasks| {
      var key := s.tasks[i].intent.idempotencyKey;
      assert s.tasks[i] in s.tasks;
      LogGrows(s, a);
      assert s'.log == s.log + s'.log[|s.log|..];
      if Taken(s.log, key) {
        TakenExtended(s.log, s'.log[|s.log|..], key);
      } else if Settled(s'.tasks[i]) {
        assert s'.log[|s.log|].key == key;
      }
    }
  }

  lemma PlainAppend(log: Log, e: Event)
    requires UniqueKeys(log) && (forall e | e in log :: Plain(e)) && Plain(e)
    ensures UniqueKeys(Appended(log, e)) && forall x | x in Appended(log, e) :: Plain(x)
  {
    AppendKeepsUnique(log, e);
  }

  lemma StepKeepsPlain(s: State, a: Action)
    requires Basic(s) && Possible(s, a)
    ensures UniqueKeys(Step(s, a).log) && forall e | e in Step(s, a).log :: Plain(e)
  {
    hide Taken;
    match a
    case Commit(t, error) =>
      if s.At(t, Committing) && error.None? {
        assert s.tasks[t] in s.tasks;
        FitKeepsUnique(s.log, Batch(s.tasks[t].intent));
      }
    case Reject(t, up) =>
      if t < |s.tasks| && s.tasks[t].stage.Rejecting? {
        assert s.tasks[t] in s.tasks;
        PlainAppend(s.log, Rejection(s.tasks[t].intent.idempotencyKey, s.tasks[t].stage.reason));
      }
    case CancelIntent(id, symbol, userId) => PlainAppend(s.log, Cancellation(id, symbol, userId));
    case Execute(trade) => PlainAppend(s.log, FillOf(trade));
    case Activate(id, x, status) => PlainAppend(s.log, Activation(id, x, status));
    case _ =>
  }

  lemma {:induction false} BasicAlways(actions: seq<Action>)
    requires Interleaving(actions) && forall a | a in actions :: Keyed(a)
    ensures Basic(Run(actions))
  {
    hide Step, Plain, TaskOk, Possible;
    if actions != [] {
      var n := |actions| - 1;
      var s, a := Run(actions[..n]), actions[n];
      Before(actions, n);
      BasicAlways(actions[..n]);
      StepKeepsPlain(s, a);
      forall t | t in Step(s, a).tasks ensures TaskOk(Step(s, a).log, t) {
        var i :| 0 <= i < |Step(s, a).tasks| && Step(s, a).tasks[i] == t;
        StepKeepsTask(s, a, i);
      }
    }
  }

  lemma Before(actions: seq<Action>, n: nat)
    requires Interleaving(actions) && n < |actions|
    ensures Interleaving(actions[..n]) && Possible(Run(actions[..n]), actions[n])
  {
    forall i | 0 <= i < n ensures Possible(Run(actions[..n][..i]), actions[..n][i]) {
      assert actions[..n][..i] == actions[..i];
    }
  }

  /** The events that decide an order. */
  ghost function Outcomes(log: Log, id: string): set<nat> {
    set i: nat | i < |log| && log[i].aggregateId == id &&
                 (log[i].eventType.ORDER_CREATED? || log[i].eventType.ORDER_REJECTED?)
  }

  /** A cancel or a fill sits on the key. */
  ghost predicate Usurped(log: Log, key: string) {
    exists e :: e in log && e.key == key && (e.eventType.ORDER_CANCELED? || e.eventType.TRADE_EXECUTED?)
  }

  lemma LogDecides(log: Log, key: string)
    requires UniqueKeys(log) && (forall e | e in log :: Plain(e)) && key != ""
    ensures |Outcomes(log, key)| <= 1
    ensures Taken(log, key) ==> (|Outcomes(log, key)| == 1 <==> !Usurped(log, key))
  {
    var outcomes := Outcomes(log, key);
    forall j | j in outcomes ensures log[j].key == key { assert log[j] in log; }
    if Taken(log, key) {
      var i: nat :| i < |log| && log[i].key == key;
      assert log[i] in log;
      forall j | 0 <= j < |log| && log[j].key == key ensures j == i {}
      assert outcomes == if Usurped(log, key) then {} else {i};
    } else {
      assert outcomes == {};
    }
  }

  /**
   * Whatever interleaves and repeats, whichever publish fails: an intent never has two outcomes, and once
   * a call for it has committed or finished it has one, exactly unless a cancel or a fill sits on its key.
   */
  lemma OneOutcomePerIntent(actions: seq<Action>, t: nat)
    requires Interleaving(actions) && forall a | a in actions :: Keyed(a)
    requires t < |Run(actions).tasks|
    ensures var s := Run(actions);
      var key := s.tasks[t].intent.idempotencyKey;
      && |Outcomes(s.log, key)| <= 1
      && (Settled(s.tasks[t]) ==> (|Outcomes(s.log, key)| == 1 <==> !Usurped(s.log, key)))
  {
    hide Run, Interleaving, Outcomes, Usurped, Taken;
    BasicAlways(actions);
    var s := Run(actions);
    assert s.tasks[t] in s.tasks;
    LogDecides(s.log, s.tasks[t].intent.idempotencyKey);
  }

  /** The action would store an event under the key that decides nothing. */
  ghost predicate Uses(a: Action, key: string) {
    || (a.CancelIntent? && a.orderId + "-cancel" == key)
    || (a.Execute? && Join(a.trade.takerOrderId, a.trade.makerOrderId) == key)
  }

  lemma StepUsurps(s: State, a: Action, key: string)
    requires Basic(s) && key != ""
    ensures Usurped(Step(s, a).log, key) <==> Usurped(s.log, key) || (Uses(a, key) && !Taken(s.log, key))
  {
    LogGrows(s, a);
    var log, log' := s.log, Step(s, a).log;
    forall e | e in log ensures e in log' {
      var i :| 0 <= i < |log| && log[i] == e;
      assert log'[i] == e;
    }
    if Uses(a, key) && !Taken(log, key) {
      assert log'[|log|].key == key && log'[|log|] in log';
    }
    forall e | e in log' && e !in log && e.key == key && (e.eventType.ORDER_CANCELED? || e.eventType.TRADE_EXECUTED?)
      ensures Uses(a, key) && !Taken(log, key)
    {}
  }

  /** In terms of what was done: some cancel or fill came to the key before anything else did. */
  lemma {:induction false} UsurpedByAnAction(actions: seq<Action>, key: string)
    requires Interleaving(actions) && (forall a | a in actions :: Keyed(a)) && key != ""
    ensures Usurped(Run(actions).log, key) <==>
      exists i :: 0 <= i < |actions| && Uses(actions[i], key) && !Taken(Run(actions[..i]).log, key)
  {
    hide Step, Basic, Taken, Uses, Possible;
    if actions != [] {
      var n := |actions| - 1;
      var before := actions[..n];
      Before(actions, n);
      UsurpedByAnAction(before, key);
      BasicAlways(before);
      StepUsurps(Run(before), actions[n], key);
      forall i | 0 <= i < n ensures before[..i] == actions[..i] && before[i] == actions[i] {}
    }
  }

  /** Intents have keys, and cancels and fills are about known orders. */
  ghost predicate About(a: Action, ids: set<string>) {
    && Keyed(a)
    && (a.CancelIntent? ==> a.orderId in ids)
    && (a.Execute? ==> a.trade.takerOrderId in ids && a.trade.makerOrderId in ids
                       && a.trade.takerOrderId != a.trade.makerOrderId)
  }

  ghost predicate Ambiguous(ids: set<string>, key: string) {
    || (exists id :: id in ids && key == id + "-cancel")
    || (exists taker, maker :: taker in ids && maker in ids && taker != maker && key == Join(taker, maker))
  }

  /** A run that finishes with an intent of this key and leaves no outcome for it. */
  ghost predicate Loses(actions: seq<Action>, ids: set<string>, key: string) {
    && Interleaving(actions) && (forall a | a in actions :: About(a, ids))
    && exists t :: Forgotten(Run(actions), t, key)
  }

  ghost predicate Forgotten(s: State, t: nat, key: string) {
    && t < |s.tasks| && s.tasks[t].stage.Finished? && s.tasks[t].intent.idempotencyKey == key
    && Outcomes(s.log, key) == {}
  }

  /** An intent can end without any outcome exactly if its key reads like a cancel or a fill of known orders. */
  lemma KeysThatLoseTheirIntent(ids: set<string>, key: string)
    requires key != ""
    ensures (exists actions :: Loses(actions, ids, key)) <==> Ambiguous(ids, key)
  {
    forall actions | Loses(actions, ids, key) ensures Ambiguous(ids, key) {
      var t :| Forgotten(Run(actions), t, key);
      OneOutcomePerIntent(actions, t);
      UsurpedByAnAction(actions, key);
      var i :| 0 <= i < |actions| && Uses(actions[i], key) && !Taken(Run(actions[..i]).log, key);
      assert actions[i] in actions;
    }
    if Ambiguous(ids, key) {
      if id :| id in ids && key == id + "-cancel" {
        var _ := LoseAfter(CancelIntent(id, "", ""), ids, key);
      } else {
        var taker, maker :| taker in ids && maker in ids && taker != maker && key == Join(taker, maker);
        var _ := LoseAfter(Execute(PriceTime.Trade("", 1, 1, "", "", maker, taker)), ids, key);
      }
    }
  }

  lemma LoseAfter(first: Action, ids: set<string>, key: string) returns (actions: seq<Action>)
    requires About(first, ids) && Uses(first, key) && key != ""
    ensures Loses(actions, ids, key)
  {
    hide Run, Interleaving, Taken;
    Nothing();
    var x := Intent(key, "", "", PriceTime.Buy, LIMIT, 1, 1, 0, None, None);
    var a1 := [] + [first];
    Extended([], first);
    FirstIsStored(first, key);
    Extended(a1, Arrive(x));
    var a2 := a1 + [Arrive(x)];
    Extended(a2, Validate(0, None));
    var a3 := a2 + [Validate(0, None)];
    Extended(a3, Commit(0, Some("")));
    var a4 := a3 + [Commit(0, Some(""))];
    Extended(a4, Reject(0, true));
    actions := a4 + [Reject(0, true)];
    assert Run(a4) == State(Run(a1).log, [Task(x, Rejecting(""))]);
    assert Forgotten(Run(actions), 0, key);
  }

  lemma FirstIsStored(first: Action, key: string)
    requires Uses(first, key) && key != ""
    ensures var s := Step(INITIAL, first);
      && s.tasks == [] && Taken(s.log, key) && |s.log| == 1
      && !s.log[0].eventType.ORDER_CREATED? && !s.log[0].eventType.ORDER_REJECTED?
  {
    assert Step(INITIAL, first).log[0].key == key;
  }

  lemma Nothing()
    ensures Interleaving([]) && Run([]) == INITIAL
  {}

  /** One more action that is possible now. */
  lemma Extended(actions: seq<Action>, a: Action)
    requires Interleaving(actions) && Possible(Run(actions), a)
    ensures Interleaving(actions + [a]) && Run(actions + [a]) == Step(Run(actions), a)
  {
    var all := actions + [a];
    assert all[..|actions|] == actions;
    forall i | 0 <= i < |all| ensures Possible(Run(all[..i]), all[i]) {
      assert i < |actions| ==> all[..i] == actions[..i] && all[i] == actions[i];
    }
  }

  /** For instance: after a cancel of order u, an intent named u-cancel is forgotten. */
  lemma OtherKeysCanLoseTheirIntent(u: string)
    requires Uuid(u)
    ensures exists actions :: Loses(actions, {u}, u + "-cancel")
  {
    KeysThatLoseTheirIntent({u}, u + "-cancel");
  }

  /** A UUID reads like neither, so such an intent has one outcome as soon as a call for it is settled. */
  lemma UuidIntentsHaveOneOutcome(actions: seq<Action>, t: nat)
    requires Interleaving(actions) && forall a | a in actions :: Keyed(a) && (a.Execute? ==> Named(a.trade))
    requires t < |Run(actions).tasks| && Uuid(Run(actions).tasks[t].intent.idempotencyKey)
    requires Settled(Run(actions).tasks[t])
    ensures |Outcomes(Run(actions).log, Run(actions).tasks[t].intent.idempotencyKey)| == 1
  {
    var key := Run(actions).tasks[t].intent.idempotencyKey;
    OneOutcomePerIntent(actions, t);
    UsurpedByAnAction(actions, key);
    OrderIdShape(key);
    forall i | 0 <= i < |actions| ensures !Uses(actions[i], key) {
      assert actions[i] in actions;
    }
  }

  ghost predicate Named(t: PriceTime.Trade) {
    OrderId(t.takerOrderId) && OrderId(t.makerOrderId)
  }

  // ----- where events come from ----------------------------------------------------------

  /** The intent an order event was made from: all of its batch is in the log. */
  ghost predicate Born(actions: seq<Action>, log: Log, e: Event, x: Intent) {
    Arrive(x) in actions && e in Batch(x) && forall b | b in Batch(x) :: b in log
  }

  ghost predicate Comes(actions: seq<Action>, log: Log, e: Event) {
    (e.payload.Executed? ==> e.eventType.TRADE_EXECUTED?) &&
    match e.eventType
    case ORDER_CREATED => exists x :: Born(actions, log, e, x)
    case ORDER_REJECTED => exists x :: Arrive(x) in actions && e.key == x.idempotencyKey
    case ORDER_CANCELED => exists a :: a in actions && a.CancelIntent? && e.aggregateId == a.orderId && e.key == a.orderId + "-cancel"
    case TRADE_EXECUTED => e.payload.Executed? && Execute(e.payload.trade) in actions && e == FillOf(e.payload.trade)
    case ORDER_ACTIVATED => e.key == ""
  }

  ghost predicate Traced(actions: seq<Action>, s: State) {
    && (forall e | e in s.log :: Comes(actions, s.log, e))
    && (forall t | t in s.tasks :: Arrive(t.intent) in actions)
  }

  lemma StillComes(actions: seq<Action>, a: Action, log: Log, log': Log, e: Event)
    requires Comes(actions, log, e) && log <= log'
    ensures Comes(actions + [a], log', e)
  {
    if e.eventType.ORDER_CREATED? {
      var x :| Born(actions, log, e, x);
      forall b | b in Batch(x) ensures b in log' {
        var i :| 0 <= i < |log| && log[i] == b;
        assert log'[i] == b;
      }
      assert Born(actions + [a], log', e, x);
    }
  }

  lemma NewComes(actions: seq<Action>, s: State, a: Action, i: nat)
    requires Traced(actions, s) && |s.log| <= i < |Step(s, a).log|
    ensures Comes(actions + [a], Step(s, a).log, Step(s, a).log[i])
  {
    var e, log' := Step(s, a).log[i], Step(s, a).log;
    match a
    case Commit(t, _) =>
      var x := s.tasks[t].intent;
      assert s.tasks[t] in s.tasks;
      assert log' == s.log + Batch(x) && e == Batch(x)[i - |s.log|];
      forall b | b in Batch(x) ensures b in log' {}
      assert Born(actions + [a], log', e, x);
    case Reject(t, _) =>
      assert s.tasks[t] in s.tasks;
    case CancelIntent(_, _, _) =>
      assert a in actions + [a];
    case _ =>
  }

  lemma {:induction false} EveryEventComes(actions: seq<Action>)
    ensures Traced(actions, Run(actions))
  {
    hide Step, Comes;
    if actions != [] {
      var before, a := actions[..|actions| - 1], actions[|actions| - 1];
      var s := Run(before);
      EveryEventComes(before);
      assert actions == before + [a];
      LogGrows(s, a);
      forall e | e in Step(s, a).log ensures Comes(actions, Step(s, a).log, e) {
        var i :| 0 <= i < |Step(s, a).log| && Step(s, a).log[i] == e;
        if i < |s.log| {
          assert s.log[i] == e;
          StillComes(before, a, s.log, Step(s, a).log, e);
        } else {
          NewComes(before, s, a, i);
        }
      }
      TasksArrive(before, s, a);
    }
  }

  lemma TasksArrive(actions: seq<Action>, s: State, a: Action)
    requires forall t | t in s.tasks :: Arrive(t.intent) in actions
    ensures forall t | t in Step(s, a).tasks :: Arrive(t.intent) in actions + [a]
  {
    var s' := Step(s, a);
    forall i | 0 <= i < |s'.tasks| ensures Arrive(s'.tasks[i].intent) in actions + [a] {
      if i < |s.tasks| {
        assert s.tasks[i] in s.tasks && s'.tasks[i].intent == s.tasks[i].intent;
      }
    }
  }

  // ----- how a call goes -----------------------------------------------------------------

  /** What a state becomes by further actions. */
  function After(s: State, actions: seq<Action>): State
    decreases |actions|
  {
    if actions == [] then s else After(Step(s, actions[0]), actions[1..])
  }

  lemma Next(s: State, a: Action, rest: seq<Action>)
    ensures After(s, [a] + rest) == After(Step(s, a), rest)
  {
    assert ([a] + rest)[1..] == rest;
  }

  /** An approved call stores its orders together, publishes each of them, and is done. */
  lemma ApprovedCall(s: State, x: Intent)
    requires Fits(s.log, Batch(x))
    ensures
      var t := |s.tasks|;
      var orders := 1 + (if x.takeProfit == None then 0 else 1) + (if x.stopLoss == None then 0 else 1);
      After(s, [Arrive(x), Validate(t, None), Commit(t, None)] + Publishes(t, orders))
      == State(s.log + Batch(x), s.tasks + [Task(x, Finished)])
  {
    hide Batch, After;
    var t, n := |s.tasks|, |Batch(x)|;
    BatchSize(x);
    var rest := Publishes(t, n);
    var s1, s2 := State(s.log, s.tasks + [Task(x, Validating)]), State(s.log, s.tasks + [Task(x, Committing)]);
    var s3 := State(s.log + Batch(x), s.tasks + [Task(x, Publishing(n))]);
    assert [Arrive(x), Validate(t, None), Commit(t, None)] + rest
           == [Arrive(x)] + ([Validate(t, None)] + ([Commit(t, None)] + rest));
    Next(s, Arrive(x), [Validate(t, None)] + ([Commit(t, None)] + rest));
    assert Step(s, Arrive(x)) == s1;
    Next(s1, Validate(t, None), [Commit(t, None)] + rest);
    assert Step(s1, Validate(t, None)) == s2;
    Next(s2, Commit(t, None), rest);
    assert Step(s2, Commit(t, None)) == s3;
    PublishAll(s3, t, n);
    assert s3.tasks[t := Task(x, Finished)] == s.tasks + [Task(x, Finished)];
  }

  lemma BatchSize(x: Intent)
    ensures |Batch(x)| == 1 + (if x.takeProfit == None then 0 else 1) + (if x.stopLoss == None then 0 else 1)
  {}

  function Publishes(t: nat, n: nat): (actions: seq<Action>)
    ensures |actions| == n && forall i | 0 <= i < n :: actions[i] == Publish(t, None)
  {
    if n == 0 then [] else [Publish(t, None)] + Publishes(t, n - 1)
  }

  lemma {:induction false} PublishAll(s: State, t: nat, n: nat)
    requires n > 0 && s.At(t, Publishing(n))
    ensures After(s, Publishes(t, n)) == s.Staged(t, Finished)
    decreases n
  {
    var s' := Step(s, Publish(t, None));
    assert Publishes(t, n)[1..] == Publishes(t, n - 1);
    if n > 1 {
      PublishAll(s', t, n - 1);
      assert s'.tasks[t := s'.tasks[t].(stage := Finished)] == s.tasks[t := s.tasks[t].(stage := Finished)];
    }
  }

  /** A call that is to be rejected stores the rejection with its reason and nothing else, and is done. */
  lemma RejectedCall(s: State, x: Intent, reason: string)
    requires !Taken(s.log, x.idempotencyKey)
    ensures
      var t := |s.tasks|;
      var rejected := State(s.log + [Event(x.idempotencyKey, ORDER_REJECTED, Reason(reason), x.idempotencyKey)],
                            s.tasks + [Task(x, Finished)]);
      && After(s, [Arrive(x), Validate(t, Some(reason)), Reject(t, true)]) == rejected
      && After(s, [Arrive(x), Validate(t, None), Commit(t, Some(reason)), Reject(t, true)]) == rejected
  {
    hide After, Taken;
    var t := |s.tasks|;
    var s1, s2 := State(s.log, s.tasks + [Task(x, Validating)]), State(s.log, s.tasks + [Task(x, Committing)]);
    var s3 := State(s.log, s.tasks + [Task(x, Rejecting(reason))]);
    assert Step(s, Arrive(x)) == s1;
    assert Step(s1, Validate(t, None)) == s2;
    assert Step(s1, Validate(t, Some(reason))) == s3 && Step(s2, Commit(t, Some(reason))) == s3;
    ThreeSteps(s, Arrive(x), Validate(t, Some(reason)), Reject(t, true));
    ThreeSteps(s1, Validate(t, None), Commit(t, Some(reason)), Reject(t, true));
    Next(s, Arrive(x), [Validate(t, None), Commit(t, Some(reason)), Reject(t, true)]);
    assert [Arrive(x)] + [Validate(t, None), Commit(t, Some(reason)), Reject(t, true)]
           == [Arrive(x), Validate(t, None), Commit(t, Some(reason)), Reject(t, true)];
  }

  lemma ThreeSteps(s: State, a: Action, b: Action, c: Action)
    ensures After(s, [a, b, c]) == Step(Step(Step(s, a), b), c)
  {
    hide Step;
    Next(s, a, [b, c]);
    Next(Step(s, a), b, [c]);
    assert [a] + [b, c] == [a, b, c] && [b] + [c] == [b, c] && [c][1..] == [];
  }

  // ----- children, whatever the keys -----------------------------------------------------

  /** e is the order of the given type that was created as a child of the given parent. */
  predicate IsChild(e: Event, kind: OrderType, parent: string) {
    e.eventType.ORDER_CREATED? && e.payload.Placed? && e.payload.parentOrderId == Some(parent) && e.payload.order.kind == kind
  }

  ghost predicate HasChild(log: Log, kind: OrderType, parent: string) {
    exists e :: e in log && IsChild(e, kind, parent)
  }

  lemma ParentIsBorn(actions: seq<Action>, x: Intent)
    requires Parent(x) in Run(actions).log
    ensures forall b | b in Batch(x) :: b in Run(actions).log
  {
    EveryEventComes(actions);
    var log := Run(actions).log;
    assert Comes(actions, log, Parent(x));
    var y :| Born(actions, log, Parent(x), y);
    assert x == y;
  }

  /** The intent x of a created order asked for exactly this child. */
  ghost predicate AskedBy(log: Log, e: Event, kind: OrderType, x: Intent) {
    && Parent(x) in log
    && ((kind == TAKE_PROFIT && x.takeProfit.Some? && e == TakeProfitChild(x)) ||
        (kind == STOP && x.stopLoss.Some? && e == StopLossChild(x)))
  }

  /** A child in the log is the one an intent of a created parent asked for. */
  lemma ChildIsBorn(actions: seq<Action>, e: Event, kind: OrderType, parent: string)
    requires e in Run(actions).log && IsChild(e, kind, parent)
    ensures exists x :: AskedBy(Run(actions).log, e, kind, x) && x.idempotencyKey == parent
  {
    EveryEventComes(actions);
    var log := Run(actions).log;
    assert Comes(actions, log, e);
    var x :| Born(actions, log, e, x);
    assert Parent(x) in Batch(x);
    assert AskedBy(log, e, kind, x);
  }

  /** e records x as a pending order under its own key. */
  predicate RecordsOrder(e: Event, x: Intent) {
    && e.aggregateId == x.idempotencyKey && e.key == x.idempotencyKey
    && e.payload.Placed? && e.payload.order == x && e.payload.parentOrderId == None
  }

  /** e records an order that closes x: opposite side, same user and symbol, linked to x, under x's key with a suffix. */
  predicate Closes(e: Event, x: Intent, suffix: string) {
    && e.aggregateId == x.idempotencyKey + suffix && e.key == x.idempotencyKey + suffix
    && e.payload.Placed? && e.payload.parentOrderId == Some(x.idempotencyKey)
    && e.payload.order.side != x.side
    && e.payload.order.userId == x.userId && e.payload.order.symbol == x.symbol
  }

  /** e records the order that takes the profit of x: at the linked price, for the linked quantity. */
  predicate RecordsTakeProfit(e: Event, x: Intent) {
    && Closes(e, x, "-tp") && e.payload.order.kind == TAKE_PROFIT && e.payload.order.stopPrice == x.stopPrice
    && x.takeProfit == Some(Target(e.payload.order.price, e.payload.order.quantity))
  }

  /** e records the order that stops the loss of x: it triggers at the linked price, for the linked quantity. */
  predicate RecordsStopLoss(e: Event, x: Intent) {
    && Closes(e, x, "-sl") && e.payload.order.kind == STOP && e.payload.order.price == x.price
    && x.stopLoss == Some(Target(e.payload.order.stopPrice, e.payload.order.quantity))
  }

  /**
   * What an order in the log says: it is an arrived intent word for word, or closes an arrived intent on the
   * other side at the price and for the quantity of one of its links; and that intent is recorded as well.
   */
  lemma WhatOrdersSay(actions: seq<Action>, e: Event)
    requires e in Run(actions).log && e.eventType.ORDER_CREATED?
    ensures exists x, p ::
      (Arrive(x) in actions && p in Run(actions).log && RecordsOrder(p, x) &&
       (e == p || RecordsTakeProfit(e, x) || RecordsStopLoss(e, x)))
  {
    hide Run;
    EveryEventComes(actions);
    var log := Run(actions).log;
    assert Comes(actions, log, e);
    var x :| Born(actions, log, e, x);
    assert Parent(x) in Batch(x) && RecordsOrder(Parent(x), x);
    assert e == Parent(x) || RecordsTakeProfit(e, x) || RecordsStopLoss(e, x);
  }

  // ----- the risk check ------------------------------------------------------------------

  /** The t-th call was refused with this message, or its commit or a publish failed with it. */
  ghost predicate WentWrong(actions: seq<Action>, t: nat, message: string) {
    || Validate(t, Some(message)) in actions || Commit(t, Some(message)) in actions || Publish(t, Some(message)) in actions
  }

  /** A task that is to commit was approved, one that is to be rejected went wrong. */
  ghost predicate Justified(actions: seq<Action>, t: nat, stage: Stage) {
    && (stage.Committing? ==> Validate(t, None) in actions)
    && (stage.Rejecting? ==> WentWrong(actions, t, stage.reason))
  }

  /** The t-th call was approved, and e is one of its orders; or it went wrong, and e says how. */
  ghost predicate Grounded(actions: seq<Action>, s: State, e: Event, t: nat) {
    t < |s.tasks| &&
    if e.eventType.ORDER_CREATED? then e in Batch(s.tasks[t].intent) && Validate(t, None) in actions
    else
      && e.eventType.ORDER_REJECTED? && e.aggregateId == e.key == s.tasks[t].intent.idempotencyKey
      && e.payload.Reason? && WentWrong(actions, t, e.payload.message)
  }

  ghost predicate Decides(e: Event) {
    e.eventType.ORDER_CREATED? || e.eventType.ORDER_REJECTED?
  }

  ghost predicate Checked(actions: seq<Action>, s: State) {
    && (forall t: nat | t < |s.tasks| :: Justified(actions, t, s.tasks[t].stage))
    && (forall i | 0 <= i < |s.log| && Decides(s.log[i]) :: exists t :: Grounded(actions, s, s.log[i], t))
  }

  lemma StillJustified(actions: seq<Action>, s: State, a: Action, t: nat)
    requires Checked(actions, s) && t < |Step(s, a).tasks|
    ensures Justified(actions + [a], t, Step(s, a).tasks[t].stage)
  {
    assert a in actions + [a] && forall b | b in actions :: b in actions + [a];
    if t < |s.tasks| {
      assert Justified(actions, t, s.tasks[t].stage);
    }
  }

  lemma TasksKeepTheirIntent(s: State, a: Action)
    ensures |s.tasks| <= |Step(s, a).tasks|
    ensures forall t | 0 <= t < |s.tasks| :: Step(s, a).tasks[t].intent == s.tasks[t].intent
  {}

  lemma StillDue(actions: seq<Action>, s: State, a: Action, e: Event, t: nat)
    requires Grounded(actions, s, e, t)
    ensures Grounded(actions + [a], Step(s, a), e, t)
  {
    hide Step, Batch;
    TasksKeepTheirIntent(s, a);
    assert forall b | b in actions :: b in actions + [a];
  }

  lemma NewlyDue(actions: seq<Action>, s: State, a: Action, i: nat)
    requires Checked(actions, s) && |s.log| <= i < |Step(s, a).log| && Decides(Step(s, a).log[i])
    ensures a.Commit? || a.Reject?
    ensures Grounded(actions, s, Step(s, a).log[i], a.t)
  {
    if a.Commit? || a.Reject? {
      assert Justified(actions, a.t, s.tasks[a.t].stage);
    }
  }

  lemma {:induction false} AlwaysChecked(actions: seq<Action>)
    ensures Checked(actions, Run(actions))
  {
    hide Step, Justified, Grounded, Decides;
    if actions != [] {
      var before, a := actions[..|actions| - 1], actions[|actions| - 1];
      var s, s' := Run(before), Step(Run(before), a);
      assert actions == before + [a];
      AlwaysChecked(before);
      LogGrows(s, a);
      forall t: nat | t < |s'.tasks| ensures Justified(actions, t, s'.tasks[t].stage) {
        StillJustified(before, s, a, t);
      }
      forall i | 0 <= i < |s'.log| && Decides(s'.log[i]) ensures exists t :: Grounded(actions, s', s'.log[i], t) {
        var t: nat;
        if i < |s.log| {
          assert s'.log[i] == s.log[i];
          t :| Grounded(before, s, s.log[i], t);
        } else {
          NewlyDue(before, s, a, i);
          t := a.t;
        }
        StillDue(before, s, a, s'.log[i], t);
      }
    }
  }

  /** No order is recorded without a call for its intent that the risk check let through. */
  lemma OrdersPassTheRiskCheck(actions: seq<Action>, e: Event)
    requires e in Run(actions).log && e.eventType.ORDER_CREATED?
    ensures exists t :: 0 <= t < |Run(actions).tasks| && e in Batch(Run(actions).tasks[t].intent) && Validate(t, None) in actions
  {
    hide Run, Batch;
    AlwaysChecked(actions);
    var i :| 0 <= i < |Run(actions).log| && Run(actions).log[i] == e;
    var t :| Grounded(actions, Run(actions), e, t);
  }

  /** Every rejection says what some call for its intent was refused or failed with. */
  lemma RejectionsSayWhy(actions: seq<Action>, e: Event)
    requires e in Run(actions).log && e.eventType.ORDER_REJECTED?
    ensures e.payload.Reason? && e.aggregateId == e.key
    ensures exists t: nat ::
      (t < |Run(actions).tasks| && Run(actions).tasks[t].intent.idempotencyKey == e.key &&
       WentWrong(actions, t, e.payload.message))
  {
    hide Run;
    AlwaysChecked(actions);
    var i :| 0 <= i < |Run(actions).log| && Run(actions).log[i] == e;
    var t :| Grounded(actions, Run(actions), e, t);
  }

  /** A child order of either kind exists exactly if its parent was created with that link. */
  lemma ChildrenComeWithTheirParent(actions: seq<Action>, key: string)
    ensures var log := Run(actions).log;
      && (HasChild(log, TAKE_PROFIT, key) <==>
            exists x: Intent :: x.idempotencyKey == key && Parent(x) in log && x.takeProfit.Some?)
      && (HasChild(log, STOP, key) <==>
            exists x: Intent :: x.idempotencyKey == key && Parent(x) in log && x.stopLoss.Some?)
  {
    var log := Run(actions).log;
    forall x: Intent | x.idempotencyKey == key && Parent(x) in log
      ensures x.takeProfit.Some? ==> HasChild(log, TAKE_PROFIT, key)
      ensures x.stopLoss.Some? ==> HasChild(log, STOP, key)
    {
      ParentIsBorn(actions, x);
      if x.takeProfit.Some? { assert TakeProfitChild(x) in Batch(x) && IsChild(TakeProfitChild(x), TAKE_PROFIT, key); }
      if x.stopLoss.Some? { assert StopLossChild(x) in Batch(x) && IsChild(StopLossChild(x), STOP, key); }
    }
    if e :| e in log && IsChild(e, TAKE_PROFIT, key) {
      ChildIsBorn(actions, e, TAKE_PROFIT, key);
    }
    if e :| e in log && IsChild(e, STOP, key) {
      ChildIsBorn(actions, e, STOP, key);
    }
  }

  // ----- keys that intents take ----------------------------------------------------------

  /** The keys an intent can store something under. */
  predicate Claims(x: Intent, key: string) {
    || key == x.idempotencyKey
    || (x.takeProfit.Some? && key == x.idempotencyKey + "-tp")
    || (x.stopLoss.Some? && key == x.idempotencyKey + "-sl")
  }

  /** An order event sits on the key. */
  ghost predicate OrderHolds(log: Log, key: string) {
    exists e :: e in log && e.key == key && (e.eventType.ORDER_CREATED? || e.eventType.ORDER_REJECTED?)
  }

  lemma HoldersClaim(actions: seq<Action>, key: string)
    requires OrderHolds(Run(actions).log, key)
    ensures exists x :: Arrive(x) in actions && Claims(x, key)
  {
    EveryEventComes(actions);
    var log := Run(actions).log;
    var e :| e in log && e.key == key && (e.eventType.ORDER_CREATED? || e.eventType.ORDER_REJECTED?);
    assert Comes(actions, log, e);
    if e.eventType.ORDER_CREATED? {
      var x :| Born(actions, log, e, x);
      assert Claims(x, key);
    }
  }

  /** Only the given intents arrive, all with keys, and trades are between named orders. */
  ghost predicate Within(a: Action, intents: set<Intent>) {
    && Keyed(a)
    && (a.Arrive? ==> a.intent in intents)
    && (a.Execute? ==> Named(a.trade) && a.trade.takerOrderId != a.trade.makerOrderId)
  }

  /** A run that has stored the orders of one intent, and nothing else. */
  lemma StoreFirst(x: Intent, intents: set<Intent>) returns (actions: seq<Action>)
    requires x in intents && x.idempotencyKey != ""
    ensures Interleaving(actions) && (forall a | a in actions :: Within(a, intents))
    ensures Run(actions).log == Batch(x) && forall a | a in actions :: !a.Execute? && !a.CancelIntent?
  {
    hide Run, Interleaving;
    Nothing();
    BatchFits(x);
    var a1 := [] + [Arrive(x)];
    Extended([], Arrive(x));
    Extended(a1, Validate(0, None));
    var a2 := a1 + [Validate(0, None)];
    assert Run(a2) == State([], [Task(x, Committing)]);
    Extended(a2, Commit(0, None));
    actions := a2 + [Commit(0, None)];
    assert [] + Batch(x) == Batch(x);
  }

  lemma BatchFits(x: Intent)
    ensures Fits([], Batch(x))
  {
    var k := x.idempotencyKey;
    assert (k + "-tp")[|k| + 1] == 't' && (k + "-sl")[|k| + 1] == 's';
  }

  lemma ClaimsAreStored(x: Intent, key: string)
    requires Claims(x, key) && key != ""
    ensures Taken(Batch(x), key) && OrderHolds(Batch(x), key)
  {
    var b := if key == x.idempotencyKey then Parent(x)
             else if x.takeProfit.Some? && key == x.idempotencyKey + "-tp" then TakeProfitChild(x)
             else StopLossChild(x);
    assert b in Batch(x) && b.key == key;
  }

  // ----- cancels -------------------------------------------------------------------------

  ghost predicate CancelRecorded(log: Log, id: string) {
    exists e :: e in log && e.eventType.ORDER_CANCELED? && e.aggregateId == id
  }

  ghost predicate CancelAsked(actions: seq<Action>, id: string) {
    exists a :: a in actions && a.CancelIntent? && a.orderId == id
  }

  lemma {:induction false} UsedKeysAreTaken(actions: seq<Action>, a: Action, key: string)
    requires a in actions && Uses(a, key) && key != ""
    ensures Taken(Run(actions).log, key)
  {
    hide Step, Taken, Uses;
    var before, last := actions[..|actions| - 1], actions[|actions| - 1];
    var s := Run(before);
    LogGrows(s, last);
    assert Step(s, last).log == s.log + Step(s, last).log[|s.log|..];
    assert actions == before + [last];
    if last == a {
      UseTakes(s, a, key);
    } else {
      UsedKeysAreTaken(before, a, key);
      TakenExtended(s.log, Step(s, last).log[|s.log|..], key);
    }
  }

  lemma UseTakes(s: State, a: Action, key: string)
    requires Uses(a, key) && key != ""
    ensures Taken(Step(s, a).log, key)
  {
    var log' := Step(s, a).log;
    assert Taken(s.log, key) || log'[|s.log|].key == key;
  }

  /** A cancel that was asked for is recorded exactly unless something else sits on its key. */
  lemma CancelsAreRecorded(actions: seq<Action>, id: string)
    requires Interleaving(actions) && (forall a | a in actions :: Keyed(a)) && CancelAsked(actions, id)
    ensures CancelRecorded(Run(actions).log, id) <==>
      forall e | e in Run(actions).log && e.key == id + "-cancel" :: e.eventType.ORDER_CANCELED?
  {
    hide Run, Interleaving;
    var log, key := Run(actions).log, id + "-cancel";
    var a :| a in actions && a.CancelIntent? && a.orderId == id;
    UsedKeysAreTaken(actions, a, key);
    BasicAlways(actions);
    var i :| 0 <= i < |log| && log[i].key == key;
    assert log[i] in log;
    if CancelRecorded(log, id) {
      var e :| e in log && e.eventType.ORDER_CANCELED? && e.aggregateId == id;
      assert Plain(e);
      var j :| 0 <= j < |log| && log[j] == e;
      forall k | 0 <= k < |log| && log[k].key == key ensures k == j {}
    } else {
      SameCancelKey(log[i], id);
    }
  }

  lemma SameCancelKey(e: Event, id: string)
    requires Plain(e) && e.key == id + "-cancel"
    ensures e.eventType.ORDER_CANCELED? ==> e.aggregateId == id
  {
    if e.eventType.ORDER_CANCELED? {
      assert e.aggregateId == e.key[..|e.key| - 7] == id;
    }
  }

  /** A run in which a cancel is asked for and never recorded. */
  ghost predicate LosesCancel(actions: seq<Action>, intents: set<Intent>, id: string) {
    && Interleaving(actions) && (forall a | a in actions :: Within(a, intents))
    && CancelAsked(actions, id) && !CancelRecorded(Run(actions).log, id)
  }

  /** That can happen exactly if one of the intents has the key of the cancel, or lends it to a child. */
  lemma CancelsThatCanBeLost(intents: set<Intent>, id: string)
    ensures (exists actions :: LosesCancel(actions, intents, id)) <==>
      exists x :: x in intents && x.idempotencyKey != "" && Claims(x, id + "-cancel")
  {
    var key := id + "-cancel";
    if actions :| LosesCancel(actions, intents, id) {
      CancelLostToAnOrder(actions, intents, id);
    }
    if x :| x in intents && x.idempotencyKey != "" && Claims(x, key) {
      var actions := LoseCancelTo(x, intents, id);
    }
  }

  lemma CancelLostToAnOrder(actions: seq<Action>, intents: set<Intent>, id: string)
    requires LosesCancel(actions, intents, id)
    ensures exists x :: x in intents && x.idempotencyKey != "" && Claims(x, id + "-cancel")
  {
    hide Run, Interleaving;
    var key := id + "-cancel";
    CancelsAreRecorded(actions, id);
    EveryEventComes(actions);
    var e :| e in Run(actions).log && e.key == key && !e.eventType.ORDER_CANCELED?;
    assert Comes(actions, Run(actions).log, e);
    if e.eventType.TRADE_EXECUTED? {
      assert Execute(e.payload.trade) in actions;
      FillKeyShape(key);
    }
    assert OrderHolds(Run(actions).log, key);
    HoldersClaim(actions, key);
  }

  lemma LoseCancelTo(x: Intent, intents: set<Intent>, id: string) returns (actions: seq<Action>)
    requires x in intents && x.idempotencyKey != "" && Claims(x, id + "-cancel")
    ensures LosesCancel(actions, intents, id)
  {
    hide Run, Interleaving, Claims;
    var a := CancelIntent(id, "", "");
    var stored := StoreFirst(x, intents);
    Extended(stored, a);
    ClaimsAreStored(x, id + "-cancel");
    actions := stored + [a];
    assert a in actions && Run(actions).log == Batch(x);
  }
}
