/** Order intents becoming events. One step is what a handler does between two awaits. */
module OmsEngines {
  import PriceTime
  import opened EventStores
  import opened Keys
  import opened Wrappers

  function Parent(x: Intent): Event {
    Event(x.idempotencyKey, ORDER_CREATED, Placed(x, None), x.idempotencyKey)
  }

  function TakeProfitChild(x: Intent): Event
    requires x.takeProfit.Some?
  {
    var id := x.idempotencyKey + "-tp";
    var t := x.takeProfit.value;
    Event(id, ORDER_CREATED,
          Placed(x.(kind := TAKE_PROFIT, price := t.price, quantity := t.quantity, side := x.side.Other()),
                 Some(x.idempotencyKey)), id)
  }

  function StopLossChild(x: Intent): Event
    requires x.stopLoss.Some?
  {
    var id := x.idempotencyKey + "-sl";
    var t := x.stopLoss.value;
    Event(id, ORDER_CREATED,
          Placed(x.(kind := STOP, stopPrice := t.price, quantity := t.quantity, side := x.side.Other()),
                 Some(x.idempotencyKey)), id)
  }

  function Batch(x: Intent): seq<Event> {
    [Parent(x)] + (if x.takeProfit.Some? then [TakeProfitChild(x)] else [])
    + (if x.stopLoss.Some? then [StopLossChild(x)] else [])
  }

  function Rejection(key: string, reason: string): Event {
    Event(key, ORDER_REJECTED, Reason(reason), key)
  }

  function Cancellation(orderId: string, symbol: string, userId: string): Event {
    Event(orderId, ORDER_CANCELED, Cancelled(symbol, userId), orderId + "-cancel")
  }

  function FillOf(t: PriceTime.Trade): Event {
    Event(t.takerOrderId, TRADE_EXECUTED, Executed(t), Join(t.takerOrderId, t.makerOrderId))
  }

  function Activation(id: string, order: Intent, status: string): Event {
    Event(id, ORDER_ACTIVATED, Activated(order, status), "")
  }

  /** Where a call of processIntent stands; Lost means that even its rejection could not be stored. */
  datatype Stage = Validating | Committing | Publishing(left: nat) | Rejecting(reason: string) | Finished | Lost

  datatype Task = Task(intent: Intent, stage: Stage)

  datatype State = State(log: Log, tasks: seq<Task>) {
    function Staged(t: nat, stage: Stage): State
      requires t < |tasks|
    {
      this.(tasks := tasks[t := tasks[t].(stage := stage)])
    }

    predicate At(t: nat, stage: Stage) {
      t < |tasks| && tasks[t].stage == stage
    }
  }

  const INITIAL := State([], [])

  /** What the outside world answers is part of the step: a verdict, an error, a duplicate key. */
  datatype Action =
    | Arrive(intent: Intent)
    | Validate(t: nat, refusal: Option<string>)
    | Commit(t: nat, error: Option<string>)
    | Publish(t: nat, error: Option<string>)
    | Reject(t: nat, up: bool)
    | CancelIntent(orderId: string, symbol: string, userId: string)
    | Execute(trade: PriceTime.Trade)
    | Activate(id: string, order: Intent, status: string)

  function Step(s: State, a: Action): State {
    match a
    case Arrive(x) => s.(tasks := s.tasks + [Task(x, Validating)])
    case Validate(t, refusal) =>
      if !s.At(t, Validating) then s
      else s.Staged(t, if refusal.Some? then Rejecting(refusal.value) else Committing)
    case Commit(t, error) =>
      if !s.At(t, Committing) then s
      else if error.Some? then s.Staged(t, Rejecting(error.value))
      else
        var batch := Batch(s.tasks[t].intent);
        s.(log := s.log + batch).Staged(t, Publishing(|batch|))
    case Publish(t, error) =>
      if t >= |s.tasks| || !s.tasks[t].stage.Publishing? then s
      else
        var left := s.tasks[t].stage.left;
        if left > 0 && error.Some? then s.Staged(t, Rejecting(error.value))
        else s.Staged(t, if left > 1 then Publishing(left - 1) else Finished)
    case Reject(t, up) =>
      if t >= |s.tasks| || !s.tasks[t].stage.Rejecting? then s
      else if !up then s.Staged(t, Lost)
      else
        var x := s.tasks[t].intent;
        s.(log := Appended(s.log, Rejection(x.idempotencyKey, s.tasks[t].stage.reason))).Staged(t, Finished)
    case CancelIntent(id, symbol, userId) => s.(log := Appended(s.log, Cancellation(id, symbol, userId)))
    case Execute(trade) => s.(log := Appended(s.log, FillOf(trade)))
    case Activate(id, x, status) => s.(log := Appended(s.log, Activation(id, x, status)))
  }

  /** A batch goes through only if its keys fit; it may also fail for reasons of the database. */
  ghost predicate Possible(s: State, a: Action) {
    a.Commit? && s.At(a.t, Committing) ==> (a.error.None? ==> Fits(s.log, Batch(s.tasks[a.t].intent)))
  }

  function Run(actions: seq<Action>): State {
    if actions == [] then INITIAL
    else Step(Run(actions[..|actions| - 1]), actions[|actions| - 1])
  }

  ghost predicate Interleaving(actions: seq<Action>) {
    forall i | 0 <= i < |actions| :: Possible(Run(actions[..i]), actions[i])
  }

  /** The engine with the tasks it has in progress, over a shared store. */
  class OmsEngine {
    const store: EventStore
    var tasks: seq<Task>

    ghost function View(): State reads this, store {
      State(store.log, tasks)
    }

    constructor (store: EventStore)
      ensures this.store == store && tasks == []
    {
      this.store := store;
      tasks := [];
    }

    method ProcessIntent(x: Intent) returns (t: nat)
      modifies `tasks
      ensures View() == Step(old(View()), Arrive(x)) && t < |tasks| && tasks[t] == Task(x, Validating)
    {
      t := |tasks|;
      tasks := tasks + [Task(x, Validating)];
    }

    method RiskVerdict(t: nat, refusal: Option<string>)
      requires t < |tasks| && tasks[t].stage == Validating
      modifies `tasks
      ensures View() == Step(old(View()), Validate(t, refusal))
    {
      tasks := tasks[t := tasks[t].(stage := if refusal.Some? then Rejecting(refusal.value) else Committing)];
    }

    /** Builds the events of the order and its children and appends them together. */
    method AppendOrder(t: nat, failure: Option<string>) returns (ghost error: Option<string>)
      requires t < |tasks| && tasks[t].stage == Committing
      modifies `tasks, store
      ensures Possible(old(View()), Commit(t, error)) && View() == Step(old(View()), Commit(t, error))
      ensures error.None? <==> failure.None? && Fits(old(store.log), Batch(old(tasks[t].intent)))
    {
      var x := tasks[t].intent;
      var eventsToAppend := [Parent(x)];
      if x.takeProfit.Some? {
        eventsToAppend := eventsToAppend + [TakeProfitChild(x)];
      }
      if x.stopLoss.Some? {
        eventsToAppend := eventsToAppend + [StopLossChild(x)];
      }
      assert eventsToAppend == Batch(x);
      if failure.Some? {
        tasks := tasks[t := Task(x, Rejecting(failure.value))];
        return failure;
      }
      var duplicate := store.AppendBatch(eventsToAppend);
      if duplicate.Some? {
        var message := "Duplicate idempotency_key [" + duplicate.value + "] found in batch append.";
        tasks := tasks[t := Task(x, Rejecting(message))];
        return Some(message);
      }
      tasks := tasks[t := Task(x, Publishing(|eventsToAppend|))];
      return None;
    }

    method PublishNext(t: nat, error: Option<string>)
      requires t < |tasks| && tasks[t].stage.Publishing?
      modifies `tasks
      ensures View() == Step(old(View()), Publish(t, error))
    {
      var left := tasks[t].stage.left;
      if left > 0 && error.Some? {
        tasks := tasks[t := tasks[t].(stage := Rejecting(error.value))];
      } else {
        tasks := tasks[t := tasks[t].(stage := if left > 1 then Publishing(left - 1) else Finished)];
      }
    }

    /** The catch block. */
    method AppendRejection(t: nat, up: bool)
      requires t < |tasks| && tasks[t].stage.Rejecting?
      modifies `tasks, store
      ensures View() == Step(old(View()), Reject(t, up))
      ensures var key, reason := old(tasks[t].intent.idempotencyKey), old(tasks[t].stage.reason);
        store.log == if up then Appended(old(store.log), Event(key, ORDER_REJECTED, Reason(reason), key)) else old(store.log)
    {
      if up {
        var _ := store.Append(Rejection(tasks[t].intent.idempotencyKey, tasks[t].stage.reason));
      }
      tasks := tasks[t := tasks[t].(stage := if up then Finished else Lost)];
    }

    method ProcessCancel(orderId: string, symbol: string, userId: string)
      modifies store
      ensures View() == Step(old(View()), CancelIntent(orderId, symbol, userId))
      ensures store.log ==
        Appended(old(store.log), Event(orderId, ORDER_CANCELED, Cancelled(symbol, userId), orderId + "-cancel"))
    {
      var _ := store.Append(Cancellation(orderId, symbol, userId));
    }
  }
}
