/** The append-only event log with its unique idempotency keys. */
module EventStores {
  import opened PriceTime
  import opened Wrappers

  datatype EventType = ORDER_CREATED | ORDER_REJECTED | ORDER_CANCELED | ORDER_ACTIVATED | TRADE_EXECUTED

  datatype OrderType = MARKET | LIMIT | STOP | STOP_LIMIT | TAKE_PROFIT

  datatype Target = Target(price: int, quantity: int)

  datatype Intent = Intent(
    idempotencyKey: string, userId: string, symbol: string, side: Side, kind: OrderType,
    price: int, quantity: int, stopPrice: int, takeProfit: Option<Target>, stopLoss: Option<Target>)

  datatype Payload =
    | Placed(order: Intent, parentOrderId: Option<string>)
    | Reason(message: string)
    | Cancelled(symbol: string, userId: string)
    | Activated(order: Intent, status: string)
    | Executed(trade: Trade)

  /** A row of the log; its sequence number is its position. The empty key is stored as NULL. */
  datatype Event = Event(aggregateId: string, eventType: EventType, payload: Payload, key: string)

  type Log = seq<Event>

  predicate Taken(log: Log, key: string) {
    key != "" && exists i | 0 <= i < |log| :: log[i].key == key
  }

  /** INSERT ... ON CONFLICT (idempotency_key) DO NOTHING. */
  function Appended(log: Log, e: Event): Log {
    if Taken(log, e.key) then log else log + [e]
  }

  ghost predicate UniqueKeys(log: Log) {
    forall i, j | 0 <= i < j < |log| && log[i].key != "" :: log[i].key != log[j].key
  }

  /** Every key of the batch is new to the log and occurs in the batch once. */
  ghost predicate Fits(log: Log, batch: seq<Event>) {
    && (forall i | 0 <= i < |batch| :: !Taken(log, batch[i].key))
    && UniqueKeys(batch)
  }

  lemma AppendKeepsUnique(log: Log, e: Event)
    requires UniqueKeys(log)
    ensures UniqueKeys(Appended(log, e))
  {}

  lemma FitKeepsUnique(log: Log, batch: seq<Event>)
    requires UniqueKeys(log) && Fits(log, batch)
    ensures UniqueKeys(log + batch)
  {
    var all := log + batch;
    forall i, j | 0 <= i < j < |all| && all[i].key != "" ensures all[i].key != all[j].key {
      if i < |log| <= j {
        assert !Taken(log, batch[j - |log|].key);
      }
    }
  }

  class EventStore {
    var log: Log

    constructor ()
      ensures log == []
    {
      log := [];
    }

    method Append(e: Event) returns (stored: bool)
      modifies this
      ensures log == Appended(old(log), e) && stored == !Taken(old(log), e.key)
      ensures stored <==> e.key == "" || forall i | 0 <= i < |old(log)| :: old(log)[i].key != e.key
      ensures log == if stored then old(log) + [e] else old(log)
    {
      stored := !Taken(log, e.key);
      if stored {
        log := log + [e];
      }
    }

    /** Rows are inserted one by one and all taken back at the first key conflict. */
    method AppendBatch(batch: seq<Event>) returns (duplicate: Option<string>)
      modifies this
      ensures duplicate.None? <==> Fits(old(log), batch)
      ensures duplicate.None? ==> log == old(log) + batch
      ensures duplicate.Some? ==> log == old(log) && exists e | e in batch :: e.key == duplicate.value != ""
    {
      var begin := log;
      for i := 0 to |batch|
        invariant log == begin + batch[..i] && Fits(begin, batch[..i])
      {
        if Taken(log, batch[i].key) {
          log := begin;
          assert batch[i] in batch;
          assert !Fits(begin, batch) by {
            var k :| 0 <= k < |begin + batch[..i]| && (begin + batch[..i])[k].key == batch[i].key;
            assert k < |begin| ==> begin[k].key == batch[i].key;
            assert k >= |begin| ==> batch[k - |begin|].key == batch[i].key;
          }
          return Some(batch[i].key);
        }
        assert !Taken(begin, batch[i].key) by {
          assert forall k | 0 <= k < |begin| :: (begin + batch[..i])[k] == begin[k];
        }
        assert forall k | 0 <= k < i :: (begin + batch[..i])[|begin| + k] == batch[k];
        log := log + [batch[i]];
      }
      assert batch[..|batch|] == batch;
      return None;
    }
  }
}
