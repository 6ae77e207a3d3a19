/** Cancelling an order that never traded undoes adding it. */
module CancelLaws {
  import opened PriceTime
  import opened BookLaws
  import opened RunLaws

  lemma {:induction false} RemoveInsertSame(q: seq<Order>, o: Order)
    requires LacksId(q, o.id)
    ensures Remove(Insert(q, o), o.id) == q
  {
    if q == [] || Better(o.side, o.price, q[0].price) {
      RemoveAbsent(q, o.id);
    } else {
      assert q[0] in q && forall x | x in q[1..] :: x in q;
      RemoveInsertSame(q[1..], o);
    }
  }

  lemma {:induction false} RemoveInsertOther(q: seq<Order>, o: Order, id: string)
    requires SideOk(o.side, q) && o.id != id
    ensures Remove(Insert(q, o), id) == Insert(Remove(q, id), o)
  {
    if q != [] {
      SideOkUncons(o.side, q);
      if Better(o.side, o.price, q[0].price) {
        RemoveMembers(q, id);
        InsertInFront(Remove(q, id), o);
      } else {
        RemoveInsertOther(q[1..], o, id);
      }
    }
  }

  lemma {:induction false} RemoveRemove(q: seq<Order>, a: string, b: string)
    ensures Remove(Remove(q, a), b) == Remove(Remove(q, b), a)
  {
    if q != [] {
      RemoveRemove(q[1..], a, b);
    }
  }

  /** A taker that trades with nobody in a queue trades with nobody in a part of it. */
  lemma NoTradeWithoutOne(symbol: string, taker: Order, makers: seq<Order>, id: string)
    requires SideOk(taker.side.Other(), makers) && Walk(symbol, taker, makers).trades == []
    ensures Walk(symbol, taker, makers) == Outcome([], taker.quantity, makers)
    ensures Walk(symbol, taker, Remove(makers, id)) == Outcome([], taker.quantity, Remove(makers, id))
  {
    if makers != [] && taker.quantity > 0 {
      LimitCutsOffTheTail(taker, makers);
      RemoveMembers(makers, id);
      var r := Remove(makers, id);
      if r != [] {
        assert r[0] in makers;
      }
    }
  }

  /** The message neither mentions the id nor trades. */
  predicate Quiet(symbol: string, b: Book, m: Msg, id: string) {
    match m
    case AddMsg(o) => o.id != id && Match(symbol, b, o).trades == []
    case CancelMsg(cut) => cut != id
  }

  lemma CancelCommutes(symbol: string, s: State, m: Msg, id: string)
    requires WellFormed(s.book) && Quiet(symbol, s.book, m, id)
    ensures Cancel(Step(symbol, s, m).book, id) == Step(symbol, State(Cancel(s.book, id), [], [], []), m).book
    ensures m.AddMsg? ==> Match(symbol, Cancel(s.book, id), m.order).trades == []
  {
    var b := s.book;
    match m
    case CancelMsg(cut) =>
      RemoveRemove(b.bids, id, cut);
      RemoveRemove(b.asks, id, cut);
    case AddMsg(o) =>
      NoTradeWithoutOne(symbol, o, b.On(o.side.Other()), id);
      RemoveInsertOther(b.On(o.side), o, id);
  }

  /** Every message of ms is quiet when ms is processed from s. */
  ghost predicate AllQuiet(symbol: string, s: State, ms: seq<Msg>, id: string)
    decreases |ms|
  {
    ms != [] ==>
      && AllQuiet(symbol, s, ms[..|ms| - 1], id)
      && Quiet(symbol, Run(symbol, s, ms[..|ms| - 1]).book, ms[|ms| - 1], id)
  }

  lemma BookOfStep(symbol: string, s: State, s': State, m: Msg)
    requires s.book == s'.book
    ensures Step(symbol, s, m).book == Step(symbol, s', m).book
  {}

  lemma {:induction false} CancelMovesToTheFront(symbol: string, s: State, ms: seq<Msg>, id: string)
    requires forall k | 0 <= k <= |ms| :: WellFormed(Run(symbol, s, ms[..k]).book)
    requires AllQuiet(symbol, s, ms, id)
    ensures Cancel(Run(symbol, s, ms).book, id) == Run(symbol, State(Cancel(s.book, id), [], [], []), ms).book
  {
    if ms != [] {
      var n := |ms| - 1;
      var s0 := State(Cancel(s.book, id), [], [], []);
      assert forall k | 0 <= k <= n :: ms[..n][..k] == ms[..k];
      CancelMovesToTheFront(symbol, s, ms[..n], id);
      var t := Run(symbol, s, ms[..n]);
      CancelCommutes(symbol, t, ms[n], id);
      BookOfStep(symbol, State(Cancel(t.book, id), [], [], []), Run(symbol, s0, ms[..n]), ms[n]);
    }
  }

  lemma {:induction false} RunConcat(symbol: string, s: State, a: seq<Msg>, b: seq<Msg>)
    ensures Run(symbol, s, a + b) == Run(symbol, Run(symbol, s, a), b)
  {
    if b == [] {
      assert a + b == a;
    } else {
      var n := |b| - 1;
      assert (a + b)[..|a + b| - 1] == a + b[..n] && (a + b)[|a + b| - 1] == b[n];
      RunConcat(symbol, s, a, b[..n]);
    }
  }

  lemma CancelAfterQuietAdd(symbol: string, b: Book, o: Order)
    requires WellFormed(b) && LacksId(b.bids, o.id) && LacksId(b.asks, o.id)
    requires Match(symbol, b, o).trades == []
    ensures Cancel(Add(symbol, b, o), o.id) == b
  {
    NoTradeWithoutOne(symbol, o, b.On(o.side.Other()), o.id);
    RemoveAbsent(b.bids, o.id);
    RemoveAbsent(b.asks, o.id);
    RemoveInsertSame(b.On(o.side), o);
  }

  /**
   * In any history, an order that trades with nobody, followed by messages about other orders
   * that do not trade either, followed by its cancellation, leaves the book of the history
   * without the order.
   */
  lemma CancelUndoesAdd(symbol: string, past: seq<Msg>, o: Order, later: seq<Msg>)
    requires FreshIds(past + [AddMsg(o)] + later)
    requires Match(symbol, Run(symbol, INITIAL, past).book, o).trades == []
    requires AllQuiet(symbol, Run(symbol, INITIAL, past + [AddMsg(o)]), later, o.id)
    ensures Run(symbol, INITIAL, past + [AddMsg(o)] + later + [CancelMsg(o.id)]).book
            == Run(symbol, INITIAL, past + later).book
  {
    var h := past + [AddMsg(o)];
    var p, s := Run(symbol, INITIAL, past), Run(symbol, INITIAL, h);
    forall k | 0 <= k <= |later| ensures WellFormed(Run(symbol, s, later[..k]).book) {
      RunConcat(symbol, INITIAL, h, later[..k]);
      FreshPrefix(h + later, h + later[..k]);
      ReachableBooks(symbol, h + later[..k]);
    }
    CancelMovesToTheFront(symbol, s, later, o.id);
    RunConcat(symbol, INITIAL, h, later);
    RunConcat(symbol, INITIAL, h + later, [CancelMsg(o.id)]);
    FreshPrefix(h + later, past);
    FreshPrefix(h + later, h);
    ReachableBooks(symbol, past);
    SideKnownIsStable(past, AddMsg(o), p.book.bids);
    SideKnownIsStable(past, AddMsg(o), p.book.asks);
    RunConcat(symbol, INITIAL, past, [AddMsg(o)]);
    CancelAfterQuietAdd(symbol, p.book, o);
    RunConcat(symbol, INITIAL, past, later);
    BookOfRun(symbol, State(p.book, [], [], []), p, later);
    assert (h + later + [CancelMsg(o.id)])[..|h + later|] == h + later;
  }

  lemma {:induction false} BookOfRun(symbol: string, s: State, s': State, ms: seq<Msg>)
    requires s.book == s'.book
    ensures Run(symbol, s, ms).book == Run(symbol, s', ms).book
  {
    if ms != [] {
      BookOfRun(symbol, s, s', ms[..|ms| - 1]);
    }
  }

  /** Cancelling an id that does not rest changes nothing. */
  lemma CancelUnknown(b: Book, id: string)
    requires LacksId(b.bids, id) && LacksId(b.asks, id)
    ensures Cancel(b, id) == b
  {
    RemoveAbsent(b.bids, id);
    RemoveAbsent(b.asks, id);
  }
}
