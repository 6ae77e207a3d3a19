/** What passes through the stages: orders are delivered in order, and trades and releases happen once. */
module VenueLaws {
  import opened PriceTime
  import opened Escrows
  import L = Ledgers

  lemma {:induction false} GetPut(ls: seq<Listing>, symbol: string, b: Book, s: string)
    ensures Get(Put(ls, symbol, b), s) == if s == symbol then b else Get(ls, s)
  {
    if ls != [] && ls[0].symbol != symbol {
      GetPut(ls[1..], symbol, b, s);
    }
  }

  // ----- the stages, each by itself ------------------------------------------------------

  /** The orders accepted by an event: those of ordinary users with a price and a quantity that the ledger has funds for. */
  function LockedBy(v: Venue, e: Event): seq<Ticket> {
    if e.Place? && e.ticket.order.price > 0 && e.ticket.order.quantity > 0 && e.ticket.order.userId != L.SYSTEM
       && Locking(v, e.ticket).1.Ok? then [e.ticket] else []
  }

  function DeliveredBy(v: Venue, e: Event): seq<Ticket> {
    if e.Deliver? && v.accepted != [] then [v.accepted[0]] else []
  }

  /** The message for the book of a symbol. */
  function MessageBy(v: Venue, e: Event, symbol: string): seq<Msg> {
    if e.Deliver? && v.accepted != [] && v.accepted[0].symbol == symbol then [AddMsg(v.accepted[0].order)]
    else if e.CancelOrder? && e.symbol == symbol then [CancelMsg(e.id)]
    else []
  }

  function MatchedBy(v: Venue, e: Event): seq<Trade> {
    if e.Deliver? && v.accepted != [] then
      Match(v.accepted[0].symbol, Get(v.listings, v.accepted[0].symbol), v.accepted[0].order).trades
    else []
  }

  function SettledBy(v: Venue, e: Event): seq<Trade> {
    if e.SettleNext? && e.i < |v.unsettled| && Settling(v, v.unsettled[e.i]).1.Ok? then [v.unsettled[e.i]] else []
  }

  function WithdrawnBy(v: Venue, e: Event): seq<Ticket> {
    if e.CancelOrder? then
      var b := Get(v.listings, e.symbol);
      Tickets(e.symbol, WithId(b.bids, e.id)) + Tickets(e.symbol, WithId(b.asks, e.id))
    else []
  }

  function ReleasedBy(v: Venue, e: Event): seq<Ticket> {
    if e.ReleaseNext? && e.i < |v.releasing| && Releasing(v, v.releasing[e.i]).1.Ok? then [v.releasing[e.i]] else []
  }

  /** What the events of a run produced at one stage, in order. */
  function All<T>(start: Venue, es: seq<Event>, stage: (Venue, Event) -> seq<T>): seq<T> {
    if es == [] then [] else All(start, es[..|es| - 1], stage) + stage(RunVenue(start, es[..|es| - 1]), es[|es| - 1])
  }

  lemma AcceptedStep(v: Venue, e: Event)
    ensures v.accepted + LockedBy(v, e) == DeliveredBy(v, e) + Advance(v, e).accepted
  {
    hide L.Lock, L.Release, L.Settle, Match, Add;
    assert v.accepted != [] ==> v.accepted == [v.accepted[0]] + v.accepted[1..];
  }

  lemma UnsettledStep(v: Venue, e: Event)
    ensures multiset(v.unsettled) + multiset(MatchedBy(v, e)) == multiset(SettledBy(v, e)) + multiset(Advance(v, e).unsettled)
  {
    hide L.Lock, L.Release, L.Settle, Match, Add, Drop;
    if e.SettleNext? && e.i < |v.unsettled| {
      Dropped(v.unsettled, e.i);
    }
  }

  lemma ReleasingStep(v: Venue, e: Event)
    ensures multiset(v.releasing) + multiset(WithdrawnBy(v, e)) == multiset(ReleasedBy(v, e)) + multiset(Advance(v, e).releasing)
  {
    hide L.Lock, L.Release, L.Settle, Match, Add, Drop;
    if e.ReleaseNext? && e.i < |v.releasing| {
      Dropped(v.releasing, e.i);
    }
  }

  lemma Dropped<T>(s: seq<T>, i: nat)
    requires i < |s|
    ensures multiset(s) == multiset([s[i]]) + multiset(Drop(s, i))
  {
    assert s == s[..i] + [s[i]] + s[i + 1..];
  }

  // ----- whole runs ----------------------------------------------------------------------

  /** Accepted orders are delivered once each, first come first served. */
  lemma {:induction false} OrdersAreDeliveredInOrder(opening: map<L.Account, int>, es: seq<Event>)
    ensures var start := Opening(opening);
      All(start, es, LockedBy) == All(start, es, DeliveredBy) + RunVenue(start, es).accepted
  {
    hide Advance, LockedBy, DeliveredBy;
    if es != [] {
      var start, before, e := Opening(opening), es[..|es| - 1], es[|es| - 1];
      var v := RunVenue(start, before);
      OrdersAreDeliveredInOrder(opening, before);
      AcceptedStep(v, e);
      var l, d := All(start, before, LockedBy), All(start, before, DeliveredBy);
      assert l + LockedBy(v, e) == d + DeliveredBy(v, e) + Advance(v, e).accepted by {
        assert l + LockedBy(v, e) == d + (v.accepted + LockedBy(v, e));
      }
    }
  }

  lemma Balanced<T>(into: seq<T>, out: seq<T>, here: seq<T>, more: seq<T>, gone: seq<T>, here': seq<T>)
    requires multiset(into) == multiset(out) + multiset(here)
    requires multiset(here) + multiset(more) == multiset(gone) + multiset(here')
    ensures multiset(into + more) == multiset(out + gone) + multiset(here')
  {
    assert multiset(into + more) == multiset(into) + multiset(more);
    assert multiset(out + gone) == multiset(out) + multiset(gone);
    forall x
      ensures multiset(into)[x] + multiset(more)[x] == multiset(out)[x] + multiset(gone)[x] + multiset(here')[x]
    {
      assert (multiset(here) + multiset(more))[x] == (multiset(gone) + multiset(here'))[x];
    }
  }

  /** A trade that was matched is settled once, or still waits to be. */
  lemma {:induction false} TradesAreSettledOnce(opening: map<L.Account, int>, es: seq<Event>)
    ensures var start := Opening(opening);
      multiset(All(start, es, MatchedBy)) == multiset(All(start, es, SettledBy)) + multiset(RunVenue(start, es).unsettled)
  {
    hide Advance, MatchedBy, SettledBy;
    if es != [] {
      var start, before, e := Opening(opening), es[..|es| - 1], es[|es| - 1];
      var v := RunVenue(start, before);
      TradesAreSettledOnce(opening, before);
      UnsettledStep(v, e);
      Balanced(All(start, before, MatchedBy), All(start, before, SettledBy), v.unsettled,
               MatchedBy(v, e), SettledBy(v, e), Advance(v, e).unsettled);
    }
  }

  /** What a cancel takes out of a book is released once, or still waits to be. */
  lemma {:induction false} CancelsAreReleasedOnce(opening: map<L.Account, int>, es: seq<Event>)
    ensures var start := Opening(opening);
      multiset(All(start, es, WithdrawnBy)) == multiset(All(start, es, ReleasedBy)) + multiset(RunVenue(start, es).releasing)
  {
    hide Advance, WithdrawnBy, ReleasedBy;
    if es != [] {
      var start, before, e := Opening(opening), es[..|es| - 1], es[|es| - 1];
      var v := RunVenue(start, before);
      CancelsAreReleasedOnce(opening, before);
      ReleasingStep(v, e);
      Balanced(All(start, before, WithdrawnBy), All(start, before, ReleasedBy), v.releasing,
               WithdrawnBy(v, e), ReleasedBy(v, e), Advance(v, e).releasing);
    }
  }

  function MessagesTo(start: Venue, es: seq<Event>, symbol: string): seq<Msg> {
    if es == [] then []
    else MessagesTo(start, es[..|es| - 1], symbol) + MessageBy(RunVenue(start, es[..|es| - 1]), es[|es| - 1], symbol)
  }

  lemma BookStep(v: Venue, e: Event, symbol: string, s: State)
    requires s.book == Get(v.listings, symbol)
    ensures MessageBy(v, e, symbol) == [] ==> Get(Advance(v, e).listings, symbol) == s.book
    ensures MessageBy(v, e, symbol) != [] ==>
      Get(Advance(v, e).listings, symbol) == Step(symbol, s, MessageBy(v, e, symbol)[0]).book
    ensures |MessageBy(v, e, symbol)| <= 1
  {
    match e
    case Deliver =>
      if v.accepted != [] {
        var t := v.accepted[0];
        GetPut(v.listings, t.symbol, Add(t.symbol, Get(v.listings, t.symbol), t.order), symbol);
      }
    case CancelOrder(symbol', id) =>
      GetPut(v.listings, symbol', Cancel(Get(v.listings, symbol'), id), symbol);
    case _ =>
  }

  /** Every listed book is the run of the orders delivered to it and the cancels for it. */
  lemma {:induction false} ListedBooksAreRuns(opening: map<L.Account, int>, es: seq<Event>, symbol: string)
    ensures
      var start := Opening(opening);
      Get(RunVenue(start, es).listings, symbol) == Run(symbol, INITIAL, MessagesTo(start, es, symbol)).book
  {
    hide Advance, Step, MessageBy;
    var start := Opening(opening);
    if es != [] {
      var before, e := es[..|es| - 1], es[|es| - 1];
      ListedBooksAreRuns(opening, before, symbol);
      var v, ms := RunVenue(start, before), MessagesTo(start, before, symbol);
      BookStep(v, e, symbol, Run(symbol, INITIAL, ms));
      var more := MessageBy(v, e, symbol);
      if more == [] {
        assert ms + [] == ms;
      } else {
        assert (ms + more)[..|ms|] == ms;
      }
    }
  }
}
