/** Escrow covers everything that will be settled or released, in every interleaving of the stages. */
module EscrowLaws {
  import opened PriceTime
  import opened BookLaws
  import opened Escrows
  import L = Ledgers

  // ----- the invariant -------------------------------------------------------------------

  ghost predicate Covered(keys: set<L.Account>, symbol: string, o: Order) {
    && Admissible(o) && HoldAccount(symbol, o) in keys
    && L.Account(o.userId, L.Currency(symbol, o.side), L.Checking) in keys
  }

  ghost predicate QueueCovered(keys: set<L.Account>, symbol: string, side: Side, q: seq<Order>) {
    forall i | 0 <= i < |q| :: q[i].side == side && Covered(keys, symbol, q[i])
  }

  ghost predicate BookCovered(keys: set<L.Account>, symbol: string, b: Book) {
    QueueCovered(keys, symbol, Buy, b.bids) && QueueCovered(keys, symbol, Sell, b.asks)
  }

  ghost predicate ListingsCovered(keys: set<L.Account>, ls: seq<Listing>) {
    forall i | 0 <= i < |ls| :: BookCovered(keys, ls[i].symbol, ls[i].book)
  }

  ghost predicate TicketsCovered(keys: set<L.Account>, ts: seq<Ticket>) {
    forall i | 0 <= i < |ts| :: Covered(keys, ts[i].symbol, ts[i].order)
  }

  ghost predicate TradeCovered(keys: set<L.Account>, t: Trade) {
    && t.price > 0 && t.quantity > 0 && t.buyerId != L.SYSTEM && t.sellerId != L.SYSTEM
    && L.BuyerCash(t.buyerId) in keys && L.SellerAsset(t.sellerId, t.symbol) in keys
  }

  ghost predicate TradesCovered(keys: set<L.Account>, ts: seq<Trade>) {
    forall i | 0 <= i < |ts| :: TradeCovered(keys, ts[i])
  }

  ghost predicate NoLoss(ss: seq<Saving>) {
    forall i | 0 <= i < |ss| :: ss[i].amount >= 0
  }

  ghost predicate AllCovered(keys: set<L.Account>, v: Venue) {
    && TicketsCovered(keys, v.accepted) && TicketsCovered(keys, v.releasing)
    && ListingsCovered(keys, v.listings) && TradesCovered(keys, v.unsettled) && NoLoss(v.saved)
  }

  ghost predicate Solvent(opening: map<L.Account, int>, l: L.Ledger) {
    l.balances.Keys == opening.Keys && forall a | a in opening :: l.balances[a] >= 0
  }

  /** The balance of an escrow account is its opening balance plus the claims on it. */
  ghost predicate Escrowed(opening: map<L.Account, int>, v: Venue) {
    && v.ledger.balances.Keys == opening.Keys
    && forall a | a in opening && a.kind.Escrow? :: v.ledger.balances[a] == opening[a] + Claims(a, v)
  }

  // ----- ledger effects on an escrow account ---------------------------------------------

  lemma LockEffect(l: L.Ledger, symbol: string, o: Order, a: L.Account)
    requires a in l.balances && a.kind.Escrow? && Admissible(o)
    ensures var (l', r) := L.Lock(l, o.userId, symbol, o.side, o.price, o.quantity);
      r.Ok? ==> l'.balances.Keys == l.balances.Keys && Covered(l.balances.Keys, symbol, o)
                && l'.balances[a] == l.balances[a] + OrderClaim(a, symbol, o)
                && ((forall x | x in l.balances :: l.balances[x] >= 0) ==> forall x | x in l'.balances :: l'.balances[x] >= 0)
  {}

  lemma ReleaseEffect(l: L.Ledger, symbol: string, o: Order, a: L.Account)
    requires a in l.balances && a.kind.Escrow? && Covered(l.balances.Keys, symbol, o)
    ensures var (l', r) := L.Release(l, o.userId, symbol, o.side, o.price, o.quantity);
      && (r.Ok? <==> l.balances[HoldAccount(symbol, o)] >= L.Amount(o.side, o.price, o.quantity))
      && (r.Ok? ==> l'.balances.Keys == l.balances.Keys
                    && l'.balances[a] == l.balances[a] - OrderClaim(a, symbol, o)
                    && ((forall x | x in l.balances :: l.balances[x] >= 0) ==> forall x | x in l'.balances :: l'.balances[x] >= 0))
  {
    assert o.side.Buy? ==> o.price * o.quantity > 0;
  }

  lemma SettleEffect(l: L.Ledger, t: Trade, a: L.Account)
    requires a in l.balances && a.kind.Escrow? && TradeCovered(l.balances.Keys, t)
    ensures var (l', r) := L.Settle(l, t.buyerId, t.sellerId, t.symbol, t.price, t.quantity);
      r.Ok? ==> l'.balances.Keys == l.balances.Keys
                && l'.balances[a] == l.balances[a] - TradeClaim(a, t)
                && ((forall x | x in l.balances :: l.balances[x] >= 0) ==> forall x | x in l'.balances :: l'.balances[x] >= 0)
  {}

  // ----- coverage survives matching and cancelling ---------------------------------------

  lemma {:induction false} InsertCovered(keys: set<L.Account>, symbol: string, side: Side, q: seq<Order>, o: Order)
    requires QueueCovered(keys, symbol, side, q) && o.side == side && Covered(keys, symbol, o)
    ensures QueueCovered(keys, symbol, side, Insert(q, o))
  {
    InsertMembers(q, o);
    forall i | 0 <= i < |Insert(q, o)| ensures Insert(q, o)[i].side == side && Covered(keys, symbol, Insert(q, o)[i]) {
      assert Insert(q, o)[i] in Insert(q, o);
    }
  }

  lemma {:induction false} RemoveCovered(keys: set<L.Account>, symbol: string, side: Side, q: seq<Order>, id: string)
    requires QueueCovered(keys, symbol, side, q)
    ensures QueueCovered(keys, symbol, side, Remove(q, id)) && TicketsCovered(keys, Tickets(symbol, WithId(q, id)))
  {
    if q != [] {
      RemoveCovered(keys, symbol, side, q[1..], id);
      var tail := WithId(q[1..], id);
      assert ([q[0]] + tail)[1..] == tail && [] + tail == tail;
    }
  }

  lemma {:induction false} WalkCovered(keys: set<L.Account>, symbol: string, taker: Order, makers: seq<Order>)
    requires QueueCovered(keys, symbol, taker.side.Other(), makers)
    requires taker.price > 0 && taker.userId != L.SYSTEM && HoldAccount(symbol, taker) in keys
    ensures var w := Walk(symbol, taker, makers);
      && QueueCovered(keys, symbol, taker.side.Other(), w.rest) && TradesCovered(keys, w.trades)
      && NoLoss(Savings(taker, w.trades))
    decreases |makers|
  {
    if makers != [] && taker.quantity > 0 && Crosses(taker, makers[0].price) {
      var m := makers[0];
      var q := Min(taker.quantity, m.quantity);
      var t := Fill(symbol, taker, m, q);
      assert Covered(keys, symbol, m) && TradeCovered(keys, t);
      assert taker.side.Buy? ==> (taker.price - m.price) * q >= 0;
      if q == m.quantity {
        var taker' := taker.(quantity := taker.quantity - q);
        WalkCovered(keys, symbol, taker', makers[1..]);
        SavingsIgnoreQuantity(taker, taker.quantity - q, Walk(symbol, taker', makers[1..]).trades);
      }
    }
  }

  lemma AddCovered(keys: set<L.Account>, symbol: string, b: Book, o: Order)
    requires BookCovered(keys, symbol, b) && Covered(keys, symbol, o)
    ensures BookCovered(keys, symbol, Add(symbol, b, o))
    ensures TradesCovered(keys, Match(symbol, b, o).trades) && NoLoss(Savings(o, Match(symbol, b, o).trades))
  {
    WalkCovered(keys, symbol, o, b.On(o.side.Other()));
    var w := Match(symbol, b, o);
    if Rests(o, w) {
      InsertCovered(keys, symbol, o.side, b.On(o.side), o.(quantity := w.left));
    }
  }

  lemma {:induction false} GetCovered(keys: set<L.Account>, ls: seq<Listing>, symbol: string)
    requires ListingsCovered(keys, ls)
    ensures BookCovered(keys, symbol, Get(ls, symbol))
  {
    if ls != [] && ls[0].symbol != symbol {
      GetCovered(keys, ls[1..], symbol);
    }
  }

  lemma {:induction false} PutCovered(keys: set<L.Account>, ls: seq<Listing>, symbol: string, b: Book)
    requires ListingsCovered(keys, ls) && BookCovered(keys, symbol, b)
    ensures ListingsCovered(keys, Put(ls, symbol, b))
  {
    if ls != [] && ls[0].symbol != symbol {
      PutCovered(keys, ls[1..], symbol, b);
    }
  }

  /** Claims move from the incoming order to the book, the trades and the savings. */
  lemma AddClaim(a: L.Account, keys: set<L.Account>, symbol: string, b: Book, o: Order)
    requires BookCovered(keys, symbol, b) && Covered(keys, symbol, o)
    ensures var trades := Match(symbol, b, o).trades;
      BookClaim(a, symbol, b) + OrderClaim(a, symbol, o)
      == BookClaim(a, symbol, Add(symbol, b, o)) + TradesClaim(a, trades) + SavedClaim(a, Savings(o, trades))
  {
    var makers, w := b.On(o.side.Other()), Match(symbol, b, o);
    WalkClaim(a, symbol, o, makers);
    if Rests(o, w) {
      InsertClaim(a, symbol, b.On(o.side), o.(quantity := w.left));
    } else {
      var k := WalkRest(symbol, o, makers);
      assert w.left == 0;
    }
  }

  // ----- every step ----------------------------------------------------------------------

  ghost predicate Inv(opening: map<L.Account, int>, v: Venue) {
    Solvent(opening, v.ledger) && Escrowed(opening, v) && AllCovered(opening.Keys, v)
  }

  lemma PlaceKeeps(opening: map<L.Account, int>, v: Venue, t: Ticket)
    requires Inv(opening, v)
    ensures Inv(opening, Advance(v, Place(t)))
  {
    var v' := Advance(v, Place(t));
    if v' != v {
      forall a | a in opening && a.kind.Escrow?
        ensures v'.ledger.balances[a] == opening[a] + Claims(a, v')
      {
        LockEffect(v.ledger, t.symbol, t.order, a);
        TicketsConcat(a, v.accepted, [t]);
      }
      LockEffect(v.ledger, t.symbol, t.order, HoldAccount(t.symbol, t.order));
    }
  }

  lemma DeliverKeeps(opening: map<L.Account, int>, v: Venue)
    requires Inv(opening, v)
    ensures Inv(opening, Advance(v, Deliver))
  {
    if v.accepted != [] {
      var keys, t, v' := opening.Keys, v.accepted[0], Advance(v, Deliver);
      var b := Get(v.listings, t.symbol);
      var trades := Match(t.symbol, b, t.order).trades;
      assert Covered(keys, t.symbol, t.order);
      GetCovered(keys, v.listings, t.symbol);
      AddCovered(keys, t.symbol, b, t.order);
      PutCovered(keys, v.listings, t.symbol, Add(t.symbol, b, t.order));
      forall a | a in opening && a.kind.Escrow?
        ensures v'.ledger.balances[a] == opening[a] + Claims(a, v')
      {
        AddClaim(a, keys, t.symbol, b, t.order);
        PutClaim(a, v.listings, t.symbol, Add(t.symbol, b, t.order));
        TradesConcat(a, v.unsettled, trades);
        SavedConcat(a, v.saved, Savings(t.order, trades));
      }
    }
  }

  lemma CancelKeeps(opening: map<L.Account, int>, v: Venue, symbol: string, id: string)
    requires Inv(opening, v)
    ensures Inv(opening, Advance(v, CancelOrder(symbol, id)))
  {
    var keys, b, v' := opening.Keys, Get(v.listings, symbol), Advance(v, CancelOrder(symbol, id));
    var out1, out2 := Tickets(symbol, WithId(b.bids, id)), Tickets(symbol, WithId(b.asks, id));
    GetCovered(keys, v.listings, symbol);
    RemoveCovered(keys, symbol, Buy, b.bids, id);
    RemoveCovered(keys, symbol, Sell, b.asks, id);
    PutCovered(keys, v.listings, symbol, Cancel(b, id));
    forall a | a in opening && a.kind.Escrow?
      ensures v'.ledger.balances[a] == opening[a] + Claims(a, v')
    {
      PutClaim(a, v.listings, symbol, Cancel(b, id));
      RemoveClaim(a, symbol, b.bids, id);
      RemoveClaim(a, symbol, b.asks, id);
      QueueTickets(a, symbol, WithId(b.bids, id));
      QueueTickets(a, symbol, WithId(b.asks, id));
      TicketsConcat(a, v.releasing, out1);
      TicketsConcat(a, v.releasing + out1, out2);
    }
  }

  lemma TicketsDrop(a: L.Account, ts: seq<Ticket>, i: nat)
    requires i < |ts|
    ensures TicketsClaim(a, Drop(ts, i)) == TicketsClaim(a, ts) - OrderClaim(a, ts[i].symbol, ts[i].order)
  {
    assert ts == ts[..i] + ([ts[i]] + ts[i + 1..]);
    TicketsConcat(a, ts[..i], [ts[i]] + ts[i + 1..]);
    TicketsConcat(a, ts[..i], ts[i + 1..]);
  }

  lemma TradesDrop(a: L.Account, ts: seq<Trade>, i: nat)
    requires i < |ts|
    ensures TradesClaim(a, Drop(ts, i)) == TradesClaim(a, ts) - TradeClaim(a, ts[i])
  {
    assert ts == ts[..i] + ([ts[i]] + ts[i + 1..]);
    TradesConcat(a, ts[..i], [ts[i]] + ts[i + 1..]);
    TradesConcat(a, ts[..i], ts[i + 1..]);
  }

  lemma ReleaseKeeps(opening: map<L.Account, int>, v: Venue, i: nat)
    requires Inv(opening, v)
    ensures Inv(opening, Advance(v, ReleaseNext(i)))
  {
    var v' := Advance(v, ReleaseNext(i));
    if v' != v {
      var t := v.releasing[i];
      forall a | a in opening && a.kind.Escrow?
        ensures v'.ledger.balances[a] == opening[a] + Claims(a, v')
      {
        ReleaseEffect(v.ledger, t.symbol, t.order, a);
        TicketsDrop(a, v.releasing, i);
      }
      ReleaseEffect(v.ledger, t.symbol, t.order, HoldAccount(t.symbol, t.order));
    }
  }

  lemma SettleKeeps(opening: map<L.Account, int>, v: Venue, i: nat)
    requires Inv(opening, v)
    ensures Inv(opening, Advance(v, SettleNext(i)))
  {
    var v' := Advance(v, SettleNext(i));
    if v' != v {
      var t := v.unsettled[i];
      forall a | a in opening && a.kind.Escrow?
        ensures v'.ledger.balances[a] == opening[a] + Claims(a, v')
      {
        SettleEffect(v.ledger, t, a);
        TradesDrop(a, v.unsettled, i);
      }
      SettleEffect(v.ledger, t, L.BuyerCash(t.buyerId));
    }
  }

  /**
   * In every reachable state, for every escrow account: balance = opening + holds of orders not yet
   * matched, resting or being cancelled + legs of unsettled trades + accumulated price improvement.
   */
  lemma {:induction false} EscrowIdentity(opening: map<L.Account, int>, es: seq<Event>)
    requires forall a | a in opening :: opening[a] >= 0
    ensures Inv(opening, RunVenue(Opening(opening), es))
  {
    if es != [] {
      var before, e := es[..|es| - 1], es[|es| - 1];
      var v := RunVenue(Opening(opening), before);
      EscrowIdentity(opening, before);
      match e
      case Place(t) => PlaceKeeps(opening, v, t);
      case Deliver => DeliverKeeps(opening, v);
      case CancelOrder(symbol, id) => CancelKeeps(opening, v, symbol, id);
      case ReleaseNext(i) => ReleaseKeeps(opening, v, i);
      case SettleNext(i) => SettleKeeps(opening, v, i);
    }
  }

  // ----- nothing bounces -----------------------------------------------------------------

  lemma {:induction false} QueueClaimNonNegative(a: L.Account, keys: set<L.Account>, symbol: string, side: Side, q: seq<Order>)
    requires QueueCovered(keys, symbol, side, q)
    ensures QueueClaim(a, symbol, q) >= 0
  {
    if q != [] {
      assert Covered(keys, symbol, q[0]) && q[0].price * q[0].quantity > 0;
      QueueClaimNonNegative(a, keys, symbol, side, q[1..]);
    }
  }

  lemma {:induction false} ListingsClaimNonNegative(a: L.Account, keys: set<L.Account>, ls: seq<Listing>)
    requires ListingsCovered(keys, ls)
    ensures ListingsClaim(a, ls) >= 0
  {
    if ls != [] {
      assert BookCovered(keys, ls[0].symbol, ls[0].book);
      QueueClaimNonNegative(a, keys, ls[0].symbol, Buy, ls[0].book.bids);
      QueueClaimNonNegative(a, keys, ls[0].symbol, Sell, ls[0].book.asks);
      ListingsClaimNonNegative(a, keys, ls[1..]);
    }
  }

  lemma {:induction false} TicketsClaimNonNegative(a: L.Account, keys: set<L.Account>, ts: seq<Ticket>)
    requires TicketsCovered(keys, ts)
    ensures TicketsClaim(a, ts) >= 0
  {
    if ts != [] {
      assert Covered(keys, ts[0].symbol, ts[0].order) && ts[0].order.price * ts[0].order.quantity > 0;
      TicketsClaimNonNegative(a, keys, ts[1..]);
    }
  }

  lemma {:induction false} TradesClaimNonNegative(a: L.Account, keys: set<L.Account>, ts: seq<Trade>)
    requires TradesCovered(keys, ts)
    ensures TradesClaim(a, ts) >= 0
  {
    if ts != [] {
      assert TradeCovered(keys, ts[0]) && ts[0].price * ts[0].quantity > 0;
      TradesClaimNonNegative(a, keys, ts[1..]);
    }
  }

  lemma {:induction false} SavedClaimNonNegative(a: L.Account, ss: seq<Saving>)
    requires NoLoss(ss)
    ensures SavedClaim(a, ss) >= 0
  {
    if ss != [] {
      SavedClaimNonNegative(a, ss[1..]);
    }
  }

  lemma OthersNonNegative(a: L.Account, keys: set<L.Account>, v: Venue)
    requires AllCovered(keys, v)
    ensures TicketsClaim(a, v.accepted) >= 0 && TicketsClaim(a, v.releasing) >= 0 && ListingsClaim(a, v.listings) >= 0
    ensures TradesClaim(a, v.unsettled) >= 0 && SavedClaim(a, v.saved) >= 0
  {
    TicketsClaimNonNegative(a, keys, v.accepted);
    TicketsClaimNonNegative(a, keys, v.releasing);
    ListingsClaimNonNegative(a, keys, v.listings);
    TradesClaimNonNegative(a, keys, v.unsettled);
    SavedClaimNonNegative(a, v.saved);
  }

  /** A release that is due always goes through. */
  lemma ReleaseNeverBounces(opening: map<L.Account, int>, es: seq<Event>, i: nat)
    requires forall a | a in opening :: opening[a] >= 0
    requires i < |RunVenue(Opening(opening), es).releasing|
    ensures var v := RunVenue(Opening(opening), es); Releasing(v, v.releasing[i]).1 == L.Ok
  {
    var v := RunVenue(Opening(opening), es);
    EscrowIdentity(opening, es);
    var t := v.releasing[i];
    var a := HoldAccount(t.symbol, t.order);
    assert Covered(opening.Keys, t.symbol, t.order);
    ReleaseEffect(v.ledger, t.symbol, t.order, a);
    OthersNonNegative(a, opening.Keys, v);
    TicketsDrop(a, v.releasing, i);
    assert TicketsCovered(opening.Keys, Drop(v.releasing, i));
    TicketsClaimNonNegative(a, opening.Keys, Drop(v.releasing, i));
  }

  lemma FundsForTrade(opening: map<L.Account, int>, v: Venue, i: nat, a: L.Account)
    requires Inv(opening, v) && (forall x | x in opening :: opening[x] >= 0)
    requires i < |v.unsettled| && a in opening && a.kind.Escrow?
    ensures v.ledger.balances[a] >= TradeClaim(a, v.unsettled[i])
  {
    OthersNonNegative(a, opening.Keys, v);
    TradesDrop(a, v.unsettled, i);
    assert TradesCovered(opening.Keys, Drop(v.unsettled, i));
    TradesClaimNonNegative(a, opening.Keys, Drop(v.unsettled, i));
  }

  /** A due settlement fails only if a wallet that receives has never been opened, never for lack of funds. */
  lemma SettlementNeverBounces(opening: map<L.Account, int>, es: seq<Event>, i: nat)
    requires forall a | a in opening :: opening[a] >= 0
    requires i < |RunVenue(Opening(opening), es).unsettled|
    ensures var v := RunVenue(Opening(opening), es);
      var t := v.unsettled[i];
      Settling(v, t).1 ==
        if L.SellerCash(t.sellerId) !in opening then L.Err(L.NoAccount(L.SellerCash(t.sellerId)))
        else if L.BuyerAsset(t.buyerId, t.symbol) !in opening then L.Err(L.NoAccount(L.BuyerAsset(t.buyerId, t.symbol)))
        else L.Ok
  {
    hide Claims, TradeClaim, RunVenue, Advance, L.Settle;
    var v := RunVenue(Opening(opening), es);
    EscrowIdentity(opening, es);
    var t := v.unsettled[i];
    assert TradeCovered(opening.Keys, t);
    FundsForTrade(opening, v, i, L.BuyerCash(t.buyerId));
    FundsForTrade(opening, v, i, L.SellerAsset(t.sellerId, t.symbol));
    EnoughToSettle(v.ledger, t);
  }

  lemma EnoughToSettle(l: L.Ledger, t: Trade)
    requires TradeCovered(l.balances.Keys, t)
    requires var cash, asset := L.BuyerCash(t.buyerId), L.SellerAsset(t.sellerId, t.symbol);
      l.balances[cash] >= TradeClaim(cash, t) && l.balances[asset] >= TradeClaim(asset, t)
    ensures L.Settle(l, t.buyerId, t.sellerId, t.symbol, t.price, t.quantity).1 ==
        if L.SellerCash(t.sellerId) !in l.balances then L.Err(L.NoAccount(L.SellerCash(t.sellerId)))
        else if L.BuyerAsset(t.buyerId, t.symbol) !in l.balances then L.Err(L.NoAccount(L.BuyerAsset(t.buyerId, t.symbol)))
        else L.Ok
  {
    assert t.price * t.quantity > 0;
  }

  /**
   * The condition that orders are limit orders is needed. In every reachable state a trade of an ordinary
   * buyer is refused exactly if it costs more than escrow holds for the buyer, however much the checking
   * wallet holds. A market buy locks nothing of its own, so it is refused unless the escrow of the buyer's
   * other orders happens to cover it, and then it is paid from theirs.
   */
  lemma MarketBuyBounces(opening: map<L.Account, int>, es: seq<Event>, t: Trade, checking: int)
    requires (forall a | a in opening :: opening[a] >= 0) && t.buyerId != L.SYSTEM
    requires {L.BuyerCash(t.buyerId), L.SellerCash(t.sellerId)} <= opening.Keys
    requires {L.SellerAsset(t.sellerId, t.symbol), L.BuyerAsset(t.buyerId, t.symbol)} <= opening.Keys
    ensures var v := RunVenue(Opening(opening), es);
      var cash := L.BuyerCash(t.buyerId);
      var flush := v.(ledger := v.ledger.(balances := v.ledger.balances[cash.(kind := L.Checking) := checking]));
      Settling(flush, t).1 == L.Err(L.BuyerShort) <==> opening[cash] + Claims(cash, v) < t.price * t.quantity
  {
    hide Claims, RunVenue, Advance;
    EscrowIdentity(opening, es);
  }
}
