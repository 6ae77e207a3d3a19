/** Triggers fire at most once and completely, whatever is added or cancelled between the firing steps. */
module TriggerLaws {
  import PT = PriceTime
  import opened TriggerEngines

  function Run(es: seq<Event>): State {
    if es == [] then INITIAL else Step(Run(es[..|es| - 1]), es[|es| - 1])
  }

  ghost predicate DistinctIds(es: seq<Event>) {
    forall i, j | 0 <= i < j < |es| && es[i].Add? && es[j].Add? :: es[i].order.id != es[j].order.id
  }

  ghost predicate Added(es: seq<Event>, id: string) {
    exists i :: 0 <= i < |es| && es[i].Add? && es[i].order.id == id
  }

  // ----- buckets -------------------------------------------------------------------------

  ghost predicate Distinct(ts: seq<Trigger>) {
    forall i, j | 0 <= i < j < |ts| :: ts[i].id != ts[j].id
  }

  lemma {:induction false} WithoutMembers(bucket: seq<Trigger>, id: string)
    ensures forall t :: t in Without(bucket, id) <==> t in bucket && t.id != id
    ensures Distinct(bucket) ==> Distinct(Without(bucket, id))
  {
    if bucket != [] {
      WithoutMembers(bucket[..|bucket| - 1], id);
    }
  }

  lemma {:induction false} SatisfiedMembers(r: Registry, bucket: seq<Trigger>, price: int)
    ensures forall t :: t in Satisfied(r, bucket, price) <==> t in bucket && Fires(r, t, price)
    ensures Distinct(bucket) ==> Distinct(Satisfied(r, bucket, price))
  {
    if bucket != [] {
      var n := |bucket| - 1;
      SatisfiedMembers(r, bucket[..n], price);
      if Distinct(bucket) {
        forall t | t in bucket[..n] ensures t.id != bucket[n].id {
          var i :| 0 <= i < n && bucket[..n][i] == t;
        }
      }
    }
  }

  /**
   * What a tick makes due: sell stops and buy take-profits priced at or above it, buy stops and sell
   * take-profits priced at or below it, and nothing else.
   */
  lemma WhatATickMakesDue(s: State, symbol: string, price: int, t: Trigger)
    ensures t in Step(s, Tick(symbol, price)).triggered <==>
      || (symbol in s.stops && t in s.stops[symbol] &&
          if t.side == PT.Sell then t.triggerPrice >= price else t.triggerPrice <= price)
      || (symbol in s.takeProfits && t in s.takeProfits[symbol] &&
          if t.side == PT.Sell then t.triggerPrice <= price else t.triggerPrice >= price)
  {
    hide Satisfied;
    SatisfiedMembers(Stops, At(s.stops, symbol), price);
    SatisfiedMembers(TakeProfits, At(s.takeProfits, symbol), price);
  }

  /** The places in the bucket that the satisfied triggers come from. */
  ghost predicate Places(bucket: seq<Trigger>, due: seq<Trigger>, at: seq<nat>) {
    && |at| == |due|
    && (forall i, j | 0 <= i < j < |at| :: at[i] < at[j])
    && (forall i | 0 <= i < |at| :: at[i] < |bucket| && bucket[at[i]] == due[i])
  }

  /** They are due in bucket order. */
  lemma {:induction false} DueInBucketOrder(r: Registry, bucket: seq<Trigger>, price: int) returns (at: seq<nat>)
    ensures Places(bucket, Satisfied(r, bucket, price), at)
    ensures forall k: nat | k < |bucket| :: k in at <==> Fires(r, bucket[k], price)
  {
    hide Fires, Places;
    at := [];
    if bucket == [] {
      NoPlaces();
    } else {
      var n := |bucket| - 1;
      at := DueInBucketOrder(r, bucket[..n], price);
      forall k: nat | k < n ensures k in at <==> Fires(r, bucket[k], price) {
        assert bucket[..n][k] == bucket[k];
      }
      OnePlaceMore(bucket, Satisfied(r, bucket[..n], price), at);
      if Fires(r, bucket[n], price) {
        at := at + [n];
      } else {
        assert Satisfied(r, bucket[..n], price) + [] == Satisfied(r, bucket[..n], price);
      }
    }
  }

  lemma NoPlaces()
    ensures Places([], [], [])
  {}

  lemma OnePlaceMore(bucket: seq<Trigger>, due: seq<Trigger>, at: seq<nat>)
    requires bucket != [] && Places(bucket[..|bucket| - 1], due, at)
    ensures var n := |bucket| - 1;
      Places(bucket, due, at) && Places(bucket, due + [bucket[n]], at + [n]) && n !in at
  {}

  /** An order that names a price waits behind the others of its symbol and kind, for its trigger price if it has one. */
  lemma WhatIsFiled(s: State, w: Waiting)
    ensures
      var s' := Step(s, Add(w));
      var t := Trigger(w.id, w.symbol, w.side, w.kind, if w.triggerPrice == 0 then w.stopPrice else w.triggerPrice);
      var priced := w.triggerPrice != 0 || w.stopPrice != 0;
      && s'.triggered == s.triggered && s'.fired == s.fired
      && s'.stops == (if priced && w.kind in {STOP, STOP_LIMIT} then s.stops[w.symbol := At(s.stops, w.symbol) + [t]] else s.stops)
      && s'.takeProfits == (if priced && w.kind == TAKE_PROFIT
                            then s.takeProfits[w.symbol := At(s.takeProfits, w.symbol) + [t]] else s.takeProfits)
  {}

  // ----- the invariant -------------------------------------------------------------------

  /** Triggers are filed under their symbol, and come from orders added so far. */
  ghost predicate Filed(s: State, es: seq<Event>) {
    && (forall r, a, t | t in At(s.On(r), a) :: t.symbol == a && Added(es, t.id))
    && (forall t | t in s.triggered || t in s.fired :: Added(es, t.id))
  }

  /** One id, one place. */
  ghost predicate Unique(s: State) {
    && (forall r, a, t, r', a', t' | t in At(s.On(r), a) && t' in At(s.On(r'), a') && t.id == t'.id :: r == r' && a == a')
    && (forall r, a :: Distinct(At(s.On(r), a)))
  }

  /** What is about to fire has not fired and is filed nowhere else; what has fired is filed nowhere. */
  ghost predicate Pending(s: State) {
    && Distinct(s.fired) && Distinct(s.triggered)
    && (forall t, u | t in s.triggered && u in s.fired :: t.id != u.id)
    && (forall r, a, t, u | t in s.triggered && u in At(s.On(r), a) && u.id == t.id :: u == t)
    && (forall r, a, t, u | t in s.fired && u in At(s.On(r), a) :: u.id != t.id)
  }

  ghost predicate Inv(s: State, es: seq<Event>) {
    Filed(s, es) && Unique(s) && Pending(s)
  }

  lemma AddedIsStable(es: seq<Event>, e: Event)
    ensures forall id | Added(es, id) :: Added(es + [e], id)
    ensures e.Add? ==> Added(es + [e], e.order.id)
  {
    forall id | Added(es, id) ensures Added(es + [e], id) {
      var i :| 0 <= i < |es| && es[i].Add? && es[i].order.id == id;
      assert (es + [e])[i] == es[i];
    }
    assert (es + [e])[|es|] == e;
  }

  lemma FreshId(es: seq<Event>, e: Event)
    requires DistinctIds(es + [e]) && e.Add?
    ensures !Added(es, e.order.id)
  {
    forall i | 0 <= i < |es| && es[i].Add? ensures es[i].order.id != e.order.id {
      assert (es + [e])[i] == es[i] && (es + [e])[|es|] == e;
    }
  }

  /** One trigger more, at the end of a bucket. */
  ghost predicate Grown(s: State, s': State, r0: Registry, t0: Trigger) {
    && s'.triggered == s.triggered && s'.fired == s.fired
    && forall r, a :: At(s'.On(r), a) == At(s.On(r), a) + if r == r0 && a == t0.symbol then [t0] else []
  }

  /** Some triggers less. */
  ghost predicate Shrunk(s: State, s': State) {
    forall r, a :: Distinct(At(s'.On(r), a)) && forall t | t in At(s'.On(r), a) :: t in At(s.On(r), a)
  }

  lemma AddGrows(s: State, e: Event)
    requires e.Add?
    ensures Step(s, e) == s ||
      Grown(s, Step(s, e), if e.order.kind.TAKE_PROFIT? then TakeProfits else Stops, TriggerOf(e.order))
  {
    forall r, a ensures At(s.On(r), a) + [] == At(s.On(r), a) {}
  }

  lemma RemovalShrinks(s: State, s': State, id: string, symbol: string)
    requires Unique(s)
    requires forall r :: s'.On(r) == Removed(s.On(r), id, symbol)
    ensures Shrunk(s, s')
    ensures forall r, t | t in At(s'.On(r), symbol) :: t.id != id
  {
    forall r, a
      ensures Distinct(At(s'.On(r), a)) && forall t | t in At(s'.On(r), a) :: t in At(s.On(r), a) && (a == symbol ==> t.id != id)
    {
      WithoutMembers(At(s.On(r), a), id);
    }
  }

  lemma GrownUnique(s: State, s': State, r0: Registry, t0: Trigger)
    requires Unique(s) && Grown(s, s', r0, t0)
    requires forall r, a, t | t in At(s.On(r), a) :: t.id != t0.id
    ensures Unique(s')
  {
    hide At, Distinct;
    forall r, a, t, r', a', t' | t in At(s'.On(r), a) && t' in At(s'.On(r'), a') && t.id == t'.id
      ensures r == r' && a == a'
    {
      assert t == t0 || t in At(s.On(r), a);
      assert t' == t0 || t' in At(s.On(r'), a');
    }
    forall r, a ensures Distinct(At(s'.On(r), a)) {
      assert At(s.On(r), a) + [] == At(s.On(r), a);
      if At(s'.On(r), a) != At(s.On(r), a) {
        DistinctAppend(At(s.On(r), a), t0);
      }
    }
  }

  lemma DistinctAppend(ts: seq<Trigger>, t: Trigger)
    requires Distinct(ts) && forall u | u in ts :: u.id != t.id
    ensures Distinct(ts + [t])
  {}

  lemma GrownPending(s: State, s': State, r0: Registry, t0: Trigger)
    requires Pending(s) && Grown(s, s', r0, t0)
    requires forall t | t in s.triggered || t in s.fired :: t.id != t0.id
    ensures Pending(s')
  {
    forall r, a, u | u in At(s'.On(r), a) ensures u == t0 || u in At(s.On(r), a) {}
  }

  lemma GrownFiled(s: State, s': State, es: seq<Event>, e: Event, r0: Registry, t0: Trigger)
    requires Filed(s, es) && Grown(s, s', r0, t0) && Added(es + [e], t0.id)
    ensures Filed(s', es + [e])
  {
    hide Added, At;
    AddedIsStable(es, e);
    forall r, a, u | u in At(s'.On(r), a) ensures u.symbol == a && Added(es + [e], u.id) {
      assert u == t0 || u in At(s.On(r), a);
    }
  }

  lemma AddKeeps(s: State, es: seq<Event>, e: Event)
    requires Inv(s, es) && DistinctIds(es + [e]) && e.Add?
    ensures Inv(Step(s, e), es + [e])
  {
    hide Added, Step, Grown, Pending, Unique;
    AddedIsStable(es, e);
    AddGrows(s, e);
    if Step(s, e) != s {
      FreshId(es, e);
      var r0, t0 := if e.order.kind.TAKE_PROFIT? then TakeProfits else Stops, TriggerOf(e.order);
      GrownFiled(s, Step(s, e), es, e, r0, t0);
      GrownUnique(s, Step(s, e), r0, t0);
      GrownPending(s, Step(s, e), r0, t0);
    }
  }

  lemma ShrunkUnique(s: State, s': State)
    requires Unique(s) && Shrunk(s, s')
    ensures Unique(s')
  {}

  lemma ShrunkFiled(s: State, s': State, es: seq<Event>, e: Event)
    requires Filed(s, es) && Shrunk(s, s')
    requires forall t | t in s'.triggered || t in s'.fired :: t in s.triggered || t in s.fired || exists r, a :: t in At(s.On(r), a)
    ensures Filed(s', es + [e])
  {
    AddedIsStable(es, e);
    hide Added;
    forall t | t in s'.triggered || t in s'.fired ensures Added(es + [e], t.id) {
      assert Added(es, t.id);
    }
  }

  lemma ShrunkPending(s: State, s': State)
    requires Pending(s) && Shrunk(s, s') && s'.fired == s.fired
    requires s'.triggered == s.triggered
    ensures Pending(s')
  {}

  lemma RemoveKeeps(s: State, es: seq<Event>, e: Event)
    requires Inv(s, es) && e.Remove?
    ensures Inv(Step(s, e), es + [e])
  {
    hide Filed, Unique, Pending, Shrunk;
    RemovalShrinks(s, Step(s, e), e.id, e.symbol);
    ShrunkFiled(s, Step(s, e), es, e);
    ShrunkUnique(s, Step(s, e));
    ShrunkPending(s, Step(s, e));
  }

  lemma SameEntry(bucket: seq<Trigger>, t: Trigger, u: Trigger)
    requires Distinct(bucket) && t in bucket && u in bucket && t.id == u.id
    ensures t == u
  {}

  lemma TwoBuckets(s: State, symbol: string, a: seq<Trigger>, b: seq<Trigger>)
    requires Unique(s) && Distinct(a) && Distinct(b)
    requires forall t | t in a :: t in At(s.On(Stops), symbol)
    requires forall t | t in b :: t in At(s.On(TakeProfits), symbol)
    ensures Distinct(a + b)
  {
    forall i, j | 0 <= i < |a| && 0 <= j < |b| ensures a[i].id != b[j].id {
      assert a[i] in a && b[j] in b;
    }
  }

  lemma TickTriggers(s: State, symbol: string, price: int)
    requires Unique(s)
    ensures var fires := Satisfied(Stops, At(s.stops, symbol), price) + Satisfied(TakeProfits, At(s.takeProfits, symbol), price);
      Distinct(fires) && forall t | t in fires :: exists r :: t in At(s.On(r), symbol)
  {
    var stops, profits := At(s.On(Stops), symbol), At(s.On(TakeProfits), symbol);
    var a, b := Satisfied(Stops, stops, price), Satisfied(TakeProfits, profits, price);
    SatisfiedMembers(Stops, stops, price);
    SatisfiedMembers(TakeProfits, profits, price);
    TwoBuckets(s, symbol, a, b);
    forall t | t in a + b ensures exists r :: t in At(s.On(r), symbol) {
      assert t in a ==> t in At(s.On(Stops), symbol);
      assert t in b ==> t in At(s.On(TakeProfits), symbol);
    }
  }

  lemma TickPending(s: State, s': State, symbol: string)
    requires Unique(s) && Pending(s) && s'.stops == s.stops && s'.takeProfits == s.takeProfits && s'.fired == s.fired
    requires Distinct(s'.triggered)
    requires forall t | t in s'.triggered :: exists r :: t in At(s.On(r), symbol)
    ensures Pending(s')
  {
    hide At, Distinct;
    assert forall r :: s'.On(r) == s.On(r);
    forall t, r, c, u | t in s'.triggered && u in At(s'.On(r), c) && u.id == t.id ensures u == t {
      var r' :| t in At(s.On(r'), symbol);
      SameEntry(At(s.On(r), c), t, u);
    }
    forall t, u | t in s'.triggered && u in s'.fired ensures t.id != u.id {
      var r' :| t in At(s.On(r'), symbol);
    }
  }

  lemma TickKeeps(s: State, es: seq<Event>, e: Event)
    requires Inv(s, es) && e.Tick?
    ensures Inv(Step(s, e), es + [e])
  {
    hide Filed, Pending, Satisfied;
    var s' := Step(s, e);
    assert forall r :: s'.On(r) == s.On(r);
    TickTriggers(s, e.symbol, e.price);
    TickPending(s, s', e.symbol);
    ShrunkFiled(s, s', es, e);
  }

  lemma FirePending(s: State, s': State)
    requires Pending(s) && Shrunk(s, s') && s.triggered != []
    requires s'.triggered == s.triggered[1..] || s'.triggered == []
    requires s'.fired == s.fired + [s.triggered[0]] || s'.fired == s.fired
    requires forall r, a, u | u in At(s'.On(r), a) :: u.id != s.triggered[0].id
    ensures Pending(s')
  {
    var t := s.triggered[0];
    assert forall i | 0 < i < |s.triggered| :: s.triggered[i].id != t.id;
    assert forall i | 0 <= i < |s.fired| :: s.fired[i] in s.fired && s.fired[i].id != t.id;
    forall u | u in s'.triggered ensures u in s.triggered && u.id != t.id {}
  }

  lemma FireKeeps(s: State, es: seq<Event>, e: Event)
    requires Inv(s, es) && e.Fire? && s.triggered != []
    ensures Inv(Step(s, e), es + [e])
  {
    hide Shrunk, Added;
    var s' := Step(s, e);
    var t := s.triggered[0];
    RemovalShrinks(s, s', t.id, t.symbol);
    FireClears(s, s');
    FirePending(s, s');
    ShrunkUnique(s, s');
    ShrunkFiled(s, s', es, e);
  }

  lemma FireClears(s: State, s': State)
    requires Pending(s) && Shrunk(s, s') && s.triggered != []
    requires forall r, a, t | t in At(s.On(r), a) :: t.symbol == a
    requires forall r, t | t in At(s'.On(r), s.triggered[0].symbol) :: t.id != s.triggered[0].id
    ensures forall r, a, u | u in At(s'.On(r), a) :: u.id != s.triggered[0].id
  {
    forall r, a, u | u in At(s'.On(r), a) && u.id == s.triggered[0].id ensures a == s.triggered[0].symbol {
      assert u in At(s.On(r), a) && u == s.triggered[0];
    }
  }

  lemma StepKeeps(s: State, es: seq<Event>, e: Event)
    requires Inv(s, es) && DistinctIds(es + [e])
    ensures Inv(Step(s, e), es + [e])
  {
    hide Filed, Unique, Pending, Added;
    match e
    case Add(_) => AddKeeps(s, es, e);
    case Remove(_, _) => RemoveKeeps(s, es, e);
    case Tick(_, _) => TickKeeps(s, es, e);
    case Fire(_) =>
      if s.triggered != [] {
        FireKeeps(s, es, e);
      } else {
        NothingKeeps(s, es, e);
      }
  }

  lemma NothingKeeps(s: State, es: seq<Event>, e: Event)
    requires Inv(s, es)
    ensures Inv(s, es + [e])
  {
    hide Unique, Pending, Added, At;
    AddedIsStable(es, e);
  }

  // ----- whole runs ----------------------------------------------------------------------

  lemma {:induction false} InvAlways(es: seq<Event>)
    requires DistinctIds(es)
    ensures Inv(Run(es), es)
  {
    hide Step, Filed, Unique, Pending;
    if es == [] {
      Initially();
    } else {
      var n := |es| - 1;
      assert es == es[..n] + [es[n]];
      InvAlways(es[..n]);
      StepKeeps(Run(es[..n]), es[..n], es[n]);
    }
  }

  lemma Initially()
    ensures Inv(INITIAL, [])
  {
    assert forall r, a :: At(INITIAL.On(r), a) == [];
    hide At;
  }

  /** No trigger ever fires twice, and none that has fired is still waiting. */
  lemma TriggersFireAtMostOnce(es: seq<Event>)
    requires DistinctIds(es)
    ensures var s := Run(es);
      && Distinct(s.fired)
      && forall r, a, t, u | t in s.fired && u in At(s.On(r), a) :: u.id != t.id
  {
    InvAlways(es);
  }

  /** The evaluation begun by event n is the last one so far. */
  ghost predicate LastTick(es: seq<Event>, n: nat) {
    && n < |es| && es[n].Tick? && Run(es[..n]).triggered == []
    && forall i | n < i < |es| :: !es[i].Tick?
  }

  /** What can go wrong with an evaluation: it stops early, it loses a trigger, it leaves triggers unfired. */
  datatype Mishap = Stop | Loss | Cut

  ghost predicate Happens(what: Mishap, s: State, e: Event) {
    e.Fire? && s.triggered != [] &&
    match what
    case Stop => !e.answer.Published?
    case Loss => e.answer.NotStored?
    case Cut => e.answer.NotStored? || (e.answer.NotPublished? && |s.triggered| > 1)
  }

  ghost predicate Had(es: seq<Event>, n: nat, what: Mishap) {
    exists m :: n < m < |es| && Happens(what, Run(es[..m]), es[m])
  }

  function Due(s: State, symbol: string, price: int): seq<Trigger> {
    Satisfied(Stops, At(s.stops, symbol), price) + Satisfied(TakeProfits, At(s.takeProfits, symbol), price)
  }

  /** What the evaluation of event n fires. */
  ghost function DueAt(es: seq<Event>, n: nat): seq<Trigger>
    requires n < |es| && es[n].Tick?
  {
    Due(Run(es[..n]), es[n].symbol, es[n].price)
  }

  lemma HadStep(es: seq<Event>, n: nat, what: Mishap)
    requires n < |es| - 1
    ensures var m := |es| - 1;
      Had(es, n, what) <==> Had(es[..m], n, what) || Happens(what, Run(es[..m]), es[m])
  {
    hide Run, Happens;
    var m := |es| - 1;
    var before := es[..m];
    forall i | n < i < m ensures before[..i] == es[..i] && before[i] == es[i] {}
  }

  lemma NothingHadYet(es: seq<Event>, n: nat)
    requires |es| == n + 1
    ensures forall what :: !Had(es, n, what)
  {}

  /** How far it has come: the due triggers fire one by one in order, until a failure ends it. */
  lemma {:induction false} EvaluationSoFar(es: seq<Event>, n: nat)
    requires LastTick(es, n)
    ensures
      var s0, s, due := Run(es[..n]), Run(es), DueAt(es, n);
      var k := |s.fired| - |s0.fired|;
      && 0 <= k <= |due| && s.fired == s0.fired + due[..k]
      && (if Had(es, n, Stop) then s.triggered == [] && (k < |due| <==> Had(es, n, Cut))
          else s.triggered == due[k..] && !Had(es, n, Cut) && !Had(es, n, Loss))
      && (Had(es, n, Loss) ==> k < |due|)
  {
    hide Step, Due, Had;
    var m := |es| - 1;
    var before := es[..m];
    var s0, due := Run(es[..n]), DueAt(es, n);
    if m == n {
      NothingHadYet(es, n);
      TickSets(s0, es[n]);
      assert due[0..] == due && s0.fired + due[..0] == s0.fired;
    } else {
      assert before[..n] == es[..n];
      EvaluationSoFar(before, n);
      forall what ensures Had(es, n, what) <==> Had(before, n, what) || Happens(what, Run(before), es[m]) {
        HadStep(es, n, what);
      }
      var s := Run(before);
      var k := |s.fired| - |s0.fired|;
      FiringStep(s, es[m]);
      if s.triggered != [] {
        assert s0.fired + due[..k] + [due[k]] == s0.fired + due[..k + 1];
        assert due[k..][1..] == due[k + 1..] && |due[k..]| == |due| - k;
      }
    }
  }

  lemma TickSets(s: State, e: Event)
    requires e.Tick?
    ensures Step(s, e).triggered == Due(s, e.symbol, e.price) && Step(s, e).fired == s.fired
  {}

  lemma FiringStep(s: State, e: Event)
    requires !e.Tick?
    ensures e.Fire? && s.triggered != [] ==>
      && Step(s, e).triggered == (if e.answer.Published? then s.triggered[1..] else [])
      && Step(s, e).fired == (if e.answer.NotStored? then s.fired else s.fired + [s.triggered[0]])
    ensures s.triggered == [] || !e.Fire? ==> Step(s, e).triggered == s.triggered && Step(s, e).fired == s.fired
  {}

  /**
   * When an evaluation has ended, exactly the triggers satisfied at the tick have fired, in bucket order, stops
   * first, if and only if no event failed to be stored and none before the last one failed to be published.
   * Adding or cancelling orders in between changes nothing about that, not even for the orders that are cancelled.
   */
  lemma ExactlyTheSatisfiedFire(es: seq<Event>, n: nat)
    requires LastTick(es, n) && Run(es).triggered == []
    ensures Run(es).fired == Run(es[..n]).fired + Due(Run(es[..n]), es[n].symbol, es[n].price) <==> !Had(es, n, Cut)
  {
    EvaluationSoFar(es, n);
  }

  // ----- what stays ----------------------------------------------------------------------

  function Keep(bucket: seq<Trigger>, gone: set<string>): seq<Trigger> {
    if bucket == [] then []
    else
      var n := |bucket| - 1;
      Keep(bucket[..n], gone) + if bucket[n].id in gone then [] else [bucket[n]]
  }

  /** The id a step takes out of the buckets of a symbol. */
  function Leaver(s: State, e: Event, symbol: string): set<string> {
    if e.Remove? && e.symbol == symbol then {e.id}
    else if e.Fire? && s.triggered != [] && s.triggered[0].symbol == symbol then {s.triggered[0].id}
    else {}
  }

  function Gone(es: seq<Event>, n: nat, symbol: string): set<string> {
    if |es| <= n then {}
    else
      var m := |es| - 1;
      Gone(es[..m], n, symbol) + Leaver(Run(es[..m]), es[m], symbol)
  }

  lemma {:induction false} KeepWithout(bucket: seq<Trigger>, gone: set<string>, id: string)
    ensures Without(Keep(bucket, gone), id) == Keep(bucket, gone + {id})
  {
    if bucket != [] {
      var n := |bucket| - 1;
      KeepWithout(bucket[..n], gone, id);
      if bucket[n].id in gone {
        assert Keep(bucket, gone) == Keep(bucket[..n], gone);
      } else {
        assert Keep(bucket, gone)[..|Keep(bucket, gone)| - 1] == Keep(bucket[..n], gone);
      }
    }
  }

  lemma {:induction false} WithoutConcat(a: seq<Trigger>, b: seq<Trigger>, id: string)
    ensures Without(a + b, id) == Without(a, id) + Without(b, id)
  {
    if b == [] {
      assert a + b == a;
    } else {
      var n := |b| - 1;
      assert (a + b)[..|a| + n] == a + b[..n];
      WithoutConcat(a, b[..n], id);
    }
  }

  lemma {:induction false} KeepAll(bucket: seq<Trigger>)
    ensures Keep(bucket, {}) == bucket
  {
    if bucket != [] {
      KeepAll(bucket[..|bucket| - 1]);
    }
  }

  /** Orders added from event n on, that a bucket may have gained. */
  ghost predicate Newcomers(tail: seq<Trigger>, es: seq<Event>, n: nat) {
    forall t | t in tail :: exists i :: n <= i < |es| && es[i].Add? && t == TriggerOf(es[i].order)
  }

  /** Whatever happens, a bucket keeps what has not left it, in order, with newcomers behind. */
  lemma {:induction false} BucketsKeepTheirOrder(es: seq<Event>, n: nat, r: Registry, a: string) returns (tail: seq<Trigger>)
    requires n <= |es|
    ensures Newcomers(tail, es, n)
    ensures At(Run(es).On(r), a) == Keep(At(Run(es[..n]).On(r), a), Gone(es, n, a)) + tail
  {
    hide Step, At, Leaver, Keep, Newcomers;
    var b := At(Run(es[..n]).On(r), a);
    if n == |es| {
      assert es[..n] == es;
      KeepAll(b);
      tail := [];
      NewcomersAfter([], [], es, n);
    } else {
      var m := |es| - 1;
      var before, e := es[..m], es[m];
      assert before[..n] == es[..n];
      var old_ := BucketsKeepTheirOrder(before, n, r, a);
      var kept := Keep(b, Gone(before, n, a));
      tail := TailAfter(Run(before), e, r, a, kept, old_);
      NewcomersAfter(old_, tail, es, n);
      forall id ensures Without(kept, id) == Keep(b, Gone(before, n, a) + {id}) {
        KeepWithout(b, Gone(before, n, a), id);
      }
      AtMostOneLeaver(Run(before), e, a);
      assert Gone(before, n, a) + {} == Gone(before, n, a);
    }
  }

  lemma AtMostOneLeaver(s: State, e: Event, a: string)
    ensures Leaver(s, e, a) == {} || exists id :: Leaver(s, e, a) == {id}
  {}

  lemma NewcomersAfter(tail: seq<Trigger>, tail': seq<Trigger>, es: seq<Event>, n: nat)
    requires tail' == [] || (n < |es| && Newcomers(tail, es[..|es| - 1], n))
    requires forall t | t in tail' :: t in tail || (es[|es| - 1].Add? && t == TriggerOf(es[|es| - 1].order))
    ensures Newcomers(tail', es, n)
  {
    forall t | t in tail' ensures exists i :: n <= i < |es| && es[i].Add? && t == TriggerOf(es[i].order) {
      if t in tail {
        var before := es[..|es| - 1];
        var i :| n <= i < |before| && before[i].Add? && t == TriggerOf(before[i].order);
        assert es[i] == before[i];
      }
    }
  }

  lemma TailAfter(s: State, e: Event, r: Registry, a: string, kept: seq<Trigger>, tail: seq<Trigger>)
    returns (tail': seq<Trigger>)
    requires At(s.On(r), a) == kept + tail
    ensures forall t | t in tail' :: t in tail || (e.Add? && t == TriggerOf(e.order))
    ensures Leaver(s, e, a) == {} ==> At(Step(s, e).On(r), a) == kept + tail'
    ensures forall id | Leaver(s, e, a) == {id} :: At(Step(s, e).On(r), a) == Without(kept, id) + tail'
  {
    var b' := At(Step(s, e).On(r), a);
    if Leaver(s, e, a) == {} {
      NothingLeaves(s, e, r, a);
      tail' := b'[|kept|..];
    } else {
      var id :| id in Leaver(s, e, a);
      OneLeaves(s, e, r, a, id);
      WithoutConcat(kept, tail, id);
      WithoutMembers(tail, id);
      tail' := Without(tail, id);
    }
  }

  lemma NothingLeaves(s: State, e: Event, r: Registry, a: string)
    requires Leaver(s, e, a) == {}
    ensures var b, b' := At(s.On(r), a), At(Step(s, e).On(r), a);
      b' == b || (e.Add? && b' == b + [TriggerOf(e.order)])
  {}

  lemma OneLeaves(s: State, e: Event, r: Registry, a: string, id: string)
    requires id in Leaver(s, e, a)
    ensures Leaver(s, e, a) == {id} && At(Step(s, e).On(r), a) == Without(At(s.On(r), a), id) && !e.Add?
  {}

  /** Of one symbol's triggers, those due are those that fire at the price. */
  lemma DueExactly(s: State, symbol: string, price: int, r: Registry, t: Trigger)
    requires Unique(s) && t in At(s.On(r), symbol)
    ensures (exists u :: u in Due(s, symbol, price) && u.id == t.id) <==> Fires(r, t, price)
    ensures t in Due(s, symbol, price) <==> Fires(r, t, price)
  {
    SatisfiedMembers(Stops, At(s.On(Stops), symbol), price);
    SatisfiedMembers(TakeProfits, At(s.On(TakeProfits), symbol), price);
    forall u | u in Due(s, symbol, price) && u.id == t.id ensures u == t && Fires(r, t, price) {
      var r' := if u in Satisfied(Stops, At(s.On(Stops), symbol), price) then Stops else TakeProfits;
      assert u in At(s.On(r'), symbol);
      SameEntry(At(s.On(r), symbol), t, u);
    }
  }

  /** The triggers the evaluation is done with: those that fired, and the one whose event was not stored. */
  ghost function Spent(es: seq<Event>, n: nat): seq<Trigger>
    requires LastTick(es, n)
  {
    EvaluationSoFar(es, n);
    DueAt(es, n)[..|Run(es).fired| - |Run(es[..n]).fired| + if Had(es, n, Loss) then 1 else 0]
  }

  ghost predicate Cancelled(es: seq<Event>, n: nat, id: string)
    requires n < |es| && es[n].Tick?
  {
    exists i :: n < i < |es| && es[i] == Remove(id, es[n].symbol)
  }

  lemma CancelledStep(es: seq<Event>, n: nat, id: string)
    requires n < |es| - 1 && es[n].Tick?
    ensures var m := |es| - 1;
      Cancelled(es, n, id) <==> Cancelled(es[..m], n, id) || es[m] == Remove(id, es[n].symbol)
  {
    var before := es[..|es| - 1];
    forall i | n < i < |es| - 1 ensures before[i] == es[i] {}
  }

  /** Of the triggers a bucket held at the tick, those that left it are the spent and the cancelled ones. */
  lemma {:induction false} GoneExactly(es: seq<Event>, n: nat, r: Registry, t: Trigger)
    requires LastTick(es, n) && Unique(Run(es[..n])) && Filed(Run(es[..n]), es[..n])
    requires t in At(Run(es[..n]).On(r), es[n].symbol)
    ensures t.id in Gone(es, n, es[n].symbol) <==> Cancelled(es, n, t.id) || t in Spent(es, n)
  {
    hide Step, Due, Unique, Filed, Had, Cancelled;
    var m, a := |es| - 1, es[n].symbol;
    var before := es[..m];
    var s0, due := Run(es[..n]), DueAt(es, n);
    EvaluationSoFar(es, n);
    if m == n {
      NothingHadYet(es, n);
      NotCancelledYet(es, n, t.id);
      TickSets(s0, es[n]);
      assert Gone(before, n, a) == {};
    } else {
      assert before[..n] == es[..n];
      GoneExactly(before, n, r, t);
      EvaluationSoFar(before, n);
      HadStep(es, n, Stop);
      HadStep(es, n, Loss);
      CancelledStep(es, n, t.id);
      var s := Run(before);
      FiringStep(s, es[m]);
      if s.triggered != [] {
        var k := |s.fired| - |s0.fired|;
        assert s.triggered[0] == due[k] && due[k] in due;
        DueHere(s0, es[..n], a, es[n].price, r, t, due[k]);
        assert due[..k + 1] == due[..k] + [due[k]];
      }
    }
  }

  lemma NotCancelledYet(es: seq<Event>, n: nat, id: string)
    requires |es| == n + 1 && es[n].Tick?
    ensures !Cancelled(es, n, id)
  {}

  lemma DueHere(s: State, es: seq<Event>, symbol: string, price: int, r: Registry, t: Trigger, u: Trigger)
    requires Unique(s) && Filed(s, es) && t in At(s.On(r), symbol) && u in Due(s, symbol, price)
    ensures u.symbol == symbol && (u.id == t.id ==> u == t)
  {
    SatisfiedMembers(Stops, At(s.On(Stops), symbol), price);
    SatisfiedMembers(TakeProfits, At(s.On(TakeProfits), symbol), price);
    var r' := if u in Satisfied(Stops, At(s.On(Stops), symbol), price) then Stops else TakeProfits;
    assert u in At(s.On(r'), symbol);
    if u.id == t.id {
      SameEntry(At(s.On(r), symbol), t, u);
    }
  }

  /**
   * After a tick, failure or not, a trigger its bucket held is still waiting if and only if it was not
   * cancelled and the evaluation is not done with it.
   */
  lemma WhoStillWaits(es: seq<Event>, n: nat, r: Registry, t: Trigger)
    requires DistinctIds(es) && LastTick(es, n) && t in At(Run(es[..n]).On(r), es[n].symbol)
    ensures t in At(Run(es).On(r), es[n].symbol) <==> !Cancelled(es, n, t.id) && t !in Spent(es, n)
  {
    hide Run, At, Keep, Gone, Spent, Cancelled, DistinctIds, Newcomers, Unique;
    DistinctPrefix(es, n);
    InvAlways(es[..n]);
    GoneExactly(es, n, r, t);
    var tail := BucketsKeepTheirOrder(es, n, r, es[n].symbol);
    KeepMembers(At(Run(es[..n]).On(r), es[n].symbol), Gone(es, n, es[n].symbol), t);
    NoNewcomer(es, n, tail, t);
  }

  lemma DistinctPrefix(es: seq<Event>, n: nat)
    requires DistinctIds(es) && n <= |es|
    ensures DistinctIds(es[..n])
  {}

  lemma NoNewcomer(es: seq<Event>, n: nat, tail: seq<Trigger>, t: Trigger)
    requires DistinctIds(es) && n <= |es| && Newcomers(tail, es, n) && Added(es[..n], t.id)
    ensures t !in tail
  {
    var j :| 0 <= j < n && es[..n][j].Add? && es[..n][j].order.id == t.id;
    assert es[j] == es[..n][j];
    forall i | n <= i < |es| && es[i].Add? ensures t != TriggerOf(es[i].order) {
      assert es[j].order.id != es[i].order.id;
    }
  }

  /** In particular a trigger the tick did not satisfy, and that nobody cancelled, is still waiting. */
  lemma UnsatisfiedStay(es: seq<Event>, n: nat, r: Registry, t: Trigger)
    requires DistinctIds(es) && LastTick(es, n)
    requires t in At(Run(es[..n]).On(r), es[n].symbol) && !Fires(r, t, es[n].price)
    requires !Cancelled(es, n, t.id)
    ensures t in At(Run(es).On(r), es[n].symbol)
  {
    WhoStillWaits(es, n, r, t);
    InvAlways(es[..n]);
    DueExactly(Run(es[..n]), es[n].symbol, es[n].price, r, t);
  }

  lemma {:induction false} KeepMembers(bucket: seq<Trigger>, gone: set<string>, t: Trigger)
    ensures t in Keep(bucket, gone) <==> t in bucket && t.id !in gone
  {
    if bucket != [] {
      KeepMembers(bucket[..|bucket| - 1], gone, t);
    }
  }

  /** A sell stop below a sell take-profit, or a buy stop above a buy take-profit: never both on one tick. */
  lemma OpposedTriggersNeverMeet(es: seq<Event>, symbol: string, price: int, stop: Trigger, profit: Trigger)
    requires DistinctIds(es)
    requires stop in At(Run(es).stops, symbol) && profit in At(Run(es).takeProfits, symbol)
    requires stop.side == profit.side
    requires if stop.side.Sell? then stop.triggerPrice < profit.triggerPrice else stop.triggerPrice > profit.triggerPrice
    ensures stop !in Due(Run(es), symbol, price) || profit !in Due(Run(es), symbol, price)
  {
    InvAlways(es);
    DueExactly(Run(es), symbol, price, Stops, stop);
    DueExactly(Run(es), symbol, price, TakeProfits, profit);
  }
}
