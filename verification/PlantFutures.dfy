/** What can still happen from a given plant: when a closed order can be reopened, and what a lost
    commit of T1 leads to. */
module PlantFutures {
  import opened Results
  import opened WorkOrderStateMachine
  import T = WorkOrderTransactions
  import opened CompletionSaga
  import opened ExternalCalls
  import opened PlantRuns
  import opened PlantAccounts

  /** The plant p after the first n further events. */
  function From(p: Plant, events: seq<Event>, n: nat): Plant
    requires n <= |events|
  {
    if n == 0 then p else Apply(From(p, events, n - 1), events[n - 1])
  }

  /** A trusted future of p that ends in q. */
  ghost predicate LeadsTo(p: Plant, events: seq<Event>, q: Plant) {
    AllTrusted(events) && From(p, events, |events|) == q
  }

  lemma Stay(p: Plant)
    ensures LeadsTo(p, [], p)
  {
  }

  lemma {:induction false} FromPrefix(p: Plant, events: seq<Event>, e: Event, n: nat)
    requires n <= |events|
    ensures From(p, events + [e], n) == From(p, events, n)
  {
    if n > 0 {
      FromPrefix(p, events, e, n - 1);
      assert (events + [e])[n - 1] == events[n - 1];
    }
  }

  lemma GoOn(p: Plant, events: seq<Event>, q: Plant, e: Event)
    requires LeadsTo(p, events, q) && Trusted(e)
    ensures LeadsTo(p, events + [e], Apply(q, e))
  {
    FromPrefix(p, events, e, |events|);
    assert (events + [e])[|events|] == e;
  }

  /** A future of a reachable plant continues its run. */
  lemma {:induction false} FutureOfRun(events: seq<Event>, more: seq<Event>, n: nat)
    requires n <= |more|
    ensures After(events + more, |events| + n) == From(After(events, |events|), more, n)
  {
    if n == 0 {
      RunPrefix(events, more, |events|);
    } else {
      FutureOfRun(events, more, n - 1);
      assert (events + more)[|events| + n - 1] == more[n - 1];
    }
  }

  lemma {:induction false} RunPrefix(events: seq<Event>, more: seq<Event>, n: nat)
    requires n <= |events|
    ensures After(events + more, n) == After(events, n)
  {
    if n > 0 {
      RunPrefix(events, more, n - 1);
      assert (events + more)[n - 1] == events[n - 1];
    }
  }

  lemma {:induction false} TrustedFutureStaysOk(p: Plant, events: seq<Event>, n: nat)
    requires PlantOk(p) && AllTrusted(events) && n <= |events|
    ensures PlantOk(From(p, events, n))
  {
    if n > 0 {
      TrustedFutureStaysOk(p, events, n - 1);
      ApplyKeepsPlantOk(From(p, events, n - 1), events[n - 1]);
    }
  }

  const DOWN := Answer(true, false, true, Script(false, 1, []))

  // ---- When a closed order can be reopened ----

  ghost predicate IdsBelow(p: Plant) {
    forall known | known in p.tables.store.orders :: known < p.tables.store.nextId
  }

  predicate IsClosed(p: Plant, id: int) { StatusOf(p, id) == Some(Closed) }

  /** One event takes an order out of Closed exactly if it is the update that undoes T1. */
  lemma ClosedIsLeftExactlyByUndo(p: Plant, e: Event, id: int)
    requires IdsBelow(p) && IsClosed(p, id)
    ensures !IsClosed(Apply(p, e), id) <==> IsUndo(p, e, id) && e.answer.dbOk
    ensures IsClosed(Apply(p, e), id) || StatusOf(Apply(p, e), id) == Some(InProgress)
  {
    StepMovesAlongAnEdge(p, e, id);
    EdgesOf(Closed, Apply(p, e).tables.store.orders[id].status);
  }

  /** A saga that may still compensate. */
  predicate MayUndo(g: Saga) {
    g.stage == CallErp || g.stage == CallWms || g.stage == CancelErp || g.stage.UndoT1?
  }

  ghost predicate SomebodyMayUndo(p: Plant, id: int) {
    exists a :: a in p.sagas && p.sagas[a].order == id && MayUndo(p.sagas[a])
  }

  /** Some trusted future takes the order out of Closed. */
  ghost predicate CanBeReopened(p: Plant, id: int) {
    exists events: seq<Event>, q: Plant :: LeadsTo(p, events, q) && !IsClosed(q, id)
  }

  /** Closed for good, and nobody there to change it. */
  ghost predicate Sealed(p: Plant, id: int) { IdsBelow(p) && IsClosed(p, id) && !SomebodyMayUndo(p, id) }

  lemma SealedStays(p: Plant, e: Event, id: int)
    requires Sealed(p, id)
    ensures Sealed(Apply(p, e), id)
  {
    StepKeepsIdsBelow(p, e);
    ClosedIsLeftExactlyByUndo(p, e, id);
    var p' := Apply(p, e);
    forall a | a in p'.sagas && p'.sagas[a].order == id ensures !MayUndo(p'.sagas[a]) {
      NobodyStartsToUndo(p, e, id, a);
    }
  }

  lemma NobodyStartsToUndo(p: Plant, e: Event, id: int, a: nat)
    requires IsClosed(p, id) && a in Apply(p, e).sagas && Apply(p, e).sagas[a].order == id
    requires a in p.sagas && p.sagas[a].order == id ==> !MayUndo(p.sagas[a])
    ensures !MayUndo(Apply(p, e).sagas[a])
  {
    if e.SagaStep? && e.saga == a {
      StepDoesNotStartToUndo(p.tables, p.sagas[a], e.answer);
    }
  }

  lemma StepDoesNotStartToUndo(t: Tables, g: Saga, a: Answer)
    requires !MayUndo(g) && !InProgressOrder(t.store, g.order)
    ensures !MayUndo(Step(t, g, a).1) && Step(t, g, a).1.order == g.order
  {
  }

  lemma {:induction false} SealedForever(p: Plant, events: seq<Event>, n: nat, id: int)
    requires Sealed(p, id) && n <= |events|
    ensures Sealed(From(p, events, n), id)
  {
    if n > 0 {
      SealedForever(p, events, n - 1, id);
      SealedStays(From(p, events, n - 1), events[n - 1], id);
    }
  }

  /** A saga on its way to compensation gets there when the systems it calls are down. */
  lemma UndoIsReachable(p: Plant, id: int, a: nat) returns (events: seq<Event>, q: Plant)
    requires IsClosed(p, id) && a in p.sagas && p.sagas[a].order == id && MayUndo(p.sagas[a])
    ensures LeadsTo(p, events, q) && StatusOf(q, id) == Some(InProgress)
    decreases Remaining(p.sagas[a].stage)
  {
    var e := SagaStep(a, DOWN);
    var p' := Apply(p, e);
    Stay(p);
    GoOn(p, [], p, e);
    if p.sagas[a].stage.UndoT1? {
      return [] + [e], p';
    }
    DownLeadsToUndo(p, id, a);
    var rest;
    rest, q := UndoIsReachable(p', id, a);
    Chain(p, e, rest, q);
    events := [e] + rest;
  }

  lemma DownLeadsToUndo(p: Plant, id: int, a: nat)
    requires IsClosed(p, id) && a in p.sagas && p.sagas[a].order == id && MayUndo(p.sagas[a])
    requires !p.sagas[a].stage.UndoT1?
    ensures var p' := Apply(p, SagaStep(a, DOWN));
            && IsClosed(p', id) && a in p'.sagas && p'.sagas[a].order == id && MayUndo(p'.sagas[a])
            && Remaining(p'.sagas[a].stage) < Remaining(p.sagas[a].stage)
  {
  }

  lemma Chain(p: Plant, e: Event, rest: seq<Event>, q: Plant)
    requires Trusted(e) && LeadsTo(Apply(p, e), rest, q)
    ensures LeadsTo(p, [e] + rest, q)
  {
    ChainFrom(p, e, rest, |rest|);
  }

  lemma {:induction false} ChainFrom(p: Plant, e: Event, rest: seq<Event>, n: nat)
    requires n <= |rest|
    ensures From(p, [e] + rest, n + 1) == From(Apply(p, e), rest, n)
  {
    if n == 0 {
      assert From(p, [e] + rest, 0) == p && ([e] + rest)[0] == e;
    } else {
      ChainFrom(p, e, rest, n - 1);
      assert ([e] + rest)[n] == rest[n - 1];
    }
  }

  /** What a caller of close can look at: a closed order can be reopened if and only if one of its sagas
      is still calling ERP or WMS, cancelling, or about to undo T1. */
  lemma ClosedCanBeReopenedIff(p: Plant, id: int)
    requires IdsBelow(p) && IsClosed(p, id)
    ensures CanBeReopened(p, id) <==> SomebodyMayUndo(p, id)
  {
    if SomebodyMayUndo(p, id) {
      var a :| a in p.sagas && p.sagas[a].order == id && MayUndo(p.sagas[a]);
      var events, q := UndoIsReachable(p, id, a);
      assert LeadsTo(p, events, q) && !IsClosed(q, id);
    }
    if CanBeReopened(p, id) && !SomebodyMayUndo(p, id) {
      var events: seq<Event>, q: Plant :| LeadsTo(p, events, q) && !IsClosed(q, id);
      SealedForever(p, events, |events|, id);
    }
  }

  /** A run in which that happens: create, start, T1 of a saga, close by hand, ERP down, undo. */
  lemma ClosedOrderIsReopened(planQty: int) returns (events: seq<Event>, n: nat)
    requires planQty > 0
    ensures AllTrusted(events) && n < |events|
    ensures IsClosed(After(events, n), 1)
    ensures StatusOf(After(events, |events|), 1) == Some(InProgress)
  {
    var g := PastT1(planQty);
    var run := ClosedWithSagaIsReached(planQty);
    var more, q := UndoIsReachable(ClosedWithSaga(planQty, g), 1, 0);
    events, n := run + more, |run|;
    FutureOfRun(run, more, |more|);
    RunPrefix(run, more, |run|);
    assert |more| > 0;
  }

  /** The only saga, once its T1 is committed. */
  function PastT1(planQty: int): Saga {
    To(StartSaga(OnlyOrder(Opened(planQty)).tables.store, 1), CallErp).(tally := UNTOUCHED.(t1 := true))
  }

  lemma ClosedWithSagaIsReached(planQty: int) returns (run: seq<Event>)
    requires planQty > 0
    ensures AllTrusted(run) && Reaches(run, ClosedWithSaga(planQty, PastT1(planQty)))
  {
    var start := OpenedIsReached(planQty);
    var p := OnlyOrder(Opened(planQty));
    Then(start, p, SagaStart(0, 1));
    run := start + [SagaStart(0, 1)];
    Then(run, Apply(p, SagaStart(0, 1)), SagaStep(0, GOOD));
    StartT1(planQty);
    run := run + [SagaStep(0, GOOD)];
    Then(run, CompletedWithSaga(planQty, PastT1(planQty)), Transit(1, "close", true));
    CloseCompleted(planQty, PastT1(planQty));
    run := run + [Transit(1, "close", true)];
  }

  /** The plant with one closed order that a saga is reporting to ERP. */
  function ClosedWithSaga(planQty: int, g: Saga): Plant {
    Plant(Tables(T.Store(map[1 := Opened(planQty).(status := Closed)], 2, [1]), EMPTY_LEDGER), map[0 := g])
  }

  /** The same order while it is not closed yet. */
  function CompletedWithSaga(planQty: int, g: Saga): Plant {
    Plant(Tables(T.Store(map[1 := Opened(planQty).(status := Completed)], 2, [1]), EMPTY_LEDGER), map[0 := g])
  }

  lemma StartT1(planQty: int)
    ensures Apply(Apply(OnlyOrder(Opened(planQty)), SagaStart(0, 1)), SagaStep(0, GOOD)) ==
            CompletedWithSaga(planQty, PastT1(planQty))
  {
    var o := Opened(planQty);
    assert map[1 := o][1 := o.(status := Completed)] == map[1 := o.(status := Completed)];
  }

  lemma CloseCompleted(planQty: int, g: Saga)
    ensures Apply(CompletedWithSaga(planQty, g), Transit(1, "close", true)) == ClosedWithSaga(planQty, g)
  {
    var o := Opened(planQty);
    assert map[1 := o.(status := Completed)][1 := o.(status := Closed)] == map[1 := o.(status := Closed)];
  }

  // ---- What a lost commit of T1 leads to ----

  ghost predicate CanStockInTwice(p: Plant, id: int) {
    exists events: seq<Event>, q: Plant :: LeadsTo(p, events, q) && q.tables.ledger.stockIns[id] > 1
  }

  /** A saga that has got past T1 is applied by ERP and stocks its order in. */
  lemma GoodSagaStocksIn(p: Plant, a: nat)
    requires a in p.sagas && p.sagas[a].stage == CallErp
    ensures var q := Apply(Apply(p, SagaStep(a, GOOD)), SagaStep(a, GOOD));
            var id := p.sagas[a].order;
            && q.tables.store == p.tables.store
            && q.tables.ledger.stockIns == Add(p.tables.ledger.stockIns, id, 1)
            && q.sagas.Keys == p.sagas.Keys
  {
    AppliedOnceOrNever(GOOD.call);
  }

  lemma TwoMore(p: Plant, events: seq<Event>, q: Plant, e: Event, e': Event)
    requires LeadsTo(p, events, q) && Trusted(e) && Trusted(e')
    ensures LeadsTo(p, events + [e] + [e'], Apply(Apply(q, e), e'))
  {
    GoOn(p, events, q, e);
    GoOn(p, events + [e], Apply(q, e), e');
  }

  /** After one lost commit the order is still in progress while its saga goes on, and a second saga
      finds it so: both stock it in. */
  lemma LostCommitStocksInTwice(p: Plant, a: nat, b: nat) returns (events: seq<Event>, q: Plant)
    requires a in p.sagas && p.sagas[a].stage == CallErp && InProgressOrder(p.tables.store, p.sagas[a].order)
    requires b !in p.sagas
    ensures LeadsTo(p, events, q)
    ensures q.tables.ledger.stockIns[p.sagas[a].order] == p.tables.ledger.stockIns[p.sagas[a].order] + 2
  {
    var id := p.sagas[a].order;
    Stay(p);
    TwoMore(p, [], p, SagaStep(a, GOOD), SagaStep(a, GOOD));
    GoodSagaStocksIn(p, a);
    var q1 := Apply(Apply(p, SagaStep(a, GOOD)), SagaStep(a, GOOD));
    events := [] + [SagaStep(a, GOOD)] + [SagaStep(a, GOOD)];
    TwoMore(p, events, q1, SagaStart(b, id), SagaStep(b, GOOD));
    SecondSagaIsPastT1(q1, b, id);
    var q2 := Apply(Apply(q1, SagaStart(b, id)), SagaStep(b, GOOD));
    events := events + [SagaStart(b, id)] + [SagaStep(b, GOOD)];
    TwoMore(p, events, q2, SagaStep(b, GOOD), SagaStep(b, GOOD));
    GoodSagaStocksIn(q2, b);
    q := Apply(Apply(q2, SagaStep(b, GOOD)), SagaStep(b, GOOD));
    events := events + [SagaStep(b, GOOD)] + [SagaStep(b, GOOD)];
  }

  lemma SecondSagaIsPastT1(p: Plant, b: nat, id: int)
    requires b !in p.sagas && InProgressOrder(p.tables.store, id)
    ensures var q := Apply(Apply(p, SagaStart(b, id)), SagaStep(b, GOOD));
            && b in q.sagas && q.sagas[b].stage == CallErp && q.sagas[b].order == id
            && q.tables.ledger == p.tables.ledger
  {
  }

  lemma FreshSaga(taken: set<nat>) returns (b: nat)
    ensures forall a | a in taken :: a < b
    decreases taken
  {
    if taken == {} {
      b := 0;
    } else {
      var a :| a in taken;
      var c := FreshSaga(taken - {a});
      b := if c <= a then a + 1 else c;
      forall x | x in taken ensures x < b {
        assert x == a || x in taken - {a};
      }
    }
  }

  /** A T1 step of a sound plant can be followed, by trusted events only, by a second stock-in of its
      order if and only if its commit was lost. */
  lemma T1LeadsToTwoStockInsIffLost(p: Plant, saga: nat, a: Answer)
    requires PlantOk(p) && saga in p.sagas && p.sagas[saga].stage == RunT1 && a.dbOk
    requires InProgressOrder(p.tables.store, p.sagas[saga].order)
    ensures CanStockInTwice(Apply(p, SagaStep(saga, a)), p.sagas[saga].order) <==> a.commitLost
  {
    var p', id := Apply(p, SagaStep(saga, a)), p.sagas[saga].order;
    if a.commitLost {
      var b := FreshSaga(p'.sagas.Keys);
      var events, q := LostCommitStocksInTwice(p', saga, b);
      assert LeadsTo(p', events, q) && q.tables.ledger.stockIns[id] > 1;
    } else {
      ApplyKeepsPlantOk(p, SagaStep(saga, a));
      StockedInOnceFromHere(p', id);
    }
  }

  lemma StockedInOnceFromHere(p: Plant, id: int)
    requires PlantOk(p)
    ensures !CanStockInTwice(p, id)
  {
    forall events: seq<Event>, q: Plant | LeadsTo(p, events, q) ensures q.tables.ledger.stockIns[id] <= 1 {
      TrustedFutureStaysOk(p, events, |events|);
      assert OrderLedgerOk(q.tables, id);
    }
  }

  /** A run with that outcome: one order, one lost commit and otherwise trusted events, two sagas. */
  lemma OneLostCommitStocksInTwice(planQty: int) returns (before: seq<Event>, after: seq<Event>)
    requires planQty > 0
    ensures AllTrusted(before) && AllTrusted(after)
    ensures var run := before + [SagaStep(0, LOST)] + after;
            After(run, |run|).tables.ledger.stockIns[1] == 2
  {
    var start := OpenedIsReached(planQty);
    var p := OnlyOrder(Opened(planQty));
    Then(start, p, SagaStart(0, 1));
    before := start + [SagaStart(0, 1)];
    var p1 := Apply(p, SagaStart(0, 1));
    Then(before, p1, SagaStep(0, LOST));
    var p2 := Apply(p1, SagaStep(0, LOST));
    assert p2.tables == p.tables && p2.sagas.Keys == {0};
    var q;
    after, q := LostCommitStocksInTwice(p2, 0, 1);
    FutureOfRun(before + [SagaStep(0, LOST)], after, |after|);
  }
}
