/** The quantity that a saga tells ERP and WMS, against the quantity of the order. */
module SagaQuantities {
  import opened Results
  import opened WorkOrders
  import T = WorkOrderTransactions
  import opened CompletionSaga
  import opened ExternalCalls
  import opened PlantRuns
  import opened PlantAccounts
  import opened SagaAccounts

  // ---- Events ----

  /** The event is a report on the order, and it is accepted. */
  predicate Accepted(p: Plant, e: Event, id: int) {
    e.Report? && e.id == id && T.Report(p.tables.store, id, e.line, e.gate, e.committed).1.Ok?
  }

  /** The event starts saga a on the order; it reads the completed quantity now. */
  predicate StartsSaga(p: Plant, e: Event, a: nat, id: int) {
    e == SagaStart(a, id) && a !in p.sagas && InProgressOrder(p.tables.store, id)
  }

  /** The event is the T1 of saga a, and it takes effect. */
  predicate CompletesOrder(p: Plant, e: Event, a: nat) {
    && e.SagaStep? && e.saga == a && a in p.sagas && p.sagas[a].stage == RunT1
    && InProgressOrder(p.tables.store, p.sagas[a].order) && e.answer.dbOk && !e.answer.commitLost
  }

  /** The event is the call of saga a to the system, and the system applies it. */
  predicate Tells(p: Plant, e: Event, a: nat, system: System) {
    && e.SagaStep? && e.saga == a && a in p.sagas && e.answer.configured && e.answer.call.Ok()
    && p.sagas[a].stage == if system == Erp then CallErp else CallWms
  }

  function SentTo(p: Plant, system: System): seq<Sent> {
    if system == Erp then p.tables.ledger.erpSent else p.tables.ledger.wmsSent
  }

  function CompletedQty(p: Plant, id: int): int {
    if id in p.tables.store.orders then p.tables.store.orders[id].completed else 0
  }

  // ---- One event ----

  /** Accepted reports raise the completed quantity of their order; nothing else moves it. */
  lemma CompletedMovesByReports(p: Plant, e: Event, id: int)
    requires id in p.tables.store.orders && id < p.tables.store.nextId
    ensures id in Apply(p, e).tables.store.orders
    ensures CompletedQty(Apply(p, e), id) ==
            CompletedQty(p, id) + if Accepted(p, e, id) then e.line.Delta() else 0
    ensures Accepted(p, e, id) ==> e.line.Delta() > 0
  {
    if e.SagaStep? && e.saga in p.sagas {
      StepKeepsQuantities(p.tables, p.sagas[e.saga], e.answer, id);
    }
  }

  lemma StepKeepsQuantities(t: Tables, g: Saga, a: Answer, id: int)
    requires id in t.store.orders
    ensures var t' := Step(t, g, a).0;
            id in t'.store.orders && t'.store.orders[id].completed == t.store.orders[id].completed
  {
  }

  lemma SagaKeepsItsOrder(p: Plant, e: Event, a: nat)
    requires a in p.sagas
    ensures a in Apply(p, e).sagas
    ensures Apply(p, e).sagas[a].order == p.sagas[a].order && Apply(p, e).sagas[a].qty == p.sagas[a].qty
  {
    if e.SagaStep? && e.saga in p.sagas {
      StepKeepsOrder(p.tables, p.sagas[e.saga], e.answer);
    }
  }

  /** The system is told exactly the quantity that the saga has read, and only by such calls. */
  lemma TellingSendsTheQuantityRead(p: Plant, e: Event, a: nat, system: System)
    requires Tells(p, e, a, system)
    ensures SentTo(Apply(p, e), system) == SentTo(p, system) + [Sent(p.sagas[a].order, p.sagas[a].qty)]
  {
    AppliedOnceOrNever(e.answer.call);
  }

  lemma NothingElseIsSent(p: Plant, e: Event, system: System)
    requires !exists a :: Tells(p, e, a, system)
    ensures SentTo(Apply(p, e), system) == SentTo(p, system)
  {
    if e.SagaStep? && e.saga in p.sagas {
      assert !Tells(p, e, e.saga, system);
      AppliedOnceOrNever(e.answer.call);
    }
  }

  // ---- Runs ----

  lemma {:induction false} OrderStays(events: seq<Event>, i: nat, k: nat, id: int)
    requires i <= k <= |events| && id in After(events, i).tables.store.orders
    ensures id in After(events, k).tables.store.orders && id < After(events, k).tables.store.nextId
  {
    IdsAreBelowTheSequence(events, k);
    if i < k {
      OrderStays(events, i, k - 1, id);
      CompletedMovesByReports(After(events, k - 1), events[k - 1], id);
    }
  }

  /** Event m of the run is an accepted report on the order. */
  predicate AcceptedAt(events: seq<Event>, m: nat, id: int)
    requires m < |events|
  {
    Accepted(After(events, m), events[m], id)
  }

  /** No report on the order is accepted from event i up to, but not including, event k. */
  ghost predicate NoneAccepted(events: seq<Event>, i: nat, k: nat, id: int)
    requires k <= |events|
  {
    forall m: nat | i <= m < k :: !AcceptedAt(events, m, id)
  }

  /** One event of a run. */
  lemma NextQty(events: seq<Event>, m: nat, id: int)
    requires m < |events| && id in After(events, m).tables.store.orders
    ensures if AcceptedAt(events, m, id)
            then CompletedQty(After(events, m), id) < CompletedQty(After(events, m + 1), id)
            else CompletedQty(After(events, m), id) == CompletedQty(After(events, m + 1), id)
  {
    IdsAreBelowTheSequence(events, m);
    CompletedMovesByReports(After(events, m), events[m], id);
  }

  lemma {:induction false} UnchangedIffNoneAccepted(events: seq<Event>, i: nat, k: nat, id: int)
    requires i <= k <= |events| && id in After(events, i).tables.store.orders
    ensures CompletedQty(After(events, i), id) <= CompletedQty(After(events, k), id)
    ensures CompletedQty(After(events, i), id) == CompletedQty(After(events, k), id) <==> NoneAccepted(events, i, k, id)
  {
    if i < k {
      UnchangedIffNoneAccepted(events, i, k - 1, id);
      OrderStays(events, i, k - 1, id);
      NextQty(events, k - 1, id);
    }
  }

  lemma {:induction false} SagaStaysTheSame(events: seq<Event>, i: nat, k: nat, a: nat)
    requires i <= k <= |events| && a in After(events, i).sagas
    ensures a in After(events, k).sagas
    ensures After(events, k).sagas[a].order == After(events, i).sagas[a].order
    ensures After(events, k).sagas[a].qty == After(events, i).sagas[a].qty
  {
    if i < k {
      SagaStaysTheSame(events, i, k - 1, a);
      SagaKeepsItsOrder(After(events, k - 1), events[k - 1], a);
    }
  }

  /** The quantity sent is the one of the order at T1 exactly if no report came in between. In every
      run, trusted or not: saga a starts with event i, completes its order with event j, and tells
      ERP or WMS with event k. What arrives equals the completed quantity at T1 if and only if no report
      on that order was accepted between i and j; otherwise it is too small. */
  lemma SentIsCompletedIffNoReportBetween(
      events: seq<Event>, i: nat, j: nat, k: nat, a: nat, id: int, system: System)
    requires i < j < k < |events|
    requires StartsSaga(After(events, i), events[i], a, id)
    requires CompletesOrder(After(events, j), events[j], a)
    requires Tells(After(events, k), events[k], a, system)
    ensures var before, after := SentTo(After(events, k), system), SentTo(After(events, k + 1), system);
            var atT1 := CompletedQty(After(events, j), id);
            && after != [] && after == before + [after[|after| - 1]] && after[|after| - 1].order == id
            && after[|after| - 1].quantity <= atT1
            && (after[|after| - 1].quantity == atT1 <==> NoneAccepted(events, i, j, id))
  {
    var p := After(events, i);
    assert After(events, i + 1) == Apply(p, events[i]);
    assert Apply(p, events[i]).sagas[a] == StartSaga(p.tables.store, id);
    SagaStaysTheSame(events, i + 1, k, a);
    UnchangedIffNoneAccepted(events, i, j, id);
    TellingSendsTheQuantityRead(After(events, k), events[k], a, system);
    assert After(events, k + 1) == Apply(After(events, k), events[k]);
  }

  // ---- A run in which the quantity sent is too small ----

  const ONE := ReportLine(1, 1, 0, 0)

  /** T1, T2 and T3 of a saga that meets no trouble. */
  function AfterGoodCalls(p: Plant, a: nat): Plant {
    Apply(Apply(Apply(p, SagaStep(a, GOOD)), SagaStep(a, GOOD)), SagaStep(a, GOOD))
  }

  lemma GoodSagaTells(p: Plant, a: nat)
    requires a in p.sagas && p.sagas[a].stage == RunT1 && InProgressOrder(p.tables.store, p.sagas[a].order)
    ensures var q, id := AfterGoodCalls(p, a), p.sagas[a].order;
            && SentTo(q, Erp) == SentTo(p, Erp) + [Sent(id, p.sagas[a].qty)]
            && SentTo(q, Wms) == SentTo(p, Wms) + [Sent(id, p.sagas[a].qty)]
            && CompletedQty(q, id) == CompletedQty(p, id)
  {
    AppliedOnceOrNever(GOOD.call);
    T1GoesThrough(p, a);
    ErpIsTold(Apply(p, SagaStep(a, GOOD)), a);
    WmsIsTold(Apply(Apply(p, SagaStep(a, GOOD)), SagaStep(a, GOOD)), a);
  }

  lemma T1GoesThrough(p: Plant, a: nat)
    requires a in p.sagas && p.sagas[a].stage == RunT1 && InProgressOrder(p.tables.store, p.sagas[a].order)
    ensures var q, id := Apply(p, SagaStep(a, GOOD)), p.sagas[a].order;
            && a in q.sagas && q.sagas[a].stage == CallErp && q.sagas[a].order == id && q.sagas[a].qty == p.sagas[a].qty
            && q.tables.ledger == p.tables.ledger && CompletedQty(q, id) == CompletedQty(p, id)
  {
  }

  lemma ErpIsTold(p: Plant, a: nat)
    requires a in p.sagas && p.sagas[a].stage == CallErp
    ensures var q, g := Apply(p, SagaStep(a, GOOD)), p.sagas[a];
            && a in q.sagas && q.sagas[a].stage == CallWms && q.sagas[a].order == g.order && q.sagas[a].qty == g.qty
            && q.tables.store == p.tables.store && SentTo(q, Wms) == SentTo(p, Wms)
            && SentTo(q, Erp) == SentTo(p, Erp) + [Sent(g.order, g.qty)]
  {
    AppliedOnceOrNever(GOOD.call);
  }

  lemma WmsIsTold(p: Plant, a: nat)
    requires a in p.sagas && p.sagas[a].stage == CallWms
    ensures var q, g := Apply(p, SagaStep(a, GOOD)), p.sagas[a];
            && q.tables.store == p.tables.store && SentTo(q, Erp) == SentTo(p, Erp)
            && SentTo(q, Wms) == SentTo(p, Wms) + [Sent(g.order, g.qty)]
  {
    AppliedOnceOrNever(GOOD.call);
  }

  lemma ReportBehindSaga(planQty: int)
    requires planQty >= 2
    ensures var p := Apply(OnlyOrder(Opened(planQty)), SagaStart(0, 1));
            var q := Apply(p, Report(1, ONE, None, true));
            && Accepted(p, Report(1, ONE, None, true), 1)
            && q.sagas == p.sagas && q.sagas.Keys == {0}
            && q.sagas[0].order == 1 && q.sagas[0].qty == 0 && q.sagas[0].stage == RunT1
            && InProgressOrder(q.tables.store, 1) && CompletedQty(q, 1) == 1
            && q.tables.ledger == EMPTY_LEDGER
  {
    assert IndexOf(Opened(planQty).ops, 1) == 0;
  }

  /** For every plan of at least two there is a trusted run in which a report that does not finish the
      order comes between the saga's start and its T1: ERP and WMS are told 0, the order has 1. */
  lemma TooSmallAQuantityIsSent(planQty: int) returns (before: seq<Event>, events: seq<Event>)
    requires planQty >= 2
    ensures AllTrusted(events)
    ensures events == before + [SagaStart(0, 1), Report(1, ONE, None, true),
                                SagaStep(0, GOOD), SagaStep(0, GOOD), SagaStep(0, GOOD)]
    ensures var p := After(events, |events|);
            SentTo(p, Erp) == SentTo(p, Wms) == [Sent(1, 0)] && CompletedQty(p, 1) == 1
  {
    before := OpenedIsReached(planQty);
    var p := OnlyOrder(Opened(planQty));
    Then(before, p, SagaStart(0, 1));
    var p1 := Apply(p, SagaStart(0, 1));
    Then(before + [SagaStart(0, 1)], p1, Report(1, ONE, None, true));
    var p2 := Apply(p1, Report(1, ONE, None, true));
    ReportBehindSaga(planQty);
    GoodSagaTells(p2, 0);
    var run := before + [SagaStart(0, 1)] + [Report(1, ONE, None, true)];
    GoodCallsRun(run, p2, 0);
    events := run + [SagaStep(0, GOOD), SagaStep(0, GOOD), SagaStep(0, GOOD)];
  }

  lemma GoodCallsRun(run: seq<Event>, p: Plant, a: nat)
    requires Reaches(run, p)
    ensures Reaches(run + [SagaStep(a, GOOD), SagaStep(a, GOOD), SagaStep(a, GOOD)], AfterGoodCalls(p, a))
  {
    var e := SagaStep(a, GOOD);
    Then(run, p, e);
    Then(run + [e], Apply(p, e), e);
    Then(run + [e] + [e], Apply(Apply(p, e), e), e);
    assert run + [e] + [e] + [e] == run + [e, e, e];
  }
}
