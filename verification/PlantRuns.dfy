/** Runs of the plant: any number of callers and sagas, interleaved statement by committed
    statement. Every list of events is a run; an event that is refused leaves the plant as it is. */
module PlantRuns {
  import opened Results
  import opened WorkOrderStateMachine
  import opened WorkOrders
  import T = WorkOrderTransactions
  import opened CompletionSaga
  import opened ExternalCalls

  datatype Plant = Plant(tables: Tables, sagas: map<nat, Saga>)

  datatype Event =
    | Create(productId: int, planQty: int, route: T.Route, committed: bool)
    | Update(id: int, plan: Option<int>, otherFields: bool, committed: bool)
    | Transit(id: int, action: string, committed: bool)
    | Report(id: int, line: ReportLine, gate: Option<T.Gate>, committed: bool)
    | SagaStart(saga: nat, id: int)
    | SagaStep(saga: nat, answer: Answer)
    | SagaCrash(saga: nat)

  const EMPTY_PLANT := Plant(Tables(T.Store(map[], 1, []), EMPTY_LEDGER), map[])

  function WithStore(p: Plant, s: T.Store): Plant { p.(tables := p.tables.(store := s)) }

  function Apply(p: Plant, e: Event): Plant {
    var s := p.tables.store;
    match e
    case Create(productId, planQty, route, ok) => WithStore(p, T.Create(s, productId, planQty, route, ok).0)
    case Update(id, plan, otherFields, ok) => WithStore(p, T.Update(s, id, plan, otherFields, ok).0)
    case Transit(id, action, ok) => WithStore(p, T.Transit(s, id, action, ok).0)
    case Report(id, line, gate, ok) => WithStore(p, T.Report(s, id, line, gate, ok).0)
    case SagaStart(saga, id) =>
      if saga in p.sagas || !InProgressOrder(s, id) then p
      else p.(sagas := p.sagas[saga := StartSaga(s, id)])
    case SagaStep(saga, answer) =>
      if saga !in p.sagas then p
      else
        var (tables, g) := Step(p.tables, p.sagas[saga], answer);
        Plant(tables, p.sagas[saga := g])
    case SagaCrash(saga) =>
      if saga !in p.sagas || p.sagas[saga].stage.Done? then p
      else p.(sagas := p.sagas[saga := Fail(p.sagas[saga], Broken)])
  }

  /** The plant after the first n events. */
  function After(events: seq<Event>, n: nat): Plant
    requires n <= |events|
  {
    if n == 0 then EMPTY_PLANT else Apply(After(events, n - 1), events[n - 1])
  }

  /** What the code takes on trust: a replaced plan is positive, and a commit that the saga does
      not check did not fail. */
  predicate Trusted(e: Event) {
    && (e.Update? && e.plan.Some? ==> e.plan.value > 0)
    && (e.SagaStep? ==> !e.answer.commitLost)
  }

  predicate AllTrusted(events: seq<Event>) { forall i | 0 <= i < |events| :: Trusted(events[i]) }

  // ---- The invariant ----

  predicate IsFinished(s: Status) { s == Completed || s == Closed }

  /** ERP reports of an order that were neither cancelled nor given up on. */
  function Outstanding(l: Ledger, id: int): int {
    Count(l.erpReports, id) - Count(l.erpCancels, id) - Count(l.cancelFailures, id)
  }

  predicate ReportedToErp(stage: Stage) {
    stage == CallWms || stage == CancelErp || StockedIn(stage)
  }

  predicate StockedIn(stage: Stage) {
    stage == InsertInventory || stage == LogErp || stage == LogWms
  }

  ghost predicate SagaOk(t: Tables, g: Saga) {
    SagaFits(g) && ClaimOk(t, g)
  }

  ghost predicate ClaimOk(t: Tables, g: Saga) {
    && g.order in t.store.orders
    && 0 <= g.qty <= t.store.orders[g.order].completed
    && (Holding(g) ==> HoldingOk(t, g))
  }

  ghost predicate HoldingOk(t: Tables, g: Saga)
    requires g.order in t.store.orders
  {
    var o, l := t.store.orders[g.order], t.ledger;
    && IsFinished(o.status)
    && o.completed < o.planQty
    && Outstanding(l, g.order) == (if ReportedToErp(g.stage) then 1 else 0)
    && l.stockIns[g.order] == (if StockedIn(g.stage) then 1 else 0)
    && (g.stage == InsertInventory ==> l.inventory[g.order] == 0)
  }

  ghost predicate OrderLedgerOk(t: Tables, id: int) {
    var l := t.ledger;
    && l.inventory[id] <= l.stockIns[id] <= 1
    && 0 <= Outstanding(l, id) <= 1
    && (l.stockIns[id] == 1 || Outstanding(l, id) == 1 ==>
          id in t.store.orders && IsFinished(t.store.orders[id].status))
  }

  ghost predicate OneHolder(p: Plant) {
    forall a, b | a in p.sagas && b in p.sagas && Holding(p.sagas[a]) && Holding(p.sagas[b]) ::
      p.sagas[a].order == p.sagas[b].order ==> a == b
  }

  ghost predicate PlantOk(p: Plant) {
    && T.StoreOk(p.tables.store)
    && (forall a | a in p.sagas :: SagaOk(p.tables, p.sagas[a]))
    && OneHolder(p)
    && (forall id :: OrderLedgerOk(p.tables, id))
  }

  // ---- Preservation, one kind of event at a time ----

  /** The work-order transactions neither leave the finished states nor take quantities back, and
      they report only on orders in progress. */
  ghost predicate Advances(s: T.Store, s': T.Store) {
    forall id | id in s.orders ::
      && id in s'.orders
      && s.orders[id].completed <= s'.orders[id].completed
      && (IsFinished(s.orders[id].status) ==>
            && IsFinished(s'.orders[id].status)
            && s'.orders[id].completed == s.orders[id].completed
            && s'.orders[id].planQty == s.orders[id].planQty)
  }

  lemma StoreChangeKeepsPlantOk(p: Plant, s': T.Store)
    requires PlantOk(p) && T.StoreOk(s') && Advances(p.tables.store, s')
    ensures PlantOk(WithStore(p, s'))
  {
    var p' := WithStore(p, s');
    forall a | a in p'.sagas ensures SagaOk(p'.tables, p'.sagas[a]) {
      assert SagaOk(p.tables, p.sagas[a]);
    }
    forall id ensures OrderLedgerOk(p'.tables, id) {
      assert OrderLedgerOk(p.tables, id);
    }
  }

  lemma CreateAdvances(s: T.Store, productId: int, planQty: int, route: T.Route, committed: bool)
    requires T.StoreOk(s)
    ensures Advances(s, T.Create(s, productId, planQty, route, committed).0)
  {
  }

  lemma CreateKeepsPlantOk(p: Plant, productId: int, planQty: int, route: T.Route, committed: bool)
    requires PlantOk(p)
    ensures PlantOk(WithStore(p, T.Create(p.tables.store, productId, planQty, route, committed).0))
  {
    T.CreateKeepsStoreOk(p.tables.store, productId, planQty, route, committed);
    CreateAdvances(p.tables.store, productId, planQty, route, committed);
    StoreChangeKeepsPlantOk(p, T.Create(p.tables.store, productId, planQty, route, committed).0);
  }

  lemma UpdateAdvances(s: T.Store, id: int, plan: Option<int>, otherFields: bool, committed: bool)
    ensures Advances(s, T.Update(s, id, plan, otherFields, committed).0)
  {
  }

  lemma UpdateKeepsPlantOk(p: Plant, id: int, plan: Option<int>, otherFields: bool, committed: bool)
    requires PlantOk(p) && (plan.Some? ==> plan.value > 0)
    ensures PlantOk(WithStore(p, T.Update(p.tables.store, id, plan, otherFields, committed).0))
  {
    T.UpdateKeepsStoreOk(p.tables.store, id, plan, otherFields, committed);
    UpdateAdvances(p.tables.store, id, plan, otherFields, committed);
    StoreChangeKeepsPlantOk(p, T.Update(p.tables.store, id, plan, otherFields, committed).0);
  }

  lemma TransitAdvances(s: T.Store, id: int, action: string, committed: bool)
    requires T.StoreOk(s)
    ensures Advances(s, T.Transit(s, id, action, committed).0)
  {
    var act := ActionOf(action);
    if act.Some? && id in s.orders {
      var from := s.orders[id].status;
      if Next(from, act.value).Some? {
        assert Edge(from, Next(from, act.value).value);
        EdgesOf(from, Next(from, act.value).value);
      }
    }
  }

  lemma TransitKeepsPlantOk(p: Plant, id: int, action: string, committed: bool)
    requires PlantOk(p)
    ensures PlantOk(WithStore(p, T.Transit(p.tables.store, id, action, committed).0))
  {
    T.TransitKeepsStoreOk(p.tables.store, id, action, committed);
    TransitAdvances(p.tables.store, id, action, committed);
    StoreChangeKeepsPlantOk(p, T.Transit(p.tables.store, id, action, committed).0);
  }

  lemma ReportAdvances(s: T.Store, id: int, line: ReportLine, gate: Option<T.Gate>, committed: bool)
    ensures Advances(s, T.Report(s, id, line, gate, committed).0)
  {
  }

  lemma ReportKeepsPlantOk(p: Plant, id: int, line: ReportLine, gate: Option<T.Gate>, committed: bool)
    requires PlantOk(p)
    ensures PlantOk(WithStore(p, T.Report(p.tables.store, id, line, gate, committed).0))
  {
    T.ReportKeepsStoreOk(p.tables.store, id, line, gate, committed);
    ReportAdvances(p.tables.store, id, line, gate, committed);
    StoreChangeKeepsPlantOk(p, T.Report(p.tables.store, id, line, gate, committed).0);
  }

  /** When one saga moves, the others keep their claims if their orders and counts are untouched. */
  ghost predicate OnlyTouches(t: Tables, t': Tables, id: int) {
    && t'.store.orders.Keys == t.store.orders.Keys
    && (forall i | i in t.store.orders && i != id :: t'.store.orders[i] == t.store.orders[i])
    && (forall i | i != id ::
          && t'.ledger.erpReports[i] == t.ledger.erpReports[i]
          && t'.ledger.erpCancels[i] == t.ledger.erpCancels[i]
          && t'.ledger.cancelFailures[i] == t.ledger.cancelFailures[i]
          && t'.ledger.stockIns[i] == t.ledger.stockIns[i]
          && t'.ledger.inventory[i] == t.ledger.inventory[i])
  }

  ghost predicate OthersDoNotHold(p: Plant, saga: nat, id: int) {
    forall a | a in p.sagas && a != saga && p.sagas[a].order == id :: !Holding(p.sagas[a])
  }

  /** Nothing that any claim speaks of has changed. */
  ghost predicate OnlyLogs(t: Tables, t': Tables) {
    t' == t.(ledger := t.ledger.(failureLogs := t'.ledger.failureLogs))
  }

  /** A move of one saga that its fellow sagas can live with. */
  ghost predicate LegalMove(p: Plant, saga: nat, t': Tables, g': Saga)
    requires saga in p.sagas
  {
    && g'.order == p.sagas[saga].order
    && T.StoreOk(t'.store)
    && OnlyTouches(p.tables, t', g'.order)
    && SagaOk(t', g')
    && OrderLedgerOk(t', g'.order)
    && (g'.order in p.tables.store.orders ==>
          t'.store.orders[g'.order].completed == p.tables.store.orders[g'.order].completed)
    && (OthersDoNotHold(p, saga, g'.order) || (OnlyLogs(p.tables, t') && !Holding(g')))
  }

  lemma LegalMoveKeepsClaims(p: Plant, saga: nat, t': Tables, g': Saga, other: nat)
    requires PlantOk(p) && saga in p.sagas && LegalMove(p, saga, t', g')
    requires other in p.sagas && other != saga
    ensures SagaOk(t', p.sagas[other])
  {
    assert SagaOk(p.tables, p.sagas[other]);
  }

  lemma LegalMoveKeepsPlantOk(p: Plant, saga: nat, t': Tables, g': Saga)
    requires PlantOk(p) && saga in p.sagas && LegalMove(p, saga, t', g')
    ensures PlantOk(Plant(t', p.sagas[saga := g']))
  {
    var p' := Plant(t', p.sagas[saga := g']);
    forall a | a in p'.sagas ensures SagaOk(p'.tables, p'.sagas[a]) {
      if a != saga {
        LegalMoveKeepsClaims(p, saga, t', g', a);
      }
    }
    forall id ensures OrderLedgerOk(p'.tables, id) {
      assert OrderLedgerOk(p.tables, id);
    }
  }

  /** T1 finds nobody holding the order: a holder would have left it finished. */
  lemma InProgressMeansNoHolder(p: Plant, id: int)
    requires PlantOk(p) && InProgressOrder(p.tables.store, id)
    ensures forall a | a in p.sagas && p.sagas[a].order == id :: !Holding(p.sagas[a])
    ensures Outstanding(p.tables.ledger, id) == 0 && p.tables.ledger.stockIns[id] == 0
  {
    assert OrderLedgerOk(p.tables, id);
    forall a | a in p.sagas && p.sagas[a].order == id ensures !Holding(p.sagas[a]) {
      assert SagaOk(p.tables, p.sagas[a]);
    }
  }

  lemma StepKeepsStoreOk(t: Tables, g: Saga, a: Answer)
    requires T.StoreOk(t.store) && SagaOk(t, g)
    ensures T.StoreOk(Step(t, g, a).0.store)
  {
    assert OrderOk(t.store.orders[g.order]);
  }

  lemma StepTouchesItsOrderOnly(t: Tables, g: Saga, a: Answer)
    requires g.order in t.store.orders
    ensures var (t', g') := Step(t, g, a);
            && g'.order == g.order && g'.qty == g.qty
            && OnlyTouches(t, t', g.order)
            && t'.store.orders[g.order] == t.store.orders[g.order].(status := t'.store.orders[g.order].status)
  {
    if g.stage.CallErp? || g.stage.CallWms? || g.stage.CancelErp? {
      CallTouchesItsOrderOnly(t, g, a);
    } else {
      LocalStepTouchesItsOrderOnly(t, g, a);
    }
  }

  lemma CallTouchesItsOrderOnly(t: Tables, g: Saga, a: Answer)
    requires g.order in t.store.orders && (g.stage.CallErp? || g.stage.CallWms? || g.stage.CancelErp?)
    ensures var (t', g') := Step(t, g, a);
            g'.order == g.order && g'.qty == g.qty && t'.store == t.store && OnlyTouches(t, t', g.order)
  {
  }

  lemma LocalStepTouchesItsOrderOnly(t: Tables, g: Saga, a: Answer)
    requires g.order in t.store.orders && !g.stage.CallErp? && !g.stage.CallWms? && !g.stage.CancelErp?
    ensures var (t', g') := Step(t, g, a);
            && g'.order == g.order && g'.qty == g.qty
            && OnlyTouches(t, t', g.order)
            && t'.store.orders[g.order] == t.store.orders[g.order].(status := t'.store.orders[g.order].status)
  {
  }

  lemma T1KeepsClaim(t: Tables, g: Saga, a: Answer)
    requires ClaimOk(t, g) && OrderLedgerOk(t, g.order) && OrderOk(t.store.orders[g.order])
    requires g.stage == RunT1 && !a.commitLost
    requires InProgressOrder(t.store, g.order) ==> t.ledger.stockIns[g.order] == 0 == Outstanding(t.ledger, g.order)
    ensures ClaimOk(Step(t, g, a).0, Step(t, g, a).1) && OrderLedgerOk(Step(t, g, a).0, g.order)
  {
  }

  lemma CallKeepsClaim(t: Tables, g: Saga, a: Answer)
    requires ClaimOk(t, g) && OrderLedgerOk(t, g.order)
    requires g.stage == CallErp || g.stage == CallWms || g.stage == CancelErp
    ensures ClaimOk(Step(t, g, a).0, Step(t, g, a).1) && OrderLedgerOk(Step(t, g, a).0, g.order)
  {
    AppliedOnceOrNever(a.call);
  }

  lemma LocalStepKeepsClaim(t: Tables, g: Saga, a: Answer)
    requires ClaimOk(t, g) && OrderLedgerOk(t, g.order)
    requires g.stage != RunT1 && g.stage != CallErp && g.stage != CallWms && g.stage != CancelErp
    ensures ClaimOk(Step(t, g, a).0, Step(t, g, a).1) && OrderLedgerOk(Step(t, g, a).0, g.order)
  {
  }

  /** One step keeps the claim of the saga that takes it, and the accounts of its order. */
  lemma StepKeepsSagaOk(t: Tables, g: Saga, a: Answer)
    requires SagaOk(t, g) && OrderLedgerOk(t, g.order) && OrderOk(t.store.orders[g.order]) && !a.commitLost
    ensures SagaOk(Step(t, g, a).0, Step(t, g, a).1)
    ensures OrderLedgerOk(Step(t, g, a).0, g.order)
  {
    StepKeepsTally(t, g, a);
    match g.stage
    case RunT1 => T1KeepsClaim(t, g, a);
    case CallErp => CallKeepsClaim(t, g, a);
    case CallWms => CallKeepsClaim(t, g, a);
    case CancelErp => CallKeepsClaim(t, g, a);
    case _ => LocalStepKeepsClaim(t, g, a);
  }

  /** Whoever changes more than the failure log is the only holder of its order. */
  lemma OthersYield(p: Plant, saga: nat, a: Answer)
    requires PlantOk(p) && saga in p.sagas
    ensures var g := p.sagas[saga];
            || OthersDoNotHold(p, saga, g.order)
            || (OnlyLogs(p.tables, Step(p.tables, g, a).0) && !Holding(Step(p.tables, g, a).1))
  {
    var g := p.sagas[saga];
    if g.stage == RunT1 && InProgressOrder(p.tables.store, g.order) {
      InProgressMeansNoHolder(p, g.order);
    }
  }

  lemma StepIsLegal(p: Plant, saga: nat, a: Answer)
    requires PlantOk(p) && saga in p.sagas && !a.commitLost
    ensures LegalMove(p, saga, Step(p.tables, p.sagas[saga], a).0, Step(p.tables, p.sagas[saga], a).1)
  {
    var g := p.sagas[saga];
    assert SagaOk(p.tables, g) && OrderLedgerOk(p.tables, g.order) && OrderOk(p.tables.store.orders[g.order]);
    if g.stage == RunT1 && InProgressOrder(p.tables.store, g.order) {
      InProgressMeansNoHolder(p, g.order);
    }
    StepKeepsStoreOk(p.tables, g, a);
    StepTouchesItsOrderOnly(p.tables, g, a);
    StepKeepsSagaOk(p.tables, g, a);
    OthersYield(p, saga, a);
  }

  lemma SagaStartKeepsPlantOk(p: Plant, saga: nat, id: int)
    requires PlantOk(p) && saga !in p.sagas && InProgressOrder(p.tables.store, id)
    ensures PlantOk(p.(sagas := p.sagas[saga := StartSaga(p.tables.store, id)]))
  {
    assert OrderOk(p.tables.store.orders[id]);
    var p' := p.(sagas := p.sagas[saga := StartSaga(p.tables.store, id)]);
    forall a | a in p'.sagas ensures SagaOk(p'.tables, p'.sagas[a]) {
      if a != saga {
        assert SagaOk(p.tables, p.sagas[a]);
      }
    }
  }

  lemma SagaCrashKeepsPlantOk(p: Plant, saga: nat)
    requires PlantOk(p) && saga in p.sagas
    ensures PlantOk(p.(sagas := p.sagas[saga := Fail(p.sagas[saga], Broken)]))
  {
    assert SagaOk(p.tables, p.sagas[saga]) && OrderLedgerOk(p.tables, p.sagas[saga].order);
    LegalMoveKeepsPlantOk(p, saga, p.tables, Fail(p.sagas[saga], Broken));
  }

  lemma ApplyKeepsPlantOk(p: Plant, e: Event)
    requires PlantOk(p) && Trusted(e)
    ensures PlantOk(Apply(p, e))
  {
    match e
    case Create(productId, planQty, route, ok) => CreateKeepsPlantOk(p, productId, planQty, route, ok);
    case Update(id, plan, otherFields, ok) => UpdateKeepsPlantOk(p, id, plan, otherFields, ok);
    case Transit(id, action, ok) => TransitKeepsPlantOk(p, id, action, ok);
    case Report(id, line, gate, ok) => ReportKeepsPlantOk(p, id, line, gate, ok);
    case SagaStart(saga, id) =>
      if saga !in p.sagas && InProgressOrder(p.tables.store, id) {
        SagaStartKeepsPlantOk(p, saga, id);
      }
    case SagaStep(saga, answer) =>
      if saga in p.sagas {
        StepIsLegal(p, saga, answer);
        var (t', g') := Step(p.tables, p.sagas[saga], answer);
        LegalMoveKeepsPlantOk(p, saga, t', g');
      }
    case SagaCrash(saga) =>
      if saga in p.sagas {
        SagaCrashKeepsPlantOk(p, saga);
      }
  }

  lemma {:induction false} EveryRunIsOk(events: seq<Event>, n: nat)
    requires n <= |events| && AllTrusted(events)
    ensures PlantOk(After(events, n))
  {
    if n > 0 {
      EveryRunIsOk(events, n - 1);
      ApplyKeepsPlantOk(After(events, n - 1), events[n - 1]);
    }
  }

  // ---- What every run keeps ----

  /** Conservation: in every reachable state the quantities of every order and operation add up,
      no operation exceeds its plan, and an order stays below twice its plan. */
  lemma QuantitiesAreConserved(events: seq<Event>, n: nat, id: int)
    requires n <= |events| && AllTrusted(events)
    requires id in After(events, n).tables.store.orders
    ensures var o := After(events, n).tables.store.orders[id];
            && o.completed == o.good + o.defect + o.scrap
            && o.completed == Sum(o.ops, |o.ops|, CompletedOf)
            && o.good == Sum(o.ops, |o.ops|, GoodOf)
            && o.defect == Sum(o.ops, |o.ops|, DefectOf)
            && o.scrap == Sum(o.ops, |o.ops|, ScrapOf)
            && (forall i | 0 <= i < |o.ops| ::
                  var op := o.ops[i];
                  && op.completed == op.good + op.defect + op.scrap <= op.planQty == o.planQty
                  && (op.status == OpStatus.Finished <==> op.completed == op.planQty))
            && o.completed < 2 * o.planQty
            && (|o.ops| == 1 ==> o.completed <= o.planQty)
            && (o.status == InProgress ==> o.completed < o.planQty)
  {
    EveryRunIsOk(events, n);
    var o := After(events, n).tables.store.orders[id];
    assert OrderOk(o);
    forall i | 0 <= i < |o.ops| ensures OperationOk(o.ops[i], o.planQty) {
    }
    if |o.ops| == 1 {
      SingleOperationStaysWithinPlan(o);
    }
  }

  /** At most one saga answers for an order at any time, and while it does the order is finished. */
  lemma OneSagaPerOrder(events: seq<Event>, n: nat, a: nat, b: nat)
    requires n <= |events| && AllTrusted(events)
    requires a in After(events, n).sagas && b in After(events, n).sagas
    requires Holding(After(events, n).sagas[a]) && Holding(After(events, n).sagas[b])
    requires After(events, n).sagas[a].order == After(events, n).sagas[b].order
    ensures a == b
    ensures var p := After(events, n);
            p.sagas[a].order in p.tables.store.orders &&
            IsFinished(p.tables.store.orders[p.sagas[a].order].status)
  {
    EveryRunIsOk(events, n);
    assert SagaOk(After(events, n).tables, After(events, n).sagas[a]);
  }

  /** However many sagas are started, retried, interrupted and compensated, an order is stocked in
      at most once, and ERP holds at most one report of it beyond the failed cancellations. */
  lemma StockedInAtMostOnce(events: seq<Event>, n: nat, id: int)
    requires n <= |events| && AllTrusted(events)
    ensures var l := After(events, n).tables.ledger;
            && l.inventory[id] <= l.stockIns[id] <= 1
            && Count(l.erpCancels, id) + Count(l.cancelFailures, id) <= Count(l.erpReports, id)
            && Count(l.erpReports, id) <= Count(l.erpCancels, id) + Count(l.cancelFailures, id) + 1
  {
    EveryRunIsOk(events, n);
    assert OrderLedgerOk(After(events, n).tables, id);
  }

  lemma {:induction false} TalliesFit(events: seq<Event>, n: nat)
    requires n <= |events|
    ensures forall saga | saga in After(events, n).sagas :: SagaFits(After(events, n).sagas[saga])
  {
    if n > 0 {
      TalliesFit(events, n - 1);
      var p, e := After(events, n - 1), events[n - 1];
      if e.SagaStep? && e.saga in p.sagas {
        StepKeepsTally(p.tables, p.sagas[e.saga], e.answer);
      }
    }
  }

  /** Whatever else happens meanwhile, a saga that met no fault of database, configuration or ERP ends in
      one of three ways: everything once, T1 undone with one failure log, or refused untouched. In the
      second it is all-or-nothing exactly if the ERP breaker did not refuse the cancellation, which
      leaves the report at ERP. */
  lemma HealthySagasAreAllOrNothing(events: seq<Event>, n: nat, saga: nat)
    requires n <= |events|
    requires saga in After(events, n).sagas
    requires After(events, n).sagas[saga].stage.Done? && After(events, n).sagas[saga].healthy
    ensures var g := After(events, n).sagas[saga];
            && (|| (g.stage.ending == Fulfilled && g.tally == Tally(true, 1, 1, 1, 0))
                || (g.stage.ending.Failed? && g.tally == Tally(false, Leftover(g), 0, 0, 1))
                || (g.stage.ending == Refused && g.tally == UNTOUCHED))
            && (g.stage.ending != Refused ==> (AllOrNothing(g.tally) <==> !g.cancelRefused))
            && (g.cancelRefused ==> g.stage.ending == Failed(Wms))
  {
    TalliesFit(events, n);
  }

  /** What the accounts of an order gained, as a tally of its ERP net, stock-ins, inventory rows and
      failure logs. */
  ghost predicate Gained(l: Ledger, l': Ledger, id: int, t: Tally, t': Tally) {
    && ErpNet(l', id) - ErpNet(l, id) == t'.erp - t.erp
    && Count(l'.stockIns, id) - Count(l.stockIns, id) == t'.stockIns - t.stockIns
    && Count(l'.inventory, id) - Count(l.inventory, id) == t'.inventory - t.inventory
    && Count(l'.failureLogs, id) - Count(l.failureLogs, id) == t'.failureLogs - t.failureLogs
  }

  /** Reports applied by ERP minus cancellations applied. */
  function ErpNet(l: Ledger, id: int): int { Count(l.erpReports, id) - Count(l.erpCancels, id) }

  /** The tally is honest: every step books exactly what it did to the accounts of its order, and
      leaves those of other orders alone. */
  lemma TallyIsTheChange(t: Tables, g: Saga, a: Answer, id: int)
    ensures var (t', g') := Step(t, g, a);
            Gained(t.ledger, t'.ledger, id,
                   if id == g.order then g.tally else UNTOUCHED, if id == g.order then g'.tally else UNTOUCHED)
  {
    match g.stage
    case CallErp =>
    case CallWms =>
    case CancelErp =>
    case _ => LocalTallyIsTheChange(t, g, a, id);
  }

  lemma LocalTallyIsTheChange(t: Tables, g: Saga, a: Answer, id: int)
    requires !g.stage.CallErp? && !g.stage.CallWms? && !g.stage.CancelErp?
    ensures var (t', g') := Step(t, g, a);
            Gained(t.ledger, t'.ledger, id,
                   if id == g.order then g.tally else UNTOUCHED, if id == g.order then g'.tally else UNTOUCHED)
  {
  }

  /** T1 is on the tally exactly while its effect is in force. */
  lemma T1IsTheChange(t: Tables, g: Saga, a: Answer)
    ensures var (t', g') := Step(t, g, a);
            && (g'.tally.t1 && !g.tally.t1 ==>
                  InProgressOrder(t.store, g.order) && t'.store == AfterT1(t.store, g.order))
            && (g.tally.t1 && !g'.tally.t1 ==> t'.store == AfterUndo(t.store, g.order))
  {
  }

  /** Each step of a run changes the status of an order along an edge of the table, or undoes a
      completion; cancelled orders stay cancelled, and closed ones leave only by compensation. */
  lemma StatusesFollowTheTable(events: seq<Event>, n: nat, id: int)
    requires n < |events| && AllTrusted(events)
    requires id in After(events, n).tables.store.orders
    ensures id in After(events, n + 1).tables.store.orders
    ensures var from := After(events, n).tables.store.orders[id].status;
            var to := After(events, n + 1).tables.store.orders[id].status;
            && (to == from || Edge(from, to) || (IsUndo(After(events, n), events[n], id) && IsFinished(from)))
            && (from == Cancelled ==> to == Cancelled)
            && (from == Closed && to != Closed ==> IsUndo(After(events, n), events[n], id) && to == InProgress)
  {
    EveryRunIsOk(events, n);
    var p := After(events, n);
    var from := p.tables.store.orders[id].status;
    StepMovesAlongAnEdge(p, events[n], id);
    EdgesOf(from, After(events, n + 1).tables.store.orders[id].status);
    if events[n].SagaStep? && events[n].saga in p.sagas {
      assert SagaOk(p.tables, p.sagas[events[n].saga]);
    }
  }

  /** The event is a saga compensating T1 of this order. */
  predicate IsUndo(p: Plant, e: Event, id: int) {
    && e.SagaStep? && e.saga in p.sagas
    && p.sagas[e.saga].stage.UndoT1? && p.sagas[e.saga].order == id
  }

  /** In any plant at all, reachable or not. */
  lemma StepMovesAlongAnEdge(p: Plant, e: Event, id: int)
    requires id in p.tables.store.orders && (e.Create? ==> id < p.tables.store.nextId)
    ensures id in Apply(p, e).tables.store.orders
    ensures var from := p.tables.store.orders[id].status;
            var to := Apply(p, e).tables.store.orders[id].status;
            to == from || Edge(from, to) || (IsUndo(p, e, id) && to == InProgress)
  {
    var from := p.tables.store.orders[id].status;
    EdgesOf(InProgress, Completed);
    if e.Transit? && ActionOf(e.action).Some? {
      var to := Next(from, ActionOf(e.action).value);
      assert to.Some? ==> Edge(from, to.value);
    }
  }
}
