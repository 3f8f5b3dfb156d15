/** The completion saga: local completion (T1), ERP report (T2), WMS stock-in (T3), records (T4),
    and the compensations. Written once as single steps, for interleaving, and once as the net
    effect of an uninterrupted run. */
module CompletionSaga {
  import opened WorkOrderStateMachine
  import opened WorkOrderTransactions
  import opened ExternalCalls

  datatype System = Erp | Wms

  /** A completed quantity as ERP or WMS was told it. */
  datatype Sent = Sent(order: int, quantity: int)

  /** A row of the log of successful calls. */
  datatype Logged = Logged(system: System, order: int)

  /** What the saga leaves behind outside the work-order tables, counted per order: requests
      applied by ERP and WMS, cancellations that failed, failure logs and inventory rows; and, in order of
      arrival, the quantities of the applied reports and stock-ins, and the success logs. */
  datatype Ledger = Ledger(
    erpReports: multiset<int>, erpCancels: multiset<int>, cancelFailures: multiset<int>,
    stockIns: multiset<int>, inventory: multiset<int>, failureLogs: multiset<int>,
    erpSent: seq<Sent>, wmsSent: seq<Sent>, successLogs: seq<Logged>)

  const EMPTY_LEDGER :=
    Ledger(multiset{}, multiset{}, multiset{}, multiset{}, multiset{}, multiset{}, [], [], [])

  datatype Tables = Tables(store: Store, ledger: Ledger)

  datatype Ending =
    | Fulfilled
    | Failed(system: System)        // compensated and reported as 502
    | Refused                       // nothing done: the order was not in progress, or T1 threw
    | Unconfigured(system: System)  // requireConfig threw after T1
    | Broken                        // a database statement threw, or the process died

  datatype Stage =
    | RunT1 | CallErp | CallWms | CancelErp | UndoT1(system: System) | LogFailure(system: System)
    | InsertInventory | LogErp | LogWms | Done(ending: Ending)

  /** One saga's own contribution: is its T1 in force, and how often has it reached ERP (reports
      minus cancellations), WMS, the inventory table and the failure log. */
  datatype Tally = Tally(t1: bool, erp: int, stockIns: int, inventory: int, failureLogs: int)

  const UNTOUCHED := Tally(false, 0, 0, 0, 0)

  /** qty is read with the order, before T1. The rest is history: healthy, that no answer so far was a
      lost commit, a missing configuration, a cancellation that ERP did not accept, a failed statement
      or a crash; undone, that its compensation of T1 has been carried out; cancelRefused, that the
      breaker did not let its cancellation through. */
  datatype Saga = Saga(
    order: int, qty: int, stage: Stage, tally: Tally, healthy: bool, undone: bool, cancelRefused: bool)

  /** What the world answers to one step; each stage reads only what it asks for. */
  datatype Answer = Answer(dbOk: bool, commitLost: bool, configured: bool, call: Script)

  function Add(m: multiset<int>, id: int, n: nat): multiset<int> { m[id := m[id] + n] }

  /** A call adds at most one request: AppliedOnceOrNever. */
  function WithSent(sent: seq<Sent>, id: int, qty: int, n: nat): seq<Sent> {
    if n == 0 then sent else sent + [Sent(id, qty)]
  }

  function WithReport(l: Ledger, id: int, qty: int, n: nat): Ledger {
    l.(erpReports := Add(l.erpReports, id, n), erpSent := WithSent(l.erpSent, id, qty, n))
  }

  function WithStockIn(l: Ledger, id: int, qty: int, n: nat): Ledger {
    l.(stockIns := Add(l.stockIns, id, n), wmsSent := WithSent(l.wmsSent, id, qty, n))
  }

  function WithLog(l: Ledger, system: System, id: int): Ledger {
    l.(successLogs := l.successLogs + [Logged(system, id)])
  }

  predicate InProgressOrder(s: Store, id: int) { id in s.orders && s.orders[id].status == InProgress }

  /** T1: complete the order and enqueue its stop message in one transaction. */
  function AfterT1(s: Store, id: int): Store
    requires id in s.orders
  {
    SetOrder(s, id, s.orders[id].(status := Completed)).(stops := s.stops + [id])
  }

  /** The compensation of T1 puts the status back without looking at the current one. */
  function AfterUndo(s: Store, id: int): Store {
    if id in s.orders then SetOrder(s, id, s.orders[id].(status := InProgress)) else s
  }

  function StartSaga(s: Store, id: int): Saga
    requires id in s.orders
  {
    Saga(id, s.orders[id].completed, RunT1, UNTOUCHED, true, false, false)
  }

  function To(g: Saga, stage: Stage): Saga { g.(stage := stage) }

  function Fail(g: Saga, ending: Ending): Saga { g.(stage := Done(ending), healthy := false) }

  /** One step of a saga on the shared tables. */
  function Step(t: Tables, g: Saga, a: Answer): (Tables, Saga) {
    var id, l, tally := g.order, t.ledger, g.tally;
    match g.stage
    case RunT1 =>
      if !InProgressOrder(t.store, id) || !a.dbOk then (t, To(g, Done(Refused)))
      // The result of the commit is not looked at: a lost commit goes on as if T1 had happened.
      else if a.commitLost then (t, To(g, CallErp).(healthy := false))
      else (t.(store := AfterT1(t.store, id)), To(g, CallErp).(tally := tally.(t1 := true)))
    case CallErp =>
      if !a.configured then (t, Fail(g, Unconfigured(Erp)))
      else
        var n := a.call.TimesApplied();
        (t.(ledger := WithReport(l, id, g.qty, n)),
         To(g, if a.call.Ok() then CallWms else UndoT1(Erp)).(tally := tally.(erp := tally.erp + n)))
    case CallWms =>
      if !a.configured then (t, Fail(g, Unconfigured(Wms)))
      else
        var n := a.call.TimesApplied();
        (t.(ledger := WithStockIn(l, id, g.qty, n)),
         To(g, if a.call.Ok() then InsertInventory else CancelErp).(
           tally := tally.(stockIns := tally.stockIns + n)))
    case CancelErp =>
      var n := a.call.TimesApplied();
      var l' := l.(erpCancels := Add(l.erpCancels, id, n),
                   cancelFailures := Add(l.cancelFailures, id, if a.call.Ok() then 0 else 1));
      (t.(ledger := l'),
       To(g, UndoT1(Wms)).(tally := tally.(erp := tally.erp - n),
                           healthy := g.healthy && (a.call.Ok() || !a.call.allowed),
                           cancelRefused := !a.call.allowed))
    case UndoT1(system) =>
      if a.dbOk then
        (t.(store := AfterUndo(t.store, id)),
         To(g, LogFailure(system)).(tally := tally.(t1 := false), undone := true))
      else (t, To(g, LogFailure(system)).(healthy := false))
    case LogFailure(system) =>
      if a.dbOk then
        (t.(ledger := l.(failureLogs := Add(l.failureLogs, id, 1))),
         To(g, Done(Failed(system))).(tally := tally.(failureLogs := tally.failureLogs + 1)))
      else (t, Fail(g, Broken))
    case InsertInventory =>
      if a.dbOk then
        (t.(ledger := l.(inventory := Add(l.inventory, id, 1))),
         To(g, LogErp).(tally := tally.(inventory := tally.inventory + 1)))
      else (t, Fail(g, Broken))
    case LogErp =>
      if a.dbOk then (t.(ledger := WithLog(l, Erp, id)), To(g, LogWms)) else (t, Fail(g, Broken))
    case LogWms =>
      if a.dbOk then (t.(ledger := WithLog(l, Wms, id)), To(g, Done(Fulfilled))) else (t, Fail(g, Broken))
    case Done(_) => (t, g)
  }

  /** From T1 until its compensation or its last log row, a saga is answerable for its order. */
  predicate Holding(g: Saga) {
    match g.stage
    case RunT1 => false
    case LogFailure(_) => false
    case Done(_) => false
    case _ => true
  }

  /** All or nothing: everything once, or T1 undone and one failure log. */
  predicate AllOrNothing(t: Tally) {
    || t == Tally(true, 1, 1, 1, 0)
    || t == Tally(false, 0, 0, 0, 1)
  }

  /** What is left at ERP once the saga is past its cancellation. */
  function Leftover(g: Saga): int { if g.cancelRefused then 1 else 0 }

  /** The tally of a healthy saga is a function of its stage, and of whether the breaker refused its
      cancellation. */
  ghost predicate TallyFits(g: Saga) {
    g.healthy ==>
      match g.stage
      case RunT1 => g.tally == UNTOUCHED
      case CallErp => g.tally == Tally(true, 0, 0, 0, 0)
      case CallWms => g.tally == Tally(true, 1, 0, 0, 0)
      case CancelErp => g.tally == Tally(true, 1, 0, 0, 0)
      case UndoT1(_) => g.tally == UNTOUCHED.(t1 := true, erp := Leftover(g))
      case LogFailure(_) => g.tally == UNTOUCHED.(erp := Leftover(g))
      case InsertInventory => g.tally == Tally(true, 1, 1, 0, 0)
      case LogErp => g.tally == Tally(true, 1, 1, 1, 0)
      case LogWms => g.tally == Tally(true, 1, 1, 1, 0)
      case Done(ending) =>
        match ending
        case Fulfilled => g.tally == Tally(true, 1, 1, 1, 0)
        case Failed(_) => g.tally == UNTOUCHED.(erp := Leftover(g), failureLogs := 1)
        case Refused => g.tally == UNTOUCHED
        case _ => false
  }

  /** A cancellation is refused only on the way from a failed stock-in. */
  ghost predicate RefusalFits(g: Saga) {
    g.cancelRefused ==>
      match g.stage
      case UndoT1(system) => system == Wms
      case LogFailure(system) => system == Wms
      case Done(ending) => ending == Failed(Wms) || ending == Broken
      case _ => false
  }

  lemma StepKeepsRefusal(t: Tables, g: Saga, a: Answer)
    requires RefusalFits(g)
    ensures RefusalFits(Step(t, g, a).1)
  {
  }

  /** The leftover is counted from the cancellation on: before it, no saga has been refused. */
  ghost predicate SagaFits(g: Saga) { TallyFits(g) && RefusalFits(g) }

  lemma StepKeepsTally(t: Tables, g: Saga, a: Answer)
    requires SagaFits(g)
    ensures SagaFits(Step(t, g, a).1)
  {
    StepKeepsRefusal(t, g, a);
    if g.stage.CallErp? || g.stage.CallWms? || g.stage.CancelErp? {
      CallKeepsTally(t, g, a);
    }
  }

  lemma CallKeepsTally(t: Tables, g: Saga, a: Answer)
    requires SagaFits(g) && (g.stage.CallErp? || g.stage.CallWms? || g.stage.CancelErp?)
    ensures TallyFits(Step(t, g, a).1)
  {
    AppliedOnceOrNever(a.call);
  }

  // ---- The net effect of an uninterrupted run ----

  /** Everything the world decides during one run. */
  datatype World = World(
    t1Ok: bool, commitLost: bool, erpConfigured: bool, erp: Script, wmsConfigured: bool, wms: Script,
    cancel: Script, undoOk: bool, logOk: bool, inventoryOk: bool)

  function Compensated(t: Tables, id: int, system: System, undoOk: bool, logOk: bool): (Tables, Ending) {
    var t' := if undoOk then t.(store := AfterUndo(t.store, id)) else t;
    if logOk then
      (t'.(ledger := t'.ledger.(failureLogs := Add(t'.ledger.failureLogs, id, 1))), Failed(system))
    else (t', Broken)
  }

  /** T4: the inventory row, then the two success logs. */
  function Recorded(t: Tables, id: int, w: World): (Tables, Ending) {
    if !w.inventoryOk then (t, Broken)
    else
      var l := t.ledger.(inventory := Add(t.ledger.inventory, id, 1));
      if w.logOk then (t.(ledger := WithLog(WithLog(l, Erp, id), Wms, id)), Fulfilled)
      else (t.(ledger := l), Broken)
  }

  /** T3 with its compensations, and T4. */
  function FromWms(t: Tables, id: int, qty: int, w: World): (Tables, Ending) {
    var l := t.ledger;
    if !w.wms.Ok() then
      var l' := if w.cancel.Ok() then l.(erpCancels := Add(l.erpCancels, id, 1))
                else l.(cancelFailures := Add(l.cancelFailures, id, 1));
      Compensated(t.(ledger := l'), id, Wms, w.undoOk, w.logOk)
    else Recorded(t.(ledger := WithStockIn(l, id, qty, 1)), id, w)
  }

  lemma FromWmsIgnoresErp(t: Tables, id: int, qty: int, w: World, w': World)
    requires w' == w.(erp := w'.erp)
    ensures FromWms(t, id, qty, w') == FromWms(t, id, qty, w)
  {
  }

  /** T2 with its compensation, and what follows. */
  function FromErp(t: Tables, id: int, qty: int, w: World): (Tables, Ending) {
    if !w.erpConfigured then (t, Unconfigured(Erp))
    else if !w.erp.Ok() then Compensated(t, id, Erp, w.undoOk, w.logOk)
    else
      var t' := t.(ledger := WithReport(t.ledger, id, qty, 1));
      if !w.wmsConfigured then (t', Unconfigured(Wms)) else FromWms(t', id, qty, w)
  }

  function Net(t: Tables, id: int, w: World): (Tables, Ending) {
    if !InProgressOrder(t.store, id) || !w.t1Ok then (t, Refused)
    else
      FromErp(if w.commitLost then t else t.(store := AfterT1(t.store, id)), id, t.store.orders[id].completed, w)
  }

  function Count(m: multiset<int>, id: int): int { m[id] }

  /** What one run changed for its order, as a tally. */
  function Change(t: Tables, t': Tables, id: int): Tally {
    var l, l' := t.ledger, t'.ledger;
    var reports := Count(l'.erpReports, id) - Count(l.erpReports, id);
    var cancels := Count(l'.erpCancels, id) - Count(l.erpCancels, id);
    Tally(id in t'.store.orders && t'.store.orders[id].status == Completed,
          reports - cancels,
          Count(l'.stockIns, id) - Count(l.stockIns, id),
          Count(l'.inventory, id) - Count(l.inventory, id),
          Count(l'.failureLogs, id) - Count(l.failureLogs, id))
  }

  /** How one run ends, told by the answers it gets. */
  function EndingOf(w: World, started: bool): Ending {
    if !started || !w.t1Ok then Refused
    else if !w.erpConfigured then Unconfigured(Erp)
    else if w.erp.Ok() && !w.wmsConfigured then Unconfigured(Wms)
    else if w.erp.Ok() && w.wms.Ok() then (if w.inventoryOk && w.logOk then Fulfilled else Broken)
    else if !w.logOk then Broken
    else Failed(if w.erp.Ok() then Wms else Erp)
  }

  /** Everything that one run leaves for its order, in every world: a failed undo does not keep the failure
      from being logged, a failed insertion comes before the success logs, which name ERP and then WMS. */
  lemma WhatOneRunLeaves(t: Tables, id: int, w: World)
    ensures var (t', ending) := Net(t, id, w);
            var started := InProgressOrder(t.store, id);
            var begun := started && w.t1Ok;
            var reported := begun && w.erpConfigured && w.erp.Ok();
            var stocked := reported && w.wmsConfigured && w.wms.Ok();
            var failed := begun && w.erpConfigured
                          && if w.erp.Ok() then w.wmsConfigured && !w.wms.Ok() else true;
            && ending == EndingOf(w, started)
            && (!begun ==> t' == t)
            && (begun ==>
                var change := Change(t, t', id);
                && change.t1 == (!w.commitLost && !(failed && w.undoOk))
                && change.erp == (if reported && !(failed && w.cancel.Ok()) then 1 else 0)
                && change.stockIns == (if stocked then 1 else 0)
                && change.inventory == (if stocked && w.inventoryOk then 1 else 0)
                && change.failureLogs == (if failed && w.logOk then 1 else 0)
                && t'.ledger.successLogs ==
                   t.ledger.successLogs + if ending == Fulfilled then [Logged(Erp, id), Logged(Wms, id)] else [])
  {
    assert t.ledger.successLogs + [] == t.ledger.successLogs;
    assert t.ledger.successLogs + [Logged(Erp, id)] + [Logged(Wms, id)] ==
           t.ledger.successLogs + [Logged(Erp, id), Logged(Wms, id)];
  }

  /** When a run is all-or-nothing, with database steps that succeed, for every answer of ERP and WMS: if
      and only if ERP is configured and, unless it fails, WMS is configured too and either takes the
      order in or leaves a cancellation that goes through. */
  lemma ConfigurationDecides(t: Tables, id: int, w: World)
    requires InProgressOrder(t.store, id) && w.t1Ok && !w.commitLost
    requires w.undoOk && w.logOk && w.inventoryOk
    ensures AllOrNothing(Change(t, Net(t, id, w).0, id)) <==>
            w.erpConfigured && (w.erp.Ok() ==> w.wmsConfigured && (w.wms.Ok() || w.cancel.Ok()))
  {
  }

  /** A compensated run restores the work orders exactly; only the stop message stays behind. */
  lemma CompensationRestoresTheOrders(t: Tables, id: int, w: World)
    requires Net(t, id, w).1.Failed? && w.undoOk
    ensures Net(t, id, w).0.store.orders == t.store.orders
    ensures Net(t, id, w).0.store.stops == t.store.stops + if w.commitLost then [] else [id]
  {
    var o := t.store.orders[id];
    assert o.(status := Completed).(status := InProgress) == o;
    assert t.store.orders[id := o] == t.store.orders;
    assert t.store.stops + [] == t.store.stops;
  }

  // ---- Single steps add up to the net effect ----

  function AnswerAt(stage: Stage, w: World): Answer {
    match stage
    case RunT1 => Answer(w.t1Ok, w.commitLost, true, w.erp)
    case CallErp => Answer(true, false, w.erpConfigured, w.erp)
    case CallWms => Answer(true, false, w.wmsConfigured, w.wms)
    case CancelErp => Answer(true, false, true, w.cancel)
    case UndoT1(_) => Answer(w.undoOk, false, true, w.erp)
    case InsertInventory => Answer(w.inventoryOk, false, true, w.erp)
    case _ => Answer(w.logOk, false, true, w.erp)
  }

  function Remaining(stage: Stage): nat {
    match stage
    case RunT1 => 6
    case CallErp => 5
    case CallWms => 4
    case CancelErp => 3
    case UndoT1(_) => 2
    case LogFailure(_) => 1
    case InsertInventory => 3
    case LogErp => 2
    case LogWms => 1
    case Done(_) => 0
  }

  /** Steps taken back to back until the saga is done. */
  function Finish(t: Tables, g: Saga, w: World): (Tables, Saga)
    decreases Remaining(g.stage)
  {
    if g.stage.Done? then (t, g)
    else
      var (t', g') := Step(t, g, AnswerAt(g.stage, w));
      Finish(t', g', w)
  }

  lemma AddNothing(m: multiset<int>, id: int)
    ensures Add(m, id, 0) == m
  {
  }

  /** The last two stages of a compensation, run back to back. */
  lemma FinishCompensation(t: Tables, g: Saga, w: World)
    requires g.stage.UndoT1?
    ensures var (t', g') := Finish(t, g, w);
            (t', g'.stage) == (Compensated(t, g.order, g.stage.system, w.undoOk, w.logOk).0,
                               Done(Compensated(t, g.order, g.stage.system, w.undoOk, w.logOk).1))
  {
    var (t1, g1) := Step(t, g, AnswerAt(g.stage, w));
    var (t2, g2) := Step(t1, g1, AnswerAt(g1.stage, w));
    assert Finish(t, g, w) == Finish(t1, g1, w) == Finish(t2, g2, w);
  }

  lemma FinishRecords(t: Tables, g: Saga, w: World)
    requires g.stage == InsertInventory
    ensures var (t', g') := Finish(t, g, w);
            (t', g'.stage) == (Recorded(t, g.order, w).0, Done(Recorded(t, g.order, w).1))
  {
    var (t1, g1) := Step(t, g, AnswerAt(g.stage, w));
    var (t2, g2) := Step(t1, g1, AnswerAt(g1.stage, w));
    var (t3, g3) := Step(t2, g2, AnswerAt(g2.stage, w));
    assert Finish(t, g, w) == Finish(t1, g1, w) == Finish(t2, g2, w) == Finish(t3, g3, w);
  }

  lemma FinishFromWms(t: Tables, g: Saga, w: World)
    requires g.stage == CallWms && w.wmsConfigured && !w.wms.Ok()
    ensures var (t', g') := Finish(t, g, w);
            var l := t.ledger;
            var l' := if w.cancel.Ok() then l.(erpCancels := Add(l.erpCancels, g.order, 1))
                      else l.(cancelFailures := Add(l.cancelFailures, g.order, 1));
            (t', g'.stage) == (Compensated(t.(ledger := l'), g.order, Wms, w.undoOk, w.logOk).0,
                               Done(Compensated(t.(ledger := l'), g.order, Wms, w.undoOk, w.logOk).1))
  {
    AppliedOnceOrNever(w.wms);
    AppliedOnceOrNever(w.cancel);
    AddNothing(t.ledger.stockIns, g.order);
    AddNothing(t.ledger.erpCancels, g.order);
    AddNothing(t.ledger.cancelFailures, g.order);
    var (t1, g1) := Step(t, g, AnswerAt(g.stage, w));
    var (t2, g2) := Step(t1, g1, AnswerAt(g1.stage, w));
    assert Finish(t, g, w) == Finish(t1, g1, w) == Finish(t2, g2, w);
    FinishCompensation(t2, g2, w);
  }

  /** The steps of a saga that nobody interrupts have exactly the net effect. */
  lemma StepsMakeTheNetEffect(t: Tables, id: int, w: World)
    requires InProgressOrder(t.store, id)
    ensures var (t', g') := Finish(t, StartSaga(t.store, id), w);
            (t', g'.stage) == (Net(t, id, w).0, Done(Net(t, id, w).1))
  {
    var g := StartSaga(t.store, id);
    AppliedOnceOrNever(w.erp);
    AppliedOnceOrNever(w.wms);
    AddNothing(t.ledger.erpReports, id);
    var (t1, g1) := Step(t, g, AnswerAt(g.stage, w));
    assert Finish(t, g, w) == Finish(t1, g1, w);
    if g1.stage == CallErp {
      var (t2, g2) := Step(t1, g1, AnswerAt(g1.stage, w));
      assert Finish(t1, g1, w) == Finish(t2, g2, w);
      if g2.stage.UndoT1? {
        FinishCompensation(t2, g2, w);
      } else if g2.stage == CallWms {
        if w.wmsConfigured && !w.wms.Ok() {
          FinishFromWms(t2, g2, w);
        } else {
          var (t3, g3) := Step(t2, g2, AnswerAt(g2.stage, w));
          assert Finish(t2, g2, w) == Finish(t3, g3, w);
          if g3.stage == InsertInventory {
            FinishRecords(t3, g3, w);
          }
        }
      }
    }
  }
}

/** The integration service: the saga carried out on the tables, one await at a time. */
module IntegrationService {
  import opened Results
  import opened WorkOrderStateMachine
  import opened ExternalCalls
  import opened CompletionSaga
  import Breakers
  import W = WorkOrderService

  const FAIL_THRESHOLD := 5
  const OPEN_SECONDS := 30

  class Integration {
    const service: W.Service
    const erpBreaker: Breakers.CircuitBreaker
    const wmsBreaker: Breakers.CircuitBreaker
    var ledger: Ledger

    ghost function Contents(): Tables
      reads this, service
    {
      Tables(service.Contents(), ledger)
    }

    constructor (service: W.Service)
      ensures this.service == service && fresh(erpBreaker) && fresh(wmsBreaker) && erpBreaker != wmsBreaker
      ensures Contents() == Tables(service.Contents(), EMPTY_LEDGER)
      ensures erpBreaker.Contents() == wmsBreaker.Contents() == Breakers.New(FAIL_THRESHOLD, OPEN_SECONDS)
    {
      this.service := service;
      erpBreaker := new Breakers.CircuitBreaker(FAIL_THRESHOLD, OPEN_SECONDS);
      wmsBreaker := new Breakers.CircuitBreaker(FAIL_THRESHOLD, OPEN_SECONDS);
      ledger := EMPTY_LEDGER;
    }

    /** T1, whose commit result is ignored by its caller. */
    method CompleteLocally(id: int, dbOk: bool, commitLost: bool) returns (ok: bool)
      modifies service
      ensures ok == (InProgressOrder(old(service.Contents()), id) && dbOk)
      ensures service.Contents() ==
              if ok && !commitLost then AfterT1(old(service.Contents()), id) else old(service.Contents())
    {
      var before, stopsBefore := service.orders, service.stops;
      if id !in service.orders || service.orders[id].status != InProgress {
        return false;
      }
      service.orders := service.orders[id := service.orders[id].(status := Completed)];
      if !dbOk {
        service.orders := before;
        return false;
      }
      service.stops := service.stops + [id];
      if commitLost {
        service.orders, service.stops := before, stopsBefore;
      }
      return true;
    }

    /** Compensation of T1, then the failure log; a failing UPDATE is only logged. */
    method Compensate(id: int, system: System, undoOk: bool, logOk: bool) returns (ending: Ending)
      modifies this, service
      ensures (Contents(), ending) == Compensated(old(Contents()), id, system, undoOk, logOk)
    {
      if undoOk && id in service.orders {
        service.orders := service.orders[id := service.orders[id].(status := InProgress)];
      }
      if !logOk {
        return Broken;
      }
      ledger := ledger.(failureLogs := Add(ledger.failureLogs, id, 1));
      return Failed(system);
    }

    /** T2: the completion report. */
    method ReportToErp(id: int, qty: int, script: Script, clock: Clock) returns (ok: bool)
      modifies `ledger, erpBreaker
      ensures ok == Admitted(script, old(erpBreaker.Contents()), clock).Ok()
      ensures erpBreaker.Contents() == AfterCall(old(erpBreaker.Contents()), script, clock)
      ensures ledger == if ok then WithReport(old(ledger), id, qty, 1) else old(ledger)
    {
      var res, n, _ := CallExternal(erpBreaker, script.retryCount, script.replies, clock);
      AppliedOnceOrNever(script.(allowed := !res.circuitOpen));
      if res.ok {
        ledger := WithReport(ledger, id, qty, Applied(script.replies, n));
      }
      return res.ok;
    }

    /** T3: the stock-in. */
    method StockIn(id: int, qty: int, script: Script, clock: Clock) returns (ok: bool)
      modifies `ledger, wmsBreaker
      ensures ok == Admitted(script, old(wmsBreaker.Contents()), clock).Ok()
      ensures wmsBreaker.Contents() == AfterCall(old(wmsBreaker.Contents()), script, clock)
      ensures ledger == if ok then WithStockIn(old(ledger), id, qty, 1) else old(ledger)
    {
      var res, n, _ := CallExternal(wmsBreaker, script.retryCount, script.replies, clock);
      AppliedOnceOrNever(script.(allowed := !res.circuitOpen));
      if res.ok {
        ledger := WithStockIn(ledger, id, qty, Applied(script.replies, n));
      }
      return res.ok;
    }

    /** Compensation of T2; a refused cancellation is only logged. */
    method CancelReport(id: int, script: Script, clock: Clock) returns (ok: bool)
      modifies `ledger, erpBreaker
      ensures ok == Admitted(script, old(erpBreaker.Contents()), clock).Ok()
      ensures erpBreaker.Contents() == AfterCall(old(erpBreaker.Contents()), script, clock)
      ensures ledger == if ok then old(ledger).(erpCancels := Add(old(ledger.erpCancels), id, 1))
                        else old(ledger).(cancelFailures := Add(old(ledger.cancelFailures), id, 1))
    {
      var res, n, _ := CallExternal(erpBreaker, script.retryCount, script.replies, clock);
      AppliedOnceOrNever(script.(allowed := !res.circuitOpen));
      if res.ok {
        ledger := ledger.(erpCancels := Add(ledger.erpCancels, id, Applied(script.replies, n)));
      } else {
        ledger := ledger.(cancelFailures := Add(ledger.cancelFailures, id, 1));
      }
      return res.ok;
    }

    /** The quantity that reportCompletionSaga reads along with the order, before T1. */
    function QuantityRead(id: int): int
      reads service
    {
      if id in service.orders then service.orders[id].completed else 0
    }

    /** T4. */
    method Record(id: int, w: World) returns (ending: Ending)
      modifies `ledger
      ensures (Contents(), ending) == Recorded(old(Contents()), id, w)
    {
      if !w.inventoryOk {
        return Broken;
      }
      ledger := ledger.(inventory := Add(ledger.inventory, id, 1));
      if !w.logOk {
        return Broken;
      }
      ledger := ledger.(successLogs := ledger.successLogs + [Logged(Erp, id)]);
      ledger := ledger.(successLogs := ledger.successLogs + [Logged(Wms, id)]);
      return Fulfilled;
    }

    /** T3 with its compensations, and T4. */
    method FinishAtWms(id: int, qty: int, w: World, wmsClock: Clock, cancelClock: Clock) returns (ending: Ending)
      requires erpBreaker != wmsBreaker && w.wmsConfigured
      modifies this, service, erpBreaker, wmsBreaker
      ensures var erp, wms := old(erpBreaker.Contents()), old(wmsBreaker.Contents());
              var stocked := Admitted(w.wms, wms, wmsClock).Ok();
              && (Contents(), ending) ==
                 FromWms(old(Contents()), id, qty, w.(wms := Admitted(w.wms, wms, wmsClock),
                                                      cancel := Admitted(w.cancel, erp, cancelClock)))
              && wmsBreaker.Contents() == AfterCall(wms, w.wms, wmsClock)
              && erpBreaker.Contents() == if stocked then erp
                                          else AfterCall(erp, w.cancel, cancelClock)
    {
      var stocked := StockIn(id, qty, w.wms, wmsClock);
      if !stocked {
        var _ := CancelReport(id, w.cancel, cancelClock);
        ending := Compensate(id, Wms, w.undoOk, w.logOk);
        return;
      }
      ending := Record(id, w);
    }

    /** T2 with its compensation; when the saga goes on to T3 there is no ending yet. */
    method TryErp(id: int, qty: int, w: World, clock: Clock) returns (ending: Option<Ending>)
      modifies this, service, erpBreaker
      ensures var erp := Admitted(w.erp, old(erpBreaker.Contents()), clock);
              && (ending.None? <==> w.erpConfigured && erp.Ok())
              && Contents() ==
                 (if !w.erpConfigured then old(Contents())
                  else if erp.Ok() then old(Contents()).(ledger := WithReport(old(ledger), id, qty, 1))
                  else Compensated(old(Contents()), id, Erp, w.undoOk, w.logOk).0)
              && (ending.Some? ==>
                  ending.value == if !w.erpConfigured then Unconfigured(Erp)
                                  else Compensated(old(Contents()), id, Erp, w.undoOk, w.logOk).1)
              && erpBreaker.Contents() ==
                 if w.erpConfigured then AfterCall(old(erpBreaker.Contents()), w.erp, clock)
                 else old(erpBreaker.Contents())
    {
      if !w.erpConfigured {
        return Some(Unconfigured(Erp));
      }
      var reported := ReportToErp(id, qty, w.erp, clock);
      if reported {
        return None;
      }
      var failed := Compensate(id, Erp, w.undoOk, w.logOk);
      return Some(failed);
    }

    /** T2, and T3 if there is nothing against it. */
    method FinishAtErp(id: int, qty: int, w: World, c: Clocks) returns (ending: Ending)
      requires erpBreaker != wmsBreaker
      modifies this, service, erpBreaker, wmsBreaker
      ensures FinishedFromErp(old(Contents()), id, qty, w, old(erpBreaker.Contents()), old(wmsBreaker.Contents()), c,
                              Contents(), ending, erpBreaker.Contents(), wmsBreaker.Contents())
    {
      var ended := TryErp(id, qty, w, c.erp);
      if ended.Some? {
        return ended.value;
      }
      if !w.wmsConfigured {
        return Unconfigured(Wms);
      }
      ghost var t, erp := Contents(), erpBreaker.Contents();
      ending := FinishAtWms(id, qty, w, c.wms, c.cancel);
      ErpThenWms(old(Contents()), id, qty, w, old(erpBreaker.Contents()), old(wmsBreaker.Contents()), c,
                 t, erp, Contents(), ending, erpBreaker.Contents(), wmsBreaker.Contents());
    }

    /** reportCompletionSaga. w scripts the world except for the verdicts of the breakers: those are
        given by the state the breakers are in when they are asked, the cancellation's by the ERP
        breaker as T2 has left it. */
    method ReportCompletionSaga(id: int, w: World, c: Clocks) returns (ending: Ending)
      requires erpBreaker != wmsBreaker
      modifies this, service, erpBreaker, wmsBreaker
      ensures var erp, wms := old(erpBreaker.Contents()), old(wmsBreaker.Contents());
              var w' := Judged(w, erp, wms, c);
              && (Contents(), ending) == Net(old(Contents()), id, w')
              && wmsBreaker.Contents() == (if ending.Refused? then wms else WmsBreakerAfter(w', wms, c))
              && erpBreaker.Contents() == (if ending.Refused? then erp else ErpBreakerAfter(w', erp, c))
    {
      var qty := QuantityRead(id);
      // T1
      var completed := CompleteLocally(id, w.t1Ok, w.commitLost);
      if !completed {
        return Refused;
      }
      ending := FinishAtErp(id, qty, w, c);
    }
  }

  datatype Clocks = Clocks(erp: Clock, wms: Clock, cancel: Clock)

  /** The world with the verdicts of the breakers filled in. */
  function Judged(w: World, erp: Breakers.Breaker, wms: Breakers.Breaker, c: Clocks): World {
    w.(erp := Admitted(w.erp, erp, c.erp),
       wms := Admitted(w.wms, wms, c.wms),
       cancel := Admitted(w.cancel, AfterCall(erp, w.erp, c.erp), c.cancel))
  }

  /** The breakers after T2, T3 and the cancellation, as far as these were called. */
  function WmsBreakerAfter(w: World, wms: Breakers.Breaker, c: Clocks): Breakers.Breaker {
    if w.erpConfigured && w.erp.Ok() && w.wmsConfigured then AfterCall(wms, w.wms, c.wms) else wms
  }

  function ErpBreakerAfter(w: World, erp: Breakers.Breaker, c: Clocks): Breakers.Breaker {
    if !w.erpConfigured then erp
    else
      var reported := AfterCall(erp, w.erp, c.erp);
      if w.erp.Ok() && w.wmsConfigured && !w.wms.Ok() then AfterCall(reported, w.cancel, c.cancel) else reported
  }

  /** From T2 on, the tables, the ending and both breakers are as specified. */
  ghost predicate FinishedFromErp(
      t: Tables, id: int, qty: int, w: World, erp: Breakers.Breaker, wms: Breakers.Breaker, c: Clocks,
      t': Tables, ending: Ending, erp': Breakers.Breaker, wms': Breakers.Breaker)
  {
    var w' := Judged(w, erp, wms, c);
    && (t', ending) == FromErp(t, id, qty, w')
    && wms' == WmsBreakerAfter(w', wms, c)
    && erp' == ErpBreakerAfter(w', erp, c)
  }

  /** A report that was applied, followed by T3. */
  lemma ErpThenWms(
      t: Tables, id: int, qty: int, w: World, erp: Breakers.Breaker, wms: Breakers.Breaker, c: Clocks,
      t1: Tables, erp1: Breakers.Breaker, t': Tables, ending: Ending, erp': Breakers.Breaker, wms': Breakers.Breaker)
    requires w.erpConfigured && Admitted(w.erp, erp, c.erp).Ok() && w.wmsConfigured
    requires t1 == t.(ledger := WithReport(t.ledger, id, qty, 1)) && erp1 == AfterCall(erp, w.erp, c.erp)
    requires (t', ending) == FromWms(t1, id, qty, w.(wms := Admitted(w.wms, wms, c.wms),
                                                     cancel := Admitted(w.cancel, erp1, c.cancel)))
    requires wms' == AfterCall(wms, w.wms, c.wms)
    requires erp' == if Admitted(w.wms, wms, c.wms).Ok() then erp1 else AfterCall(erp1, w.cancel, c.cancel)
    ensures FinishedFromErp(t, id, qty, w, erp, wms, c, t', ending, erp', wms')
  {
    var w' := Judged(w, erp, wms, c);
    FromWmsIgnoresErp(t1, id, qty, w'.(erp := w.erp), w');
  }
}
