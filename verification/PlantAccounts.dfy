/** Accounts over whole runs: stop messages against completions, and the runs that show where the
    bounds and the trusted assumptions bite. */
module PlantAccounts {
  import opened Results
  import opened WorkOrderStateMachine
  import opened WorkOrders
  import T = WorkOrderTransactions
  import opened CompletionSaga
  import opened ExternalCalls
  import opened PlantRuns

  // ---- Stop messages ----

  function StatusOf(p: Plant, id: int): Option<Status> {
    if id in p.tables.store.orders then Some(p.tables.store.orders[id].status) else None
  }

  function StopRows(p: Plant, id: int): nat { multiset(p.tables.store.stops)[id] }

  /** The event takes the order from in progress to completed, and not by hand. */
  predicate CompletesByItself(p: Plant, e: Event, id: int) {
    && !e.Transit?
    && StatusOf(p, id) == Some(InProgress)
    && StatusOf(Apply(p, e), id) == Some(Completed)
  }

  /** The event takes a finished order back to in progress. */
  predicate Reopens(p: Plant, e: Event, id: int) {
    && StatusOf(p, id).Some? && IsFinished(StatusOf(p, id).value)
    && StatusOf(Apply(p, e), id) == Some(InProgress)
  }

  function Completions(events: seq<Event>, n: nat, id: int): nat
    requires n <= |events|
  {
    if n == 0 then 0
    else Completions(events, n - 1, id) +
         if CompletesByItself(After(events, n - 1), events[n - 1], id) then 1 else 0
  }

  function Reopenings(events: seq<Event>, n: nat, id: int): nat
    requires n <= |events|
  {
    if n == 0 then 0
    else Reopenings(events, n - 1, id) + if Reopens(After(events, n - 1), events[n - 1], id) then 1 else 0
  }

  lemma StepKeepsIdsBelow(p: Plant, e: Event)
    requires forall known | known in p.tables.store.orders :: known < p.tables.store.nextId
    ensures forall id | id in Apply(p, e).tables.store.orders :: id < Apply(p, e).tables.store.nextId
  {
  }

  /** Ids handed out so far are below the sequence: needs no trust at all. */
  lemma {:induction false} IdsAreBelowTheSequence(events: seq<Event>, n: nat)
    requires n <= |events|
    ensures forall id | id in After(events, n).tables.store.orders :: id < After(events, n).tables.store.nextId
  {
    if n > 0 {
      IdsAreBelowTheSequence(events, n - 1);
      StepKeepsIdsBelow(After(events, n - 1), events[n - 1]);
    }
  }

  /** An event writes a stop row for an order exactly when it completes the order by itself. */
  lemma StopRowMeansCompletion(p: Plant, e: Event, id: int)
    requires forall known | known in p.tables.store.orders :: known < p.tables.store.nextId
    ensures StopRows(Apply(p, e), id) == StopRows(p, id) + if CompletesByItself(p, e, id) then 1 else 0
  {
    if e.Report? {
      ReportStopRow(p, e);
    } else if e.SagaStep? {
      SagaStepStopRow(p, e, id);
    } else {
      OtherEventsWriteNone(p, e, id);
    }
  }

  lemma OtherEventsWriteNone(p: Plant, e: Event, id: int)
    requires forall known | known in p.tables.store.orders :: known < p.tables.store.nextId
    requires !e.Report? && !e.SagaStep?
    ensures Apply(p, e).tables.store.stops == p.tables.store.stops && !CompletesByItself(p, e, id)
  {
  }

  lemma SagaStepStopRow(p: Plant, e: Event, id: int)
    requires e.SagaStep?
    ensures StopRows(Apply(p, e), id) == StopRows(p, id) + if CompletesByItself(p, e, id) then 1 else 0
  {
    if e.saga in p.sagas {
      StepStopRow(p.tables, p.sagas[e.saga], e.answer);
    }
  }

  lemma ReportStopRow(p: Plant, e: Event)
    requires e.Report?
    ensures var s, s' := p.tables.store, Apply(p, e).tables.store;
            || (s'.stops == s.stops && forall id :: StatusOf(Apply(p, e), id) == StatusOf(p, id))
            || (&& s'.stops == s.stops + [e.id]
                && StatusOf(p, e.id) == Some(InProgress)
                && StatusOf(Apply(p, e), e.id) == Some(Completed)
                && (forall id | id != e.id :: StatusOf(Apply(p, e), id) == StatusOf(p, id)))
  {
  }

  lemma StepStopRow(t: Tables, g: Saga, a: Answer)
    ensures var t' := Step(t, g, a).0;
            || (&& t'.store.stops == t.store.stops
                && (t'.store == t.store || t'.store == AfterUndo(t.store, g.order)))
            || (InProgressOrder(t.store, g.order) && t'.store == AfterT1(t.store, g.order))
  {
  }

  /** How the status of one order can move in one event, in any run. */
  lemma StatusLaw(p: Plant, e: Event, id: int)
    requires forall known | known in p.tables.store.orders :: known < p.tables.store.nextId
    ensures var before, after := StatusOf(p, id), StatusOf(Apply(p, e), id);
            && (before.Some? ==> after.Some?)
            && (before.None? && after.Some? ==> after == Some(PendingSchedule))
            && (before.Some? && IsFinished(before.value) ==> IsFinished(after.value) || after == Some(InProgress))
  {
    if id in p.tables.store.orders {
      StepMovesAlongAnEdge(p, e, id);
      EdgesOf(p.tables.store.orders[id].status, Apply(p, e).tables.store.orders[id].status);
    }
  }

  /** Only the compensation of a saga reopens an order. */
  lemma ReopeningIsCompensation(p: Plant, e: Event, id: int)
    requires forall known | known in p.tables.store.orders :: known < p.tables.store.nextId
    ensures Reopens(p, e, id) ==> IsUndo(p, e, id)
  {
    if Reopens(p, e, id) {
      StepMovesAlongAnEdge(p, e, id);
      EdgesOf(p.tables.store.orders[id].status, InProgress);
    }
  }

  ghost predicate Covered(status: Option<Status>, completions: nat, reopenings: nat) {
    && completions <= reopenings + 1
    && ((status.Some? && IsFinished(status.value)) || completions <= reopenings)
  }

  lemma {:induction false} CompletionsAreCovered(events: seq<Event>, n: nat, id: int)
    requires n <= |events|
    ensures Covered(StatusOf(After(events, n), id), Completions(events, n, id), Reopenings(events, n, id))
  {
    if n > 0 {
      CompletionsAreCovered(events, n - 1, id);
      IdsAreBelowTheSequence(events, n - 1);
      StatusLaw(After(events, n - 1), events[n - 1], id);
    }
  }

  lemma {:induction false} StopRowsAreCompletions(events: seq<Event>, n: nat, id: int)
    requires n <= |events|
    ensures StopRows(After(events, n), id) == Completions(events, n, id)
  {
    if n > 0 {
      StopRowsAreCompletions(events, n - 1, id);
      IdsAreBelowTheSequence(events, n - 1);
      StopRowMeansCompletion(After(events, n - 1), events[n - 1], id);
    }
  }

  /** In every run, trusted or not, the stop rows of an order are its automatic completions, and
      there is at most one more of them than the order was reopened. */
  lemma StopRowsMatchCompletions(events: seq<Event>, n: nat, id: int)
    requires n <= |events|
    ensures StopRows(After(events, n), id) == Completions(events, n, id) <= Reopenings(events, n, id) + 1
  {
    StopRowsAreCompletions(events, n, id);
    CompletionsAreCovered(events, n, id);
  }

  // ---- Where the bounds and the trust bite ----

  const GOOD := Answer(true, false, true, Script(true, 1, [ExternalCalls.Status(200)]))
  const LOST := GOOD.(commitLost := true)

  ghost predicate Reaches(events: seq<Event>, p: Plant) { After(events, |events|) == p }

  lemma {:induction false} AfterPrefix(events: seq<Event>, e: Event, n: nat)
    requires n <= |events|
    ensures After(events + [e], n) == After(events, n)
  {
    if n > 0 {
      AfterPrefix(events, e, n - 1);
      assert (events + [e])[n - 1] == events[n - 1];
    }
  }

  lemma Then(events: seq<Event>, p: Plant, e: Event)
    requires Reaches(events, p)
    ensures Reaches(events + [e], Apply(p, e))
  {
    AfterPrefix(events, e, |events|);
    assert (events + [e])[|events|] == e;
  }

  /** An order with two operations, created, scheduled, released and started. */
  function Opened(planQty: int): WorkOrder { NewOrder(planQty, [1, 2]).(status := InProgress) }

  function OnlyOrder(o: WorkOrder): Plant { Plant(Tables(T.Store(map[1 := o], 2, []), EMPTY_LEDGER), map[]) }

  lemma CreateOnEmpty(planQty: int)
    requires planQty > 0
    ensures Apply(EMPTY_PLANT, Create(1, planQty, T.Route([1, 2]), true)) == OnlyOrder(NewOrder(planQty, [1, 2]))
  {
  }

  lemma TransitOnly(o: WorkOrder, name: string, to: Status)
    requires ActionOf(name).Some? && Next(o.status, ActionOf(name).value) == Some(to)
    ensures Apply(OnlyOrder(o), Transit(1, name, true)) == OnlyOrder(o.(status := to))
  {
    assert map[1 := o][1 := o.(status := to)] == map[1 := o.(status := to)];
  }

  lemma OpenedIsReached(planQty: int) returns (events: seq<Event>)
    requires planQty > 0
    ensures AllTrusted(events) && Reaches(events, OnlyOrder(Opened(planQty)))
  {
    var o := NewOrder(planQty, [1, 2]);
    CreateOnEmpty(planQty);
    TransitOnly(o, "schedule", Scheduled);
    TransitOnly(o.(status := Scheduled), "release", Released);
    TransitOnly(o.(status := Released), "start", InProgress);
    Then([], EMPTY_PLANT, Create(1, planQty, T.Route([1, 2]), true));
    events := [] + [Create(1, planQty, T.Route([1, 2]), true)];
    Then(events, OnlyOrder(o), Transit(1, "schedule", true));
    events := events + [Transit(1, "schedule", true)];
    Then(events, OnlyOrder(o.(status := Scheduled)), Transit(1, "release", true));
    events := events + [Transit(1, "release", true)];
    Then(events, OnlyOrder(o.(status := Released)), Transit(1, "start", true));
    events := events + [Transit(1, "start", true)];
  }

  lemma ReportOnly(o: WorkOrder, line: ReportLine)
    requires line.Valid() && Reportable(o, line)
    ensures Apply(OnlyOrder(o), Report(1, line, None, true)).tables.store.orders == map[1 := Reported(o, line)]
    ensures Reported(o, line).completed < o.planQty ==>
              Apply(OnlyOrder(o), Report(1, line, None, true)) == OnlyOrder(Reported(o, line))
  {
    assert map[1 := o][1 := Reported(o, line)] == map[1 := Reported(o, line)];
  }

  /** The bound on an order's quantity is tight: two reports bring it to one below twice its plan. */
  lemma QuantityBoundIsTight(planQty: int) returns (events: seq<Event>, p: Plant)
    requires planQty >= 2
    ensures AllTrusted(events) && Reaches(events, p)
    ensures 1 in p.tables.store.orders
    ensures p.tables.store.orders[1].planQty == planQty
    ensures p.tables.store.orders[1].completed == 2 * planQty - 1
  {
    var o := Opened(planQty);
    var first, second := ReportLine(1, planQty - 1, 0, 0), ReportLine(2, planQty, 0, 0);
    events := OpenedIsReached(planQty);
    assert IndexOf(o.ops, 1) == 0;
    ReportOnly(o, first);
    Then(events, OnlyOrder(o), Report(1, first, None, true));
    events := events + [Report(1, first, None, true)];
    var o1 := Reported(o, first);
    assert o1.ops[0].stepSeq == 1 && o1.ops[1] == o.ops[1];
    assert IndexOf(o1.ops, 2) == 1;
    ReportOnly(o1, second);
    Then(events, OnlyOrder(o1), Report(1, second, None, true));
    events := events + [Report(1, second, None, true)];
    p := Apply(OnlyOrder(o1), Report(1, second, None, true));
  }

  /** update does not look at the plan it writes: two events take the empty plant to an unsound order, for
      every plan that is not positive. */
  lemma UnsoundPlanIsReached(planQty: int, replaced: int) returns (events: seq<Event>, p: Plant)
    requires planQty > 0 && replaced <= 0
    ensures events == [Create(1, planQty, T.Route([1, 2]), true), Update(1, Some(replaced), false, true)]
    ensures Reaches(events, p) && 1 in p.tables.store.orders && p.tables.store.orders[1].planQty == replaced
    ensures !T.StoreOk(p.tables.store)
  {
    var o := NewOrder(planQty, [1, 2]);
    var create, update := Create(1, planQty, T.Route([1, 2]), true), Update(1, Some(replaced), false, true);
    CreateOnEmpty(planQty);
    Then([], EMPTY_PLANT, create);
    Then([] + [create], OnlyOrder(o), update);
    events, p := [create, update], Apply(OnlyOrder(o), update);
    assert [] + [create] + [update] == events;
    assert !OrderOk(p.tables.store.orders[1]);
  }

  /** T1 must not lose its commit: exactly then does its step keep the invariant of the plant. */
  lemma T1NeedsItsCommit(p: Plant, saga: nat, a: Answer)
    requires PlantOk(p) && saga in p.sagas && p.sagas[saga].stage == RunT1 && a.dbOk
    requires InProgressOrder(p.tables.store, p.sagas[saga].order)
    ensures PlantOk(Apply(p, SagaStep(saga, a))) <==> !a.commitLost
  {
    if a.commitLost {
      var p' := Apply(p, SagaStep(saga, a));
      assert Holding(p'.sagas[saga]) && !HoldingOk(p'.tables, p'.sagas[saga]);
    } else {
      ApplyKeepsPlantOk(p, SagaStep(saga, a));
    }
  }
}
