/** The work-order transactions, as their committed effect on the tables. */
module WorkOrderTransactions {
  import opened Results
  import opened WorkOrderStateMachine
  import opened WorkOrders

  /** The work-order table (each row with its operations), the id sequence, and the
      stop_collection rows of the outbox, named by the order they stop. */
  datatype Store = Store(orders: map<int, WorkOrder>, nextId: int, stops: seq<int>)

  datatype Route = ProductMissing | NoRoute | Route(steps: seq<int>)

  /** What the quality-gate query returns for an operation that has a process step. */
  datatype Gate = Gate(qualityCheck: bool, gateEnabled: bool, inspected: bool)

  predicate Refuses(gate: Option<Gate>) {
    gate.Some? && gate.value.qualityCheck && gate.value.gateEnabled && !gate.value.inspected
  }

  datatype Receipt = Receipt(reported: int, finished: bool, status: Status)

  function SetOrder(s: Store, id: int, o: WorkOrder): Store { s.(orders := s.orders[id := o]) }

  function Create(s: Store, productId: int, planQty: int, route: Route, committed: bool): (Store, Result<int>) {
    if productId <= 0 || planQty <= 0 then (s, Err(BadRequest))
    else if route.ProductMissing? then (s, Err(NotFound))
    else if route.NoRoute? || route.steps == [] then (s, Err(BadRequest))
    else
      // The sequence is not transactional: a refused insert still consumes its number.
      var s' := s.(nextId := s.nextId + 1);
      if !DistinctSteps(route.steps) || !committed then (s', Err(Internal))
      else (SetOrder(s', s.nextId, NewOrder(planQty, route.steps)), Ok(s.nextId))
  }

  function Update(s: Store, id: int, planQty: Option<int>, otherFields: bool, committed: bool)
    : (Store, Result<int>)
  {
    if id !in s.orders then (s, Err(NotFound))
    else
      var o := s.orders[id];
      if o.status != PendingSchedule && o.status != Scheduled then (s, Err(Conflict))
      else if planQty.None? && !otherFields then (s, Err(BadRequest))
      else if !committed then (s, Err(Internal))
      else if planQty.None? then (s, Ok(id))
      else (SetOrder(s, id, WithPlan(o, planQty.value)), Ok(id))
  }

  function Transit(s: Store, id: int, name: string, committed: bool): (Store, Result<Status>) {
    var action := ActionOf(name);
    if action.None? then (s, Err(BadRequest))
    else if id !in s.orders then (s, Err(NotFound))
    else
      var to := Next(s.orders[id].status, action.value);
      if to.None? then (s, Err(Conflict))
      else if !committed then (s, Err(Internal))
      else (SetOrder(s, id, s.orders[id].(status := to.value)), Ok(to.value))
  }

  function Report(s: Store, id: int, line: ReportLine, gate: Option<Gate>, committed: bool)
    : (Store, Result<Receipt>)
  {
    if !line.Valid() then (s, Err(BadRequest))
    else if Refuses(gate) then (s, Err(Conflict))
    else if id !in s.orders then (s, Err(NotFound))
    else
      var o := s.orders[id];
      if o.status != InProgress then (s, Err(Conflict))
      else if IndexOf(o.ops, line.stepSeq) == |o.ops| then (s, Err(NotFound))
      else if !OperationHit(o, line) then (s, Err(Conflict))
      else if !committed then (s, Err(Internal))
      else
        var o' := Reported(o, line);
        var finished := o'.completed >= o'.planQty;
        (SetOrder(s, id, o').(stops := if finished then s.stops + [id] else s.stops),
         Ok(Receipt(line.Delta(), finished, if finished then Completed else InProgress)))
  }

  // ---- What the transactions promise ----

  ghost predicate StoreOk(s: Store) {
    && (forall id | id in s.orders :: OrderOk(s.orders[id]))
    && (forall id | id in s.orders :: id < s.nextId)
  }

  /** Everything but one order and the stop rows is as before. */
  ghost predicate OnlyChanges(s: Store, s': Store, id: int) {
    && s'.orders.Keys == s.orders.Keys + {id}
    && (forall other | other in s.orders && other != id :: s'.orders[other] == s.orders[other])
  }

  lemma CreateKeepsStoreOk(s: Store, productId: int, planQty: int, route: Route, committed: bool)
    requires StoreOk(s)
    ensures StoreOk(Create(s, productId, planQty, route, committed).0)
  {
    if route.Route? {
      NewOrderOk(planQty, route.steps);
    }
  }

  /** update lets any plan through: it keeps the store sound exactly when the plan it writes,
      if it writes one, is positive. */
  lemma UpdateKeepsStoreOk(s: Store, id: int, planQty: Option<int>, otherFields: bool, committed: bool)
    requires StoreOk(s)
    ensures StoreOk(Update(s, id, planQty, otherFields, committed).0) <==>
            !Update(s, id, planQty, otherFields, committed).1.Ok? || planQty.None? || planQty.value > 0
  {
    var s' := Update(s, id, planQty, otherFields, committed).0;
    if id in s.orders && planQty.Some? && Update(s, id, planQty, otherFields, committed).1.Ok? {
      WithPlanKeepsOrderOk(s.orders[id], planQty.value);
      assert s'.orders[id] == WithPlan(s.orders[id], planQty.value);
    }
  }

  lemma TransitKeepsStoreOk(s: Store, id: int, name: string, committed: bool)
    requires StoreOk(s)
    ensures StoreOk(Transit(s, id, name, committed).0)
  {
    var action := ActionOf(name);
    if action.Some? && id in s.orders {
      var to := Next(s.orders[id].status, action.value);
      if to.Some? {
        assert Edge(s.orders[id].status, to.value);
        EdgeKeepsOrderOk(s.orders[id], to.value);
      }
    }
  }

  lemma ReportKeepsStoreOk(s: Store, id: int, line: ReportLine, gate: Option<Gate>, committed: bool)
    requires StoreOk(s)
    ensures StoreOk(Report(s, id, line, gate, committed).0)
  {
    if line.Valid() && id in s.orders && Reportable(s.orders[id], line) {
      ReportKeepsOrderOk(s.orders[id], line);
    }
  }

  /** create in terms of its request: when it is accepted, what it adds, and which error it answers. */
  lemma CreateFollowsTheRequest(s: Store, productId: int, planQty: int, route: Route, committed: bool)
    requires forall known | known in s.orders :: known < s.nextId
    ensures var (s', r) := Create(s, productId, planQty, route, committed);
            var positive := productId > 0 && planQty > 0;
            var routed := route.Route? && |route.steps| > 0;
            && (r.Ok? <==>
                && positive && routed && committed
                && forall i, j | 0 <= i < j < |route.steps| :: route.steps[i] != route.steps[j])
            && (!positive ==> r == Err(BadRequest))
            && (positive && route.ProductMissing? ==> r == Err(NotFound))
            && (positive && !route.ProductMissing? && !routed ==> r == Err(BadRequest))
            && (positive && routed && r.Err? ==> r == Err(Internal))
            && s'.stops == s.stops
            && (r.Err? ==> s'.orders == s.orders)
            && (r.Ok? ==>
                && r.value == s.nextId < s'.nextId && OnlyChanges(s, s', s.nextId)
                && s'.orders[s.nextId].status == PendingSchedule && s'.orders[s.nextId].planQty == planQty
                && |s'.orders[s.nextId].ops| == |route.steps|
                && forall i | 0 <= i < |route.steps| ::
                     s'.orders[s.nextId].ops[i].stepSeq == route.steps[i]
                     && s'.orders[s.nextId].ops[i].status == Waiting)
  {
  }

  /** update in terms of its request: accepted before release only, it writes the new plan into the order
      and its waiting operations, and nothing else. */
  lemma UpdateFollowsTheRequest(s: Store, id: int, planQty: Option<int>, otherFields: bool, committed: bool)
    ensures var (s', r) := Update(s, id, planQty, otherFields, committed);
            var known := id in s.orders;
            var early := known && (s.orders[id].status == PendingSchedule || s.orders[id].status == Scheduled);
            var something := planQty.Some? || otherFields;
            && (r.Ok? <==> early && something && committed)
            && (!known ==> r == Err(NotFound))
            && (known && !early ==> r == Err(Conflict))
            && (early && !something ==> r == Err(BadRequest))
            && (early && something && !committed ==> r == Err(Internal))
            && (r.Err? ==> s' == s)
            && (r.Ok? ==>
                && r.value == id && OnlyChanges(s, s', id) && s'.stops == s.stops && s'.nextId == s.nextId
                && PlanWritten(s.orders[id], s'.orders[id], planQty))
  {
  }

  ghost predicate PlanWritten(o: WorkOrder, o': WorkOrder, planQty: Option<int>) {
    if planQty.None? then o' == o
    else
      && o' == o.(planQty := planQty.value, ops := o'.ops)
      && |o'.ops| == |o.ops|
      && forall i | 0 <= i < |o.ops| ::
           o'.ops[i] == if o.ops[i].status == Waiting then o.ops[i].(planQty := planQty.value) else o.ops[i]
  }

  /** The action of that name leads from one status to the other. */
  predicate Leads(name: string, from: Status, to: Status) {
    || (name == "schedule" && from == PendingSchedule && to == Scheduled)
    || (name == "release" && from == Scheduled && to == Released)
    || (name == "start" && (from == Released || from == Paused) && to == InProgress)
    || (name == "pause" && from == InProgress && to == Paused)
    || (name == "complete" && from == InProgress && to == Completed)
    || (name == "close" && from == Completed && to == Closed)
    || (name == "cancel" && (from == PendingSchedule || from == Scheduled || from == Released) && to == Cancelled)
  }

  /** transit in terms of its request, told by action names and statuses alone. */
  lemma TransitFollowsTheNames(s: Store, id: int, name: string, committed: bool, to: Status)
    ensures var (s', r) := Transit(s, id, name, committed);
            var action := name in ["schedule", "release", "start", "pause", "complete", "close", "cancel"];
            var known := id in s.orders;
            && (r == Ok(to) <==> known && committed && Leads(name, s.orders[id].status, to))
            && (!action ==> r == Err(BadRequest))
            && (action && !known ==> r == Err(NotFound))
            && (action && known && !committed && Leads(name, s.orders[id].status, to) ==> r == Err(Internal))
            && (action && known && (forall t :: !Leads(name, s.orders[id].status, t)) ==> r == Err(Conflict))
            && (r.Err? ==> s' == s)
            && (r == Ok(to) ==>
                && OnlyChanges(s, s', id) && s'.stops == s.stops && s'.nextId == s.nextId
                && s'.orders[id] == s.orders[id].(status := to))
  {
    NamesLead(name, if id in s.orders then s.orders[id].status else to);
  }

  lemma NamesLead(name: string, from: Status)
    ensures ActionOf(name).Some? <==>
            name in ["schedule", "release", "start", "pause", "complete", "close", "cancel"]
    ensures forall to :: Leads(name, from, to) <==>
              ActionOf(name).Some? && Next(from, ActionOf(name).value) == Some(to)
  {
  }

  /** The quality gate in the columns of its query: quality control applies and there is no inspection. */
  predicate Uninspected(gate: Option<Gate>) {
    match gate
    case None => false
    case Some(g) => !(g.inspected || !g.qualityCheck || !g.gateEnabled)
  }

  /** report is refused for the first of these reasons that applies, and then changes nothing. */
  lemma ReportRefusals(s: Store, id: int, line: ReportLine, gate: Option<Gate>, committed: bool)
    ensures var (s', r) := Report(s, id, line, gate, committed);
            var valid := line.stepSeq > 0 && line.good >= 0 && line.defect >= 0 && line.scrap >= 0
                         && line.good + line.defect + line.scrap > 0;
            var k := if id in s.orders then IndexOf(s.orders[id].ops, line.stepSeq) else 0;
            && (r.Err? ==> s' == s)
            && (!valid ==> r == Err(BadRequest))
            && (valid && Uninspected(gate) ==> r == Err(Conflict))
            && (valid && !Uninspected(gate) ==>
                  if id !in s.orders then r == Err(NotFound)
                  else if s.orders[id].status != InProgress then r == Err(Conflict)
                  else if k == |s.orders[id].ops| then r == Err(NotFound)
                  else if s.orders[id].ops[k].completed + line.good + line.defect + line.scrap
                          > s.orders[id].ops[k].planQty then r == Err(Conflict)
                  else if !committed then r == Err(Internal)
                  else r.Ok?)
  {
  }

  /** The single-statement report accepts exactly what the plain rules accept, books the amounts once
      on the named operation and once on the order, column by column, and completes the order with
      one stop row exactly when the rules say that the plan is reached. */
  lemma ReportFollowsTheRules(s: Store, id: int, line: ReportLine, gate: Option<Gate>, committed: bool)
    requires id in s.orders
    ensures var o := s.orders[id];
            var k := IndexOf(o.ops, line.stepSeq);
            var (s', r) := Report(s, id, line, gate, committed);
            && (r.Ok? <==>
                && ReportRules.ValidStep(line.stepSeq) && ReportRules.ValidQty(line.good, line.defect, line.scrap)
                && ReportRules.TotalDelta(line.good, line.defect, line.scrap) > 0
                && (gate.None? || !gate.value.qualityCheck || !gate.value.gateEnabled || gate.value.inspected)
                && o.status == InProgress && committed
                && k < |o.ops| && !ReportRules.OverReport(o.ops[k].completed, o.ops[k].planQty, line.Delta()))
            && (r.Err? ==> s' == s)
            && (r.Ok? ==>
                var finished := ReportRules.ReachesPlan(o.completed, o.planQty, line.Delta());
                var o' := s'.orders[id];
                && OnlyChanges(s, s', id) && s'.nextId == s.nextId
                && r.value == Receipt(line.Delta(), finished, if finished then Completed else InProgress)
                && OrderBooked(o, o', line) && OperationBooked(o.ops[k], o'.ops[k], line)
                && |o'.ops| == |o.ops|
                && (forall i | 0 <= i < |o.ops| && i != k :: o'.ops[i] == o.ops[i])
                && o'.status == r.value.status
                && s'.stops == if finished then s.stops + [id] else s.stops)
  {
    ReportRefusals(s, id, line, gate, committed);
  }

  /** All four columns of the order row grow by what was reported. */
  ghost predicate OrderBooked(o: WorkOrder, o': WorkOrder, line: ReportLine) {
    && o'.completed == o.completed + line.good + line.defect + line.scrap
    && o'.good == o.good + line.good
    && o'.defect == o.defect + line.defect
    && o'.scrap == o.scrap + line.scrap
    && o'.planQty == o.planQty
  }

  /** So do those of the operation row, which is finished exactly when its plan is reached. */
  ghost predicate OperationBooked(op: Operation, op': Operation, line: ReportLine) {
    && op'.completed == op.completed + line.good + line.defect + line.scrap
    && op'.good == op.good + line.good
    && op'.defect == op.defect + line.defect
    && op'.scrap == op.scrap + line.scrap
    && op'.stepSeq == op.stepSeq && op'.planQty == op.planQty
    && op'.status ==
       if ReportRules.ReachesPlan(op.completed, op.planQty, line.Delta()) then OpStatus.Finished else OpStatus.Running
  }
}

/** The work-order service: the transactions carried out statement by statement on the tables. */
module WorkOrderService {
  import opened Results
  import opened WorkOrderStateMachine
  import opened WorkOrders
  import T = WorkOrderTransactions

  class Service {
    var orders: map<int, WorkOrder>
    var nextId: int
    var stops: seq<int>

    ghost function Contents(): T.Store
      reads this
    {
      T.Store(orders, nextId, stops)
    }

    constructor ()
      ensures Contents() == T.Store(map[], 1, [])
    {
      orders, nextId, stops := map[], 1, [];
    }

    method Create(productId: int, planQty: int, route: T.Route, committed: bool) returns (r: Result<int>)
      modifies this
      ensures (Contents(), r) == T.Create(old(Contents()), productId, planQty, route, committed)
    {
      if productId <= 0 || planQty <= 0 {
        return Err(BadRequest);
      }
      if route.ProductMissing? {
        return Err(NotFound);
      }
      if route.NoRoute? {
        return Err(BadRequest);
      }
      var steps := route.steps;
      if steps == [] {
        return Err(BadRequest);
      }
      var id := nextId;
      nextId := nextId + 1;

      // Insert the order row, then one operation row per process step.
      var ops: seq<Operation> := [];
      for i := 0 to |steps|
        invariant |ops| == i
        invariant forall j | 0 <= j < i :: ops[j] == NewOrder(planQty, steps).ops[j]
        invariant forall j, k | 0 <= j < k < i :: steps[j] != steps[k]
      {
        if exists j | 0 <= j < |ops| :: ops[j].stepSeq == steps[i] {
          var j :| 0 <= j < |ops| && ops[j].stepSeq == steps[i];
          assert steps[j] == steps[i];
          return Err(Internal);  // unique key violated: the transaction rolls back
        }
        assert forall j | 0 <= j < i :: ops[j].stepSeq != steps[i] && ops[j].stepSeq == steps[j];
        ops := ops + [Operation(steps[i], planQty, 0, 0, 0, 0, Waiting)];
      }
      assert ops == NewOrder(planQty, steps).ops;
      if !committed {
        return Err(Internal);
      }
      orders := orders[id := WorkOrder(planQty, 0, 0, 0, 0, PendingSchedule, ops)];
      return Ok(id);
    }

    method Update(id: int, planQty: Option<int>, otherFields: bool, committed: bool) returns (r: Result<int>)
      modifies this
      ensures (Contents(), r) == T.Update(old(Contents()), id, planQty, otherFields, committed)
    {
      var before := orders;
      if id !in orders {
        return Err(NotFound);
      }
      if orders[id].status != PendingSchedule && orders[id].status != Scheduled {
        return Err(Conflict);
      }
      if planQty.None? && !otherFields {
        return Err(BadRequest);
      }
      if planQty.Some? {
        orders := orders[id := orders[id].(planQty := planQty.value)];
        // the plan of every operation that is still waiting follows
        orders := orders[id := orders[id].(ops := Replanned(orders[id].ops, planQty.value))];
      }
      if !committed {
        orders := before;
        return Err(Internal);
      }
      assert orders == if planQty.None? then before else before[id := WithPlan(before[id], planQty.value)];
      return Ok(id);
    }

    method Transit(id: int, name: string, committed: bool) returns (r: Result<Status>)
      modifies this
      ensures (Contents(), r) == T.Transit(old(Contents()), id, name, committed)
    {
      var action := ActionOf(name);
      if action.None? {
        return Err(BadRequest);
      }
      if id !in orders {
        return Err(NotFound);
      }
      var to := FindNext(orders[id].status, action.value);
      if to.None? {
        return Err(Conflict);
      }
      if committed {
        orders := orders[id := orders[id].(status := to.value)];
        return Ok(to.value);
      }
      return Err(Internal);
    }

    method Report(id: int, line: ReportLine, gate: Option<T.Gate>, committed: bool) returns (r: Result<T.Receipt>)
      modifies this
      ensures (Contents(), r) == T.Report(old(Contents()), id, line, gate, committed)
    {
      if !line.Valid() {
        return Err(BadRequest);
      }
      if T.Refuses(gate) {
        return Err(Conflict);
      }
      var before, stopsBefore := orders, stops;

      // Inner UPDATE: the operation row, if it exists and stays within its plan.
      var opHit := false;
      if id in orders {
        var ops := orders[id].ops;
        var k := IndexOf(ops, line.stepSeq);
        if k < |ops| && ops[k].completed + line.Delta() <= ops[k].planQty {
          orders := orders[id := orders[id].(ops := ops[k := Booked(ops[k], line)])];
          opHit := true;
        }
      }

      // Outer UPDATE: the order row, if it is in progress and the inner one hit.
      if !(id in orders && orders[id].status == InProgress && opHit) {
        orders := before;  // the diagnosis throws, and the transaction rolls back
        if id !in orders {
          return Err(NotFound);
        }
        if orders[id].status != InProgress {
          return Err(Conflict);
        }
        return Err(if IndexOf(orders[id].ops, line.stepSeq) == |orders[id].ops| then NotFound else Conflict);
      }
      var o := orders[id];
      orders := orders[id := o.(
        completed := o.completed + line.Delta(),
        good := o.good + line.good,
        defect := o.defect + line.defect,
        scrap := o.scrap + line.scrap,
        status := if o.completed + line.Delta() >= o.planQty then Completed else o.status)];
      var finished := orders[id].completed >= orders[id].planQty;
      if finished {
        stops := stops + [id];
      }
      if !committed {
        orders, stops := before, stopsBefore;
        return Err(Internal);
      }
      assert orders == before[id := Reported(before[id], line)];
      return Ok(T.Receipt(line.Delta(), finished, if finished then Completed else InProgress));
    }
  }
}
