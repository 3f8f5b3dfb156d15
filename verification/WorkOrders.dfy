/** The plain report rules that the report transaction must agree with. */
module ReportRules {
  predicate ValidStep(stepSeq: int) { stepSeq > 0 }

  predicate ValidQty(good: int, defect: int, scrap: int) { good >= 0 && defect >= 0 && scrap >= 0 }

  function TotalDelta(good: int, defect: int, scrap: int): int { good + defect + scrap }

  predicate OverReport(completed: int, plan: int, delta: int) { completed + delta > plan }

  predicate ReachesPlan(completed: int, plan: int, delta: int) { completed + delta >= plan }
}

/** Work orders with their operations: the rows, their invariant, and the effect of each
    transaction on one order. */
module WorkOrders {
  import opened WorkOrderStateMachine
  import opened ReportRules

  datatype OpStatus = Waiting | Running | Finished

  datatype Operation = Operation(
    stepSeq: int, planQty: int, completed: int, good: int, defect: int, scrap: int, status: OpStatus)

  datatype WorkOrder = WorkOrder(
    planQty: int, completed: int, good: int, defect: int, scrap: int, status: Status, ops: seq<Operation>)

  datatype ReportLine = ReportLine(stepSeq: int, good: int, defect: int, scrap: int) {
    function Delta(): int { TotalDelta(good, defect, scrap) }

    predicate Valid() { ValidStep(stepSeq) && ValidQty(good, defect, scrap) && Delta() > 0 }
  }

  // ---- Reading an order ----

  function Sum(ops: seq<Operation>, n: nat, f: Operation -> int): int
    requires n <= |ops|
  {
    if n == 0 then 0 else Sum(ops, n - 1, f) + f(ops[n - 1])
  }

  function CompletedOf(op: Operation): int { op.completed }
  function GoodOf(op: Operation): int { op.good }
  function DefectOf(op: Operation): int { op.defect }
  function ScrapOf(op: Operation): int { op.scrap }

  predicate Balanced(completed: int, good: int, defect: int, scrap: int) {
    0 <= good && 0 <= defect && 0 <= scrap && completed == good + defect + scrap
  }

  /** The order row carries the column sums of its operation rows. */
  ghost predicate TotalsMatch(o: WorkOrder) {
    && o.completed == Sum(o.ops, |o.ops|, CompletedOf)
    && o.good == Sum(o.ops, |o.ops|, GoodOf)
    && o.defect == Sum(o.ops, |o.ops|, DefectOf)
    && o.scrap == Sum(o.ops, |o.ops|, ScrapOf)
  }

  predicate DistinctSteps(steps: seq<int>) {
    forall i, j | 0 <= i < j < |steps| :: steps[i] != steps[j]
  }

  ghost predicate DistinctOperations(ops: seq<Operation>) {
    forall i, j | 0 <= i < j < |ops| :: ops[i].stepSeq != ops[j].stepSeq
  }

  /** Index of the operation with this sequence number, or |ops| when there is none. */
  function IndexOf(ops: seq<Operation>, stepSeq: int): (k: nat)
    ensures k <= |ops|
    ensures k < |ops| ==> ops[k].stepSeq == stepSeq
    ensures forall i | 0 <= i < k :: ops[i].stepSeq != stepSeq
  {
    if ops == [] then 0
    else if ops[0].stepSeq == stepSeq then 0
    else
      assert forall i | 1 <= i < |ops| :: ops[i] == ops[1..][i - 1];
      1 + IndexOf(ops[1..], stepSeq)
  }

  ghost predicate OperationOk(op: Operation, planQty: int) {
    && op.planQty == planQty
    && Balanced(op.completed, op.good, op.defect, op.scrap)
    && op.completed <= op.planQty
    && (op.status == Waiting <==> op.completed == 0)
    && (op.status == Finished <==> op.completed == op.planQty)
  }

  ghost predicate NotStarted(s: Status) {
    s == PendingSchedule || s == Scheduled || s == Released || s == Cancelled
  }

  /** What every transaction keeps true of an order. */
  ghost predicate OrderOk(o: WorkOrder) {
    && o.planQty > 0
    && o.ops != []
    && DistinctOperations(o.ops)
    && (forall i | 0 <= i < |o.ops| :: OperationOk(o.ops[i], o.planQty))
    && Balanced(o.completed, o.good, o.defect, o.scrap)
    && TotalsMatch(o)
    && o.completed < 2 * o.planQty
    && (NotStarted(o.status) ==> o.completed == 0)
    && (o.status == InProgress || o.status == Paused ==> o.completed < o.planQty)
  }

  // ---- The effect of each transaction on one order ----

  /** One waiting operation per process step, planned for the whole order. */
  function NewOrder(planQty: int, steps: seq<int>): WorkOrder {
    WorkOrder(planQty, 0, 0, 0, 0, PendingSchedule,
              seq(|steps|, i requires 0 <= i < |steps| => Operation(steps[i], planQty, 0, 0, 0, 0, Waiting)))
  }

  /** UPDATE ... SET plan_qty = $1 WHERE status = 0. */
  function Replanned(ops: seq<Operation>, planQty: int): seq<Operation> {
    seq(|ops|, i requires 0 <= i < |ops| =>
      if ops[i].status == Waiting then ops[i].(planQty := planQty) else ops[i])
  }

  /** Changing the plan also changes every operation that is still waiting. */
  function WithPlan(o: WorkOrder, planQty: int): WorkOrder {
    o.(planQty := planQty, ops := Replanned(o.ops, planQty))
  }

  /** The inner UPDATE of the report statement, on the row it selects. */
  function Booked(op: Operation, line: ReportLine): Operation {
    op.(completed := op.completed + line.Delta(),
        good := op.good + line.good,
        defect := op.defect + line.defect,
        scrap := op.scrap + line.scrap,
        status := if op.completed + line.Delta() >= op.planQty then Finished else Running)
  }

  /** The row selected by the inner UPDATE: it exists and the report does not exceed its plan. */
  predicate OperationHit(o: WorkOrder, line: ReportLine) {
    var k := IndexOf(o.ops, line.stepSeq);
    k < |o.ops| && o.ops[k].completed + line.Delta() <= o.ops[k].planQty
  }

  predicate Reportable(o: WorkOrder, line: ReportLine) {
    o.status == InProgress && OperationHit(o, line)
  }

  function BookedOperation(o: WorkOrder, line: ReportLine): WorkOrder
    requires OperationHit(o, line)
  {
    var k := IndexOf(o.ops, line.stepSeq);
    o.(ops := o.ops[k := Booked(o.ops[k], line)])
  }

  function Reported(o: WorkOrder, line: ReportLine): WorkOrder
    requires OperationHit(o, line)
  {
    BookedOperation(o, line).(
      completed := o.completed + line.Delta(),
      good := o.good + line.good,
      defect := o.defect + line.defect,
      scrap := o.scrap + line.scrap,
      status := if o.completed + line.Delta() >= o.planQty then Completed else o.status)
  }

  // ---- Lemmas ----

  lemma {:induction false} SumOfUpdate(ops: seq<Operation>, n: nat, k: nat, op: Operation, f: Operation -> int)
    requires n <= |ops| && k < |ops|
    ensures Sum(ops[k := op], n, f) == Sum(ops, n, f) + if k < n then f(op) - f(ops[k]) else 0
  {
    if n > 0 {
      SumOfUpdate(ops, n - 1, k, op, f);
    }
  }

  lemma {:induction false} SumDependsOnValues(a: seq<Operation>, b: seq<Operation>, n: nat, f: Operation -> int)
    requires n <= |a| == |b| && forall i | 0 <= i < n :: f(a[i]) == f(b[i])
    ensures Sum(a, n, f) == Sum(b, n, f)
  {
    if n > 0 {
      SumDependsOnValues(a, b, n - 1, f);
    }
  }

  lemma {:induction false} SumOfZeros(ops: seq<Operation>, n: nat, f: Operation -> int)
    requires n <= |ops| && forall i | 0 <= i < n :: f(ops[i]) == 0
    ensures Sum(ops, n, f) == 0
  {
    if n > 0 {
      SumOfZeros(ops, n - 1, f);
    }
  }

  lemma {:induction false} SumBoundsEachPart(ops: seq<Operation>, n: nat, f: Operation -> int)
    requires n <= |ops| && forall i | 0 <= i < n :: f(ops[i]) >= 0
    ensures 0 <= Sum(ops, n, f)
    ensures forall i | 0 <= i < n :: f(ops[i]) <= Sum(ops, n, f)
  {
    if n > 0 {
      SumBoundsEachPart(ops, n - 1, f);
    }
  }

  /** A new order has nothing completed, and for each process step one operation with its whole plan. */
  lemma NewOrderTotals(planQty: int, steps: seq<int>)
    ensures var o := NewOrder(planQty, steps);
            && TotalsMatch(o) && o.completed == 0 && Balanced(o.completed, o.good, o.defect, o.scrap)
            && |o.ops| == |steps|
            && (forall i | 0 <= i < |steps| ::
                  o.ops[i].stepSeq == steps[i] && o.ops[i].planQty == o.planQty == planQty && o.ops[i].completed == 0)
  {
    var ops := NewOrder(planQty, steps).ops;
    SumOfZeros(ops, |ops|, CompletedOf);
    SumOfZeros(ops, |ops|, GoodOf);
    SumOfZeros(ops, |ops|, DefectOf);
    SumOfZeros(ops, |ops|, ScrapOf);
  }

  /** A created order is sound exactly when the plan is positive, the route is not empty and its
      step numbers are distinct (the unique key of the operation table). */
  lemma NewOrderOk(planQty: int, steps: seq<int>)
    ensures OrderOk(NewOrder(planQty, steps)) <==> planQty > 0 && steps != [] && DistinctSteps(steps)
  {
    NewOrderTotals(planQty, steps);
    var ops := NewOrder(planQty, steps).ops;
    if DistinctOperations(ops) {
      forall i, j | 0 <= i < j < |steps| ensures steps[i] != steps[j] {
        assert ops[i].stepSeq != ops[j].stepSeq;
      }
    }
  }

  /** The plan of an unstarted order may be replaced by any positive one, and by no other:
      update does not check the new quantity, so this is what its caller must check. */
  lemma WithPlanKeepsOrderOk(o: WorkOrder, planQty: int)
    requires OrderOk(o) && (o.status == PendingSchedule || o.status == Scheduled)
    ensures OrderOk(WithPlan(o, planQty)) <==> planQty > 0
  {
    var ops, ops' := o.ops, WithPlan(o, planQty).ops;
    forall i | 0 <= i < |ops| ensures ops[i].completed >= 0 && ops[i].stepSeq == ops'[i].stepSeq {
      assert OperationOk(ops[i], o.planQty);
    }
    SumBoundsEachPart(ops, |ops|, CompletedOf);
    forall i | 0 <= i < |ops| ensures ops[i].status == Waiting && ops'[i] == ops[i].(planQty := planQty) {
      assert OperationOk(ops[i], o.planQty) && CompletedOf(ops[i]) <= 0;
    }
    SumDependsOnValues(ops, ops', |ops|, CompletedOf);
    SumDependsOnValues(ops, ops', |ops|, GoodOf);
    SumDependsOnValues(ops, ops', |ops|, DefectOf);
    SumDependsOnValues(ops, ops', |ops|, ScrapOf);
    if planQty > 0 {
      forall i | 0 <= i < |ops'| ensures OperationOk(ops'[i], planQty) {
        assert OperationOk(ops[i], o.planQty);
      }
    }
  }

  lemma ReportKeepsTotals(o: WorkOrder, line: ReportLine)
    requires TotalsMatch(o) && OperationHit(o, line)
    ensures TotalsMatch(Reported(o, line))
  {
    var k := IndexOf(o.ops, line.stepSeq);
    var op := Booked(o.ops[k], line);
    SumOfUpdate(o.ops, |o.ops|, k, op, CompletedOf);
    SumOfUpdate(o.ops, |o.ops|, k, op, GoodOf);
    SumOfUpdate(o.ops, |o.ops|, k, op, DefectOf);
    SumOfUpdate(o.ops, |o.ops|, k, op, ScrapOf);
  }

  /** A successful report keeps every conservation law of the order. */
  lemma ReportKeepsOrderOk(o: WorkOrder, line: ReportLine)
    requires OrderOk(o) && line.Valid() && Reportable(o, line)
    ensures OrderOk(Reported(o, line))
  {
    ReportKeepsTotals(o, line);
    var k := IndexOf(o.ops, line.stepSeq);
    var o' := Reported(o, line);
    forall i | 0 <= i < |o'.ops| ensures OperationOk(o'.ops[i], o.planQty) {
      assert OperationOk(o.ops[i], o.planQty);
    }
  }

  /** With a single operation the order total is that operation's, hence within plan. */
  lemma SingleOperationStaysWithinPlan(o: WorkOrder)
    requires OrderOk(o) && |o.ops| == 1
    ensures o.completed == o.ops[0].completed <= o.planQty
  {
    assert OperationOk(o.ops[0], o.planQty);
    assert Sum(o.ops, 1, CompletedOf) == Sum(o.ops, 0, CompletedOf) + CompletedOf(o.ops[0]);
  }

  lemma EdgeKeepsOrderOk(o: WorkOrder, to: Status)
    requires OrderOk(o) && Edge(o.status, to)
    ensures OrderOk(o.(status := to))
  {
    EdgesOf(o.status, to);
  }

  /** If unwinding a refused report committed its transaction instead of rolling it back, the
      inner UPDATE would survive without the outer one, and the totals would part. */
  lemma UnwindingMustRollBack(o: WorkOrder, line: ReportLine)
    requires OrderOk(o) && line.Valid() && OperationHit(o, line)
    ensures !OrderOk(BookedOperation(o, line))
  {
    var k := IndexOf(o.ops, line.stepSeq);
    SumOfUpdate(o.ops, |o.ops|, k, Booked(o.ops[k], line), CompletedOf);
  }
}
