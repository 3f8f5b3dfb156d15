/** The shared accounts of an order against the sagas that made them, over whole runs. */
module SagaAccounts {
  import opened Counting
  import opened CompletionSaga
  import opened PlantRuns
  import opened PlantAccounts

  // ---- The ledger is the sum of the tallies ----

  function ErpOf(t: Tally): int { t.erp }
  function StockInsOf(t: Tally): int { t.stockIns }
  function InventoryOf(t: Tally): int { t.inventory }
  function FailureLogsOf(t: Tally): int { t.failureLogs }

  /** What saga number k contributes to an order. */
  function Contribution(sagas: map<nat, Saga>, id: int, k: nat, f: Tally -> int): int {
    if k in sagas && sagas[k].order == id then f(sagas[k].tally) else 0
  }

  /** Sum over the sagas of an order whose number is below n. */
  function SumOf(sagas: map<nat, Saga>, id: int, n: nat, f: Tally -> int): int {
    if n == 0 then 0 else SumOf(sagas, id, n - 1, f) + Contribution(sagas, id, n - 1, f)
  }

  lemma {:induction false} SumOfUpdate(sagas: map<nat, Saga>, id: int, n: nat, k: nat, g: Saga, f: Tally -> int)
    ensures SumOf(sagas[k := g], id, n, f) ==
            SumOf(sagas, id, n, f) +
            if k < n then (if g.order == id then f(g.tally) else 0) - Contribution(sagas, id, k, f) else 0
  {
    if n > 0 {
      SumOfUpdate(sagas, id, n - 1, k, g, f);
    }
  }

  lemma {:induction false} SumOfNothing(id: int, n: nat, f: Tally -> int)
    ensures SumOf(map[], id, n, f) == 0
  {
    if n > 0 {
      SumOfNothing(id, n - 1, f);
    }
  }

  /** The numbers of all sagas are below n. */
  ghost predicate Below(sagas: map<nat, Saga>, n: nat) { forall a | a in sagas :: a < n }

  ghost predicate AccountsMatch(p: Plant, id: int, n: nat) {
    var l := p.tables.ledger;
    && ErpNet(l, id) == SumOf(p.sagas, id, n, ErpOf)
    && Count(l.stockIns, id) == SumOf(p.sagas, id, n, StockInsOf)
    && Count(l.inventory, id) == SumOf(p.sagas, id, n, InventoryOf)
    && Count(l.failureLogs, id) == SumOf(p.sagas, id, n, FailureLogsOf)
  }

  /** Changing saga k from one tally to another, with the accounts following, keeps the match. */
  lemma MatchFollows(p: Plant, t': Tables, k: nat, g': Saga, id: int, n: nat)
    requires AccountsMatch(p, id, n) && k < n
    requires k in p.sagas ==> p.sagas[k].order == g'.order
    requires Gained(p.tables.ledger, t'.ledger, id,
                    if k in p.sagas && id == g'.order then p.sagas[k].tally else UNTOUCHED,
                    if id == g'.order then g'.tally else UNTOUCHED)
    ensures AccountsMatch(Plant(t', p.sagas[k := g']), id, n)
  {
    SumOfUpdate(p.sagas, id, n, k, g', ErpOf);
    SumOfUpdate(p.sagas, id, n, k, g', StockInsOf);
    SumOfUpdate(p.sagas, id, n, k, g', InventoryOf);
    SumOfUpdate(p.sagas, id, n, k, g', FailureLogsOf);
  }

  lemma StepKeepsAccounts(p: Plant, e: Event, id: int, n: nat)
    requires AccountsMatch(p, id, n) && Below(Apply(p, e).sagas, n)
    ensures AccountsMatch(Apply(p, e), id, n)
  {
    match e
    case SagaStart(saga, order) =>
      if saga !in p.sagas && InProgressOrder(p.tables.store, order) {
        assert saga in Apply(p, e).sagas;
        MatchFollows(p, p.tables, saga, StartSaga(p.tables.store, order), id, n);
      }
    case SagaStep(saga, answer) =>
      if saga in p.sagas {
        assert saga in Apply(p, e).sagas;
        var (t', g') := Step(p.tables, p.sagas[saga], answer);
        StepKeepsOrder(p.tables, p.sagas[saga], answer);
        TallyIsTheChange(p.tables, p.sagas[saga], answer, id);
        MatchFollows(p, t', saga, g', id, n);
      }
    case SagaCrash(saga) =>
      if saga in p.sagas && !p.sagas[saga].stage.Done? {
        assert saga in Apply(p, e).sagas;
        MatchFollows(p, p.tables, saga, Fail(p.sagas[saga], Broken), id, n);
      }
    case _ =>
  }

  lemma StepKeepsOrder(t: Tables, g: Saga, a: Answer)
    ensures var g' := Step(t, g, a).1; g'.order == g.order && g'.qty == g.qty
  {
  }

  lemma SagasStay(p: Plant, e: Event)
    ensures p.sagas.Keys <= Apply(p, e).sagas.Keys
  {
  }

  /** In every run, trusted or not, the ERP net, stock-ins, inventory rows and failure logs of an order
      are the sums over the tallies of its sagas: nothing is booked twice, nothing is lost. */
  lemma {:induction false} AccountsAreTheSumOfTallies(events: seq<Event>, n: nat, id: int, bound: nat)
    requires n <= |events| && Below(After(events, n).sagas, bound)
    ensures AccountsMatch(After(events, n), id, bound)
  {
    if n == 0 {
      SumOfNothing(id, bound, ErpOf);
      SumOfNothing(id, bound, StockInsOf);
      SumOfNothing(id, bound, InventoryOf);
      SumOfNothing(id, bound, FailureLogsOf);
    } else {
      SagasStay(After(events, n - 1), events[n - 1]);
      AccountsAreTheSumOfTallies(events, n - 1, id, bound);
      StepKeepsAccounts(After(events, n - 1), events[n - 1], id, bound);
    }
  }

  // ---- Reopenings are compensations carried out ----

  /** Sagas of the order whose compensation of T1 has been carried out. */
  ghost function CompensatedSagas(p: Plant, id: int): set<nat> {
    set a | a in p.sagas && p.sagas[a].order == id && p.sagas[a].undone
  }

  /** Compensation is carried out once: before UndoT1 it has not been, afterwards it stays so. */
  ghost predicate UndoneOk(g: Saga) {
    g.undone ==> g.stage.LogFailure? || (g.stage.Done? && (g.stage.ending.Failed? || g.stage.ending.Broken?))
  }

  lemma StepKeepsUndoneOk(t: Tables, g: Saga, a: Answer)
    requires UndoneOk(g)
    ensures UndoneOk(Step(t, g, a).1)
  {
  }

  lemma {:induction false} UndoneOnlyPastUndo(events: seq<Event>, n: nat, a: nat)
    requires n <= |events| && a in After(events, n).sagas
    ensures UndoneOk(After(events, n).sagas[a])
  {
    if n > 0 && a in After(events, n - 1).sagas {
      var p, e := After(events, n - 1), events[n - 1];
      UndoneOnlyPastUndo(events, n - 1, a);
      if e.SagaStep? && e.saga == a {
        StepKeepsUndoneOk(p.tables, p.sagas[a], e.answer);
      }
    }
  }

  lemma CompensatedGrows(p: Plant, e: Event, id: int)
    ensures CompensatedSagas(p, id) <= CompensatedSagas(Apply(p, e), id)
  {
    SagasStay(p, e);
    forall a | a in CompensatedSagas(p, id) ensures a in CompensatedSagas(Apply(p, e), id) {
      if e.SagaStep? && e.saga == a {
        StepKeepsOrder(p.tables, p.sagas[a], e.answer);
      }
    }
  }

  lemma ReopeningCompensates(p: Plant, e: Event, id: int)
    requires Reopens(p, e, id) && (forall a | a in p.sagas :: UndoneOk(p.sagas[a]))
    requires forall known | known in p.tables.store.orders :: known < p.tables.store.nextId
    ensures e.SagaStep? && e.saga in CompensatedSagas(Apply(p, e), id) && e.saga !in CompensatedSagas(p, id)
  {
    ReopeningIsCompensation(p, e, id);
  }

  lemma SubsetWithOneMore(a: set<nat>, b: set<nat>, x: nat)
    requires a <= b && x in b && x !in a
    ensures |a| + 1 <= |b|
  {
    SubsetIsNoLarger(a + {x}, b);
  }

  /** In every run an order was reopened at most once for each of its compensated sagas. */
  lemma {:induction false} ReopeningsAreCompensations(events: seq<Event>, n: nat, id: int)
    requires n <= |events|
    ensures Reopenings(events, n, id) <= |CompensatedSagas(After(events, n), id)|
  {
    if n > 0 {
      ReopeningsAreCompensations(events, n - 1, id);
      var p, e := After(events, n - 1), events[n - 1];
      CompensatedGrows(p, e, id);
      SubsetIsNoLarger(CompensatedSagas(p, id), CompensatedSagas(Apply(p, e), id));
      if Reopens(p, e, id) {
        forall a | a in p.sagas ensures UndoneOk(p.sagas[a]) { UndoneOnlyPastUndo(events, n - 1, a); }
        IdsAreBelowTheSequence(events, n - 1);
        ReopeningCompensates(p, e, id);
        SubsetWithOneMore(CompensatedSagas(p, id), CompensatedSagas(Apply(p, e), id), e.saga);
      }
    }
  }

  /** Hence the stop rows of an order: one for each automatic completion, and at most one more than it
      has compensated sagas. */
  lemma StopRowsAreBounded(events: seq<Event>, n: nat, id: int)
    requires n <= |events|
    ensures StopRows(After(events, n), id) == Completions(events, n, id)
    ensures StopRows(After(events, n), id) <= |CompensatedSagas(After(events, n), id)| + 1
  {
    StopRowsMatchCompletions(events, n, id);
    ReopeningsAreCompensations(events, n, id);
  }
}
