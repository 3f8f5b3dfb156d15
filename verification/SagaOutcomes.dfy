/** When the completion saga is all-or-nothing, with the breakers in the loop: the ERP breaker that T2 has
    left behind decides whether the compensation of T2 is sent at all. */
module SagaOutcomes {
  import opened Breakers
  import opened ExternalCalls
  import opened BreakerCalls
  import opened CompletionSaga
  import opened IntegrationService

  /** The order is in progress and no statement of the database fails. */
  predicate Dependable(t: Tables, id: int, w: World) {
    && InProgressOrder(t.store, id) && w.t1Ok && !w.commitLost
    && w.undoOk && w.logOk && w.inventoryOk
  }

  /** The peer accepts the request if it gets it. */
  predicate WouldAccept(s: Script) { s.(allowed := true).Ok() }

  /** What the saga leaves for its order. */
  function Outcome(t: Tables, id: int, w: World, erp: Breaker, wms: Breaker, c: Clocks): Tally {
    Change(t, Net(t, id, Judged(w, erp, wms, c)).0, id)
  }

  /** For every state of the breakers and every answer of ERP and WMS, where ERP accepts a cancellation
      that it gets: the saga is all-or-nothing if and only if ERP is configured and either fails, or WMS is
      configured too and takes the order in, or the ERP breaker lets the cancellation through. */
  lemma OutcomeIsDecidedByTheBreaker(t: Tables, id: int, w: World, erp: Breaker, wms: Breaker, c: Clocks)
    requires Dependable(t, id, w) && WouldAccept(w.cancel)
    ensures var w' := Judged(w, erp, wms, c);
            AllOrNothing(Outcome(t, id, w, erp, wms, c)) <==>
              && w.erpConfigured
              && (w'.erp.Ok() ==>
                    w.wmsConfigured && (w'.wms.Ok() || Admits(AfterCall(erp, w.erp, c.erp), c.cancel.asked)))
  {
    var w' := Judged(w, erp, wms, c);
    ConfigurationDecides(t, id, w');
    assert w'.cancel.allowed ==> w'.cancel == w.cancel.(allowed := true);
  }

  function WithReplies(w: World, erpReplies: seq<Reply>, wmsReplies: seq<Reply>): World {
    w.(erp := w.erp.(replies := erpReplies), wms := w.wms.(replies := wmsReplies))
  }

  /** The saga is all-or-nothing with these replies. */
  ghost predicate SafeWith(t: Tables, id: int, w: World, erp: Breaker, wms: Breaker, c: Clocks,
                           erpReplies: seq<Reply>, wmsReplies: seq<Reply>)
  {
    AllOrNothing(Outcome(t, id, WithReplies(w, erpReplies, wmsReplies), erp, wms, c))
  }

  /** The cancellation is asked for before the window after any attempt of T2 has passed. */
  predicate WithinTheWindow(w: World, erp: Breaker, c: Clocks) {
    forall k | 0 <= k < MaxAttempts(w.erp.retryCount) :: c.cancel.asked - c.erp.At(k) < erp.window
  }

  lemma SafeRetriesKeepItSafe(t: Tables, id: int, w: World, erp: Breaker, wms: Breaker, c: Clocks)
    requires Dependable(t, id, w) && WouldAccept(w.cancel) && w.erpConfigured && w.wmsConfigured
    requires BelowThreshold(erp) && Admits(erp, c.erp.asked) && RetriesAreSafe(erp, w.erp.retryCount)
    ensures AllOrNothing(Outcome(t, id, w, erp, wms, c))
  {
    OutcomeIsDecidedByTheBreaker(t, id, w, erp, wms, c);
    if Admitted(w.erp, erp, c.erp).Ok() {
      SuccessfulCallLeavesOpenIff(erp, w.erp, c.erp);
    }
  }

  /** An ERP that accepts at the last attempt only, and a WMS that is down. */
  lemma UnsafeRetriesBreakIt(t: Tables, id: int, w: World, erp: Breaker, wms: Breaker, c: Clocks)
    requires Dependable(t, id, w) && WouldAccept(w.cancel) && w.erpConfigured && w.wmsConfigured
    requires BelowThreshold(erp) && Admits(erp, c.erp.asked) && !RetriesAreSafe(erp, w.erp.retryCount)
    requires WithinTheWindow(w, erp, c)
    ensures !SafeWith(t, id, w, erp, wms, c, AcceptingAfter(MaxAttempts(w.erp.retryCount) - 1, 200), [])
  {
    var replies := AcceptingAfter(MaxAttempts(w.erp.retryCount) - 1, 200);
    var w1 := WithReplies(w, replies, []);
    LateSuccess(erp, w.erp.retryCount, c.erp, 200);
    assert Admitted(w1.erp, erp, c.erp) == Admitted(Asking(w.erp.retryCount, replies), erp, c.erp);
    SuccessfulCallLeavesOpenIff(erp, w1.erp, c.erp);
    var after := AfterCall(erp, w1.erp, c.erp);
    var k :| 0 <= k < AttemptsOf(w1.erp) - 1 && after.openedAt == c.erp.At(k);
    assert !Admits(after, c.cancel.asked);
    OutcomeIsDecidedByTheBreaker(t, id, w1, erp, wms, c);
  }

  /** What can be checked before the saga starts: whatever ERP and WMS will answer, it is all-or-nothing if
      and only if the retries of T2 cannot open the ERP breaker. */
  lemma SafeForAllRepliesIff(t: Tables, id: int, w: World, erp: Breaker, wms: Breaker, c: Clocks)
    requires Dependable(t, id, w) && WouldAccept(w.cancel) && w.erpConfigured && w.wmsConfigured
    requires BelowThreshold(erp) && Admits(erp, c.erp.asked) && WithinTheWindow(w, erp, c)
    ensures (forall erpReplies, wmsReplies :: SafeWith(t, id, w, erp, wms, c, erpReplies, wmsReplies)) <==>
            RetriesAreSafe(erp, w.erp.retryCount)
  {
    if RetriesAreSafe(erp, w.erp.retryCount) {
      forall erpReplies, wmsReplies ensures SafeWith(t, id, w, erp, wms, c, erpReplies, wmsReplies) {
        SafeRetriesKeepItSafe(t, id, WithReplies(w, erpReplies, wmsReplies), erp, wms, c);
      }
    } else {
      UnsafeRetriesBreakIt(t, id, w, erp, wms, c);
    }
  }

  // ---- A saga whose cancellation is refused ----

  /** The ERP breaker as configured, after four failures in a row. */
  lemma FourFailures(now: int) returns (events: seq<Event>)
    ensures var b := After(New(FAIL_THRESHOLD, OPEN_SECONDS), events, |events|);
            && b.mode == Closed && b.failureCount == FAIL_THRESHOLD - 1
            && b.threshold == FAIL_THRESHOLD && b.window == OPEN_SECONDS
  {
    events := [Failure(now), Failure(now), Failure(now), Failure(now)];
    var b := New(FAIL_THRESHOLD, OPEN_SECONDS);
    assert After(b, events, 1) == Apply(After(b, events, 0), events[0]);
    assert After(b, events, 2) == Apply(After(b, events, 1), events[1]);
    assert After(b, events, 3) == Apply(After(b, events, 2), events[2]);
    assert After(b, events, 4) == Apply(After(b, events, 3), events[3]);
  }

  /** ERP answers the report with 500 and then with 200, WMS is down, ERP would accept the cancellation. */
  function LateErp(): World {
    World(true, false, true, Script(true, 2, [Status(500), Status(200)]), true, Script(true, 1, []),
          Script(true, 1, [Status(200)]), true, true, true)
  }

  /** With one failure missing to the threshold the first answer opens the ERP breaker, the second does not
      close it, and the cancellation is never sent: T1 is undone, and ERP keeps the report. */
  lemma RefusedCancellationLeavesTheReport(t: Tables, id: int, erp: Breaker, wms: Breaker, now: int)
    requires InProgressOrder(t.store, id)
    requires erp.mode == Closed && erp.failureCount == erp.threshold - 1 && erp.window > 0
    ensures var clock := Clock(now, []);
            var c := Clocks(clock, clock, clock);
            && Net(t, id, Judged(LateErp(), erp, wms, c)).1 == Failed(Wms)
            && WouldAccept(LateErp().cancel)
            && Outcome(t, id, LateErp(), erp, wms, c) == Tally(false, 1, 0, 0, 1)
            && !AllOrNothing(Outcome(t, id, LateErp(), erp, wms, c))
  {
    var w, clock := LateErp(), Clock(now, []);
    var c := Clocks(clock, clock, clock);
    var w' := Judged(w, erp, wms, c);
    assert !Accepted(ReplyTo(w.erp.replies, 0)) && Accepted(ReplyTo(w.erp.replies, 1));
    assert AttemptsOf(w.erp) == Attempts(w.erp.replies, 1, 2) == 2;
    assert w'.erp.Ok();
    SuccessfulCallLeavesOpenIff(erp, w.erp, clock);
    var after := AfterCall(erp, w.erp, clock);
    assert after.mode == Open && after.openedAt == now;
    assert !w'.cancel.allowed && !w'.cancel.Ok();
    assert !w'.wms.Ok();
  }
}
