/** What one call with its retries does to the breaker in front of it. */
module BreakerCalls {
  import opened Breakers
  import opened ExternalCalls

  /** What every reachable breaker satisfies. */
  predicate BelowThreshold(b: Breaker) { b.mode == Closed ==> b.failureCount < b.threshold }

  lemma ReachableIsBelowThreshold(threshold: int, window: int, events: seq<Event>, n: nat)
    requires threshold > 0 && n <= |events|
    ensures BelowThreshold(After(New(threshold, window), events, n))
  {
    ClosedCountsTheStreak(threshold, window, events, n);
    ConfigurationIsFixed(New(threshold, window), events, n);
  }

  /** The breaker after the request and n failed attempts. */
  function AfterFailures(b: Breaker, clock: Clock, n: nat): Breaker {
    var events := [Request(clock.asked)] + Outcomes(n, false, clock);
    After(b, events, |events|)
  }

  /** n failures in one call open the breaker. */
  predicate Opens(b: Breaker, n: nat) {
    if b.mode == Closed then b.failureCount + n >= b.threshold else n > 0
  }

  lemma NoFailures(b: Breaker, clock: Clock)
    ensures AfterFailures(b, clock, 0) == Apply(b, Request(clock.asked))
  {
    var events := [Request(clock.asked)];
    assert events + Outcomes(0, false, clock) == events;
    assert After(b, events, 1) == Apply(After(b, events, 0), events[0]);
  }

  lemma OneMoreFailure(b: Breaker, clock: Clock, n: nat)
    ensures AfterFailures(b, clock, n + 1) == Apply(AfterFailures(b, clock, n), Failure(clock.At(n)))
  {
    var events := [Request(clock.asked)] + Outcomes(n, false, clock);
    OutcomeAdded(n, false, clock);
    AfterOneMore(b, events, Failure(clock.At(n)));
    assert [Request(clock.asked)] + Outcomes(n + 1, false, clock) == events + [Failure(clock.At(n))];
  }

  /** Failing n times from an admitted request on. */
  lemma {:induction false} FailuresCount(b: Breaker, clock: Clock, n: nat)
    requires Admits(b, clock.asked) && BelowThreshold(b)
    ensures var f := AfterFailures(b, clock, n);
            && f.threshold == b.threshold && f.window == b.window
            && (b.mode == Closed ==> f.failureCount == b.failureCount + n)
            && f.mode == (if Opens(b, n) then Open else if b.mode == Closed then Closed else HalfOpen)
            && (Opens(b, n) ==> exists k | 0 <= k < n :: f.openedAt == clock.At(k))
  {
    if n == 0 {
      NoFailures(b, clock);
    } else {
      FailuresCount(b, clock, n - 1);
      OneMoreFailure(b, clock, n - 1);
      assert AfterFailures(b, clock, n).openedAt == clock.At(n - 1) ||
             AfterFailures(b, clock, n).openedAt == AfterFailures(b, clock, n - 1).openedAt;
    }
  }

  /** Attempts of an admitted call. */
  function AttemptsOf(s: Script): nat { Attempts(s.replies, 0, MaxAttempts(s.retryCount)) }

  lemma SuccessIsTheLastOutcome(b: Breaker, s: Script, clock: Clock)
    requires Admitted(s, b, clock).Ok()
    ensures AfterCall(b, s, clock) == Apply(AfterFailures(b, clock, AttemptsOf(s) - 1), Success)
  {
    var n := AttemptsOf(s) - 1;
    var events := [Request(clock.asked)] + Outcomes(n, false, clock);
    OutcomeAdded(n, true, clock);
    AfterOneMore(b, events, Success);
    assert [Request(clock.asked)] + Outcomes(n + 1, true, clock) == events + [Success];
  }

  /** A successful call leaves the breaker open exactly if its own failed attempts have opened it: a
      success does not close an open breaker, it only clears the count. */
  lemma SuccessfulCallLeavesOpenIff(b: Breaker, s: Script, clock: Clock)
    requires BelowThreshold(b) && Admitted(s, b, clock).Ok()
    ensures var after, failed := AfterCall(b, s, clock), AttemptsOf(s) - 1;
            && (after.mode == Open <==>
                if b.mode == Closed then b.failureCount + failed >= b.threshold else failed > 0)
            && (after.mode != Open ==> after.mode == Closed)
            && after.failureCount == 0 && after.window == b.window
            && (after.mode == Open ==> exists k | 0 <= k < failed :: after.openedAt == clock.At(k))
  {
    SuccessIsTheLastOutcome(b, s, clock);
    FailuresCount(b, clock, AttemptsOf(s) - 1);
  }

  /** A call that is admitted and fails has failed in every attempt of its budget. */
  lemma FailedCallLeavesOpenIff(b: Breaker, s: Script, clock: Clock)
    requires BelowThreshold(b) && Admits(b, clock.asked) && !Admitted(s, b, clock).Ok()
    ensures AfterCall(b, s, clock).mode == Open <==> Opens(b, MaxAttempts(s.retryCount))
    ensures AfterCall(b, s, clock).window == b.window
  {
    var max := MaxAttempts(s.retryCount);
    AttemptsStopAtFirstAccepted(s.replies, 0, max);
    FailuresCount(b, clock, max);
  }

  // ---- What can be checked before the call ----

  /** The call's own retries cannot open the breaker. */
  predicate RetriesAreSafe(b: Breaker, retryCount: int) {
    retryCount <= 1 || (b.mode == Closed && b.failureCount + retryCount - 1 < b.threshold)
  }

  function Asking(retryCount: int, replies: seq<Reply>): Script { Script(true, retryCount, replies) }

  /** With these replies the call does not succeed, or leaves the breaker not open. */
  ghost predicate SucceedsWithoutOpening(b: Breaker, retryCount: int, clock: Clock, replies: seq<Reply>) {
    var s := Asking(retryCount, replies);
    Admitted(s, b, clock).Ok() ==> AfterCall(b, s, clock).mode != Open
  }

  /** The peer rejects n attempts and accepts the next. */
  function AcceptingAfter(n: nat, code: int): seq<Reply> { seq(n, _ => Thrown) + [Status(code)] }

  lemma {:induction false} AttemptsUntilTheLast(replies: seq<Reply>, k: nat, max: nat)
    requires k < max && forall i | k <= i < max - 1 :: !Accepted(ReplyTo(replies, i))
    ensures Attempts(replies, k, max) == max
    decreases max - k
  {
    if k + 1 < max {
      assert !Accepted(ReplyTo(replies, k));
      AttemptsUntilTheLast(replies, k + 1, max);
    }
  }

  /** A success at the last attempt. */
  lemma LateSuccess(b: Breaker, retryCount: int, clock: Clock, code: int)
    requires 200 <= code < 300 && Admits(b, clock.asked)
    ensures var s := Asking(retryCount, AcceptingAfter(MaxAttempts(retryCount) - 1, code));
            Admitted(s, b, clock).Ok() && AttemptsOf(s) == MaxAttempts(retryCount)
  {
    var max := MaxAttempts(retryCount);
    AttemptsUntilTheLast(AcceptingAfter(max - 1, code), 0, max);
  }

  /** For all replies of the peer: a successful call cannot leave its breaker open if and only if it has
      one attempt, or the breaker is closed and has room for all failures but the last attempt. */
  lemma RetriesAreSafeIff(b: Breaker, retryCount: int, clock: Clock)
    requires BelowThreshold(b) && Admits(b, clock.asked)
    ensures (forall replies :: SucceedsWithoutOpening(b, retryCount, clock, replies)) <==> RetriesAreSafe(b, retryCount)
  {
    forall replies | RetriesAreSafe(b, retryCount)
      ensures SucceedsWithoutOpening(b, retryCount, clock, replies) {
      var s := Asking(retryCount, replies);
      if Admitted(s, b, clock).Ok() {
        SuccessfulCallLeavesOpenIff(b, s, clock);
      }
    }
    if !RetriesAreSafe(b, retryCount) {
      var s := Asking(retryCount, AcceptingAfter(MaxAttempts(retryCount) - 1, 200));
      LateSuccess(b, retryCount, clock, 200);
      SuccessfulCallLeavesOpenIff(b, s, clock);
      assert !SucceedsWithoutOpening(b, retryCount, clock, s.replies);
    }
  }
}
