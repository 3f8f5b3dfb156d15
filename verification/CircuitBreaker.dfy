/** The circuit breaker in front of ERP and WMS, and its behaviour over whole event traces. */
module Breakers {

  datatype Mode = Closed | Open | HalfOpen

  datatype Breaker = Breaker(mode: Mode, failureCount: int, openedAt: int, threshold: int, window: int)

  /** What callers do to a breaker; requests and failures read the steady clock. */
  datatype Event = Request(now: int) | Success | Failure(now: int)

  function New(threshold: int, window: int): Breaker {
    Breaker(Closed, 0, 0, threshold, window)
  }

  predicate Admits(b: Breaker, now: int) {
    b.mode != Open || now - b.openedAt >= b.window
  }

  function Apply(b: Breaker, e: Event): Breaker {
    match e
    case Request(now) => if b.mode == Open && Admits(b, now) then b.(mode := HalfOpen) else b
    case Success => b.(failureCount := 0, mode := if b.mode == HalfOpen then Closed else b.mode)
    case Failure(now) =>
      if b.mode == HalfOpen then b.(mode := Open, openedAt := now)
      else if b.failureCount + 1 >= b.threshold then
        b.(failureCount := b.failureCount + 1, mode := Open, openedAt := now)
      else b.(failureCount := b.failureCount + 1)
  }

  /** The breaker after the first n events. */
  function After(b: Breaker, events: seq<Event>, n: nat): Breaker
    requires n <= |events|
  {
    if n == 0 then b else Apply(After(b, events, n - 1), events[n - 1])
  }

  /** Failures since the last success among the first n events. */
  function Streak(events: seq<Event>, n: nat): nat
    requires n <= |events|
  {
    if n == 0 then 0
    else match events[n - 1]
      case Request(_) => Streak(events, n - 1)
      case Success => 0
      case Failure(_) => Streak(events, n - 1) + 1
  }

  ghost predicate Timed(e: Event) { e.Request? || e.Failure? }

  ghost predicate MonotoneClock(events: seq<Event>) {
    forall i, j | 0 <= i < j < |events| && Timed(events[i]) && Timed(events[j]) :: events[i].now <= events[j].now
  }

  lemma {:induction false} ConfigurationIsFixed(b: Breaker, events: seq<Event>, n: nat)
    requires n <= |events|
    ensures After(b, events, n).threshold == b.threshold && After(b, events, n).window == b.window
  {
    if n > 0 {
      ConfigurationIsFixed(b, events, n - 1);
    }
  }

  /** A closed breaker counts the failures since the last success, and that count is below the
      threshold: isolated failures are never accumulated. */
  lemma {:induction false} ClosedCountsTheStreak(threshold: int, window: int, events: seq<Event>, n: nat)
    requires threshold > 0 && n <= |events|
    ensures var b := After(New(threshold, window), events, n);
            b.mode == Closed ==> b.failureCount == Streak(events, n) < threshold
  {
    if n > 0 {
      ClosedCountsTheStreak(threshold, window, events, n - 1);
      ConfigurationIsFixed(New(threshold, window), events, n - 1);
    }
  }

  /** A closed breaker opens on exactly the event that makes the streak reach the threshold. */
  lemma OpensAtTheThreshold(threshold: int, window: int, events: seq<Event>, n: nat)
    requires threshold > 0 && n < |events|
    requires After(New(threshold, window), events, n).mode == Closed
    ensures After(New(threshold, window), events, n + 1).mode != Closed <==>
            events[n].Failure? && Streak(events, n + 1) == threshold
  {
    ClosedCountsTheStreak(threshold, window, events, n);
    ConfigurationIsFixed(New(threshold, window), events, n);
  }

  /** The failure at i opens the breaker, or re-opens it. A failure of a call admitted earlier that
      arrives while the breaker is open, after a late success reset the count, does neither. */
  ghost predicate OpensAt(b: Breaker, events: seq<Event>, i: nat)
    requires i < |events|
  {
    && events[i].Failure?
    && After(b, events, i + 1).mode == Open
    && After(b, events, i + 1).openedAt == events[i].now
  }

  /** While nothing has been admitted since the failure at i, the breaker stays open and its
      opening time only moves forward. */
  lemma {:induction false} OpenUntilAdmitted(b: Breaker, events: seq<Event>, i: nat, n: nat)
    requires MonotoneClock(events)
    requires i < n <= |events| && OpensAt(b, events, i)
    ensures var b' := After(b, events, n);
            || (b'.mode == Open && b'.openedAt >= events[i].now)
            || (exists k | i < k < n :: events[k].Request? && events[k].now >= events[i].now + b.window)
  {
    if n > i + 1 {
      OpenUntilAdmitted(b, events, i, n - 1);
      ConfigurationIsFixed(b, events, n - 1);
      var e := events[n - 1];
      if Timed(e) {
        assert e.now >= events[i].now;
      }
      var b' := After(b, events, n - 1);
      if b'.mode == Open && e.Request? && Admits(b', e.now) {
        assert events[n - 1].Request? && events[n - 1].now >= events[i].now + b.window;
      }
    }
  }

  /** After a failure that opens the breaker, no request is admitted before the window
      has passed, whatever the other callers do meanwhile. */
  lemma NothingAdmittedInsideTheWindow(b: Breaker, events: seq<Event>, i: nat, j: nat)
    requires MonotoneClock(events) && i < j < |events|
    requires OpensAt(b, events, i)
    requires events[j].Request? && Admits(After(b, events, j), events[j].now)
    ensures events[j].now - events[i].now >= b.window
  {
    OpenUntilAdmitted(b, events, i, j);
    ConfigurationIsFixed(b, events, j);
    assert events[i].now <= events[j].now;
    forall k | i < k < j && events[k].Request? ensures events[k].now <= events[j].now {
      assert Timed(events[k]) && Timed(events[j]);
    }
  }

  lemma {:induction false} SuccessesKeepOpen(b: Breaker, events: seq<Event>, i: nat, n: nat)
    requires i < n <= |events| && OpensAt(b, events, i) && forall k | i < k < n :: events[k].Success?
    ensures After(b, events, n).mode == Open && After(b, events, n).openedAt == events[i].now
  {
    if n > i + 1 {
      SuccessesKeepOpen(b, events, i, n - 1);
      assert events[n - 1].Success?;
    }
  }

  /** The next request after the failure that opened the breaker, with no failure in between, becomes the
      probe if and only if the window has passed; before that the breaker stays open. */
  lemma WindowDecides(b: Breaker, events: seq<Event>, i: nat, j: nat)
    requires i < j < |events| && OpensAt(b, events, i) && events[j].Request?
    requires forall k | i < k < j :: events[k].Success?
    ensures After(b, events, j + 1).mode == HalfOpen <==> events[j].now - events[i].now >= b.window
    ensures After(b, events, j + 1).mode == Open <==> events[j].now - events[i].now < b.window
  {
    SuccessesKeepOpen(b, events, i, j);
    ConfigurationIsFixed(b, events, j);
  }

  /** What becomes of a probe: success closes the breaker with a clean count, failure opens it again from
      that moment on. */
  lemma ProbeDecides(b: Breaker, e: Event)
    requires b.mode == HalfOpen && !e.Request?
    ensures e.Success? ==> Apply(b, e) == b.(mode := Closed, failureCount := 0)
    ensures e.Failure? ==> Apply(b, e) == b.(mode := Open, openedAt := e.now)
  {
  }

  /** In the other modes success clears the count only, and a failure counts, and (re)opens the breaker from
      that moment on exactly if the count has reached the threshold. */
  lemma OutcomeIsCounted(b: Breaker, now: int)
    requires b.mode != HalfOpen
    ensures Apply(b, Success) == b.(failureCount := 0)
    ensures var b' := Apply(b, Failure(now));
            && b'.failureCount == b.failureCount + 1
            && (b'.failureCount >= b.threshold ==> b'.mode == Open && b'.openedAt == now)
            && (b'.failureCount < b.threshold ==> b'.mode == b.mode && b'.openedAt == b.openedAt)
  {
  }

  lemma {:induction false} AfterPrefix(b: Breaker, events: seq<Event>, longer: seq<Event>, n: nat)
    requires n <= |events| && n <= |longer| && events[..n] == longer[..n]
    ensures After(b, events, n) == After(b, longer, n)
  {
    if n > 0 {
      assert events[n - 1] == events[..n][n - 1] == longer[..n][n - 1] == longer[n - 1];
      assert events[..n - 1] == events[..n][..n - 1] == longer[..n][..n - 1] == longer[..n - 1];
      AfterPrefix(b, events, longer, n - 1);
    }
  }

  lemma AfterOneMore(b: Breaker, events: seq<Event>, e: Event)
    ensures After(b, events + [e], |events| + 1) == Apply(After(b, events, |events|), e)
  {
    AfterPrefix(b, events, events + [e], |events|);
  }

  class CircuitBreaker {
    var mode: Mode
    var failureCount: int
    var openedAt: int
    const threshold: int
    const window: int

    function Contents(): Breaker
      reads this
    {
      Breaker(mode, failureCount, openedAt, threshold, window)
    }

    constructor (threshold: int, window: int)
      ensures Contents() == New(threshold, window)
    {
      mode, failureCount, openedAt := Closed, 0, 0;
      this.threshold, this.window := threshold, window;
    }

    method AllowRequest(now: int) returns (ok: bool)
      modifies this
      ensures ok == Admits(old(Contents()), now)
      ensures Contents() == Apply(old(Contents()), Request(now))
      ensures old(mode) == Open ==>
                (ok <==> now - old(openedAt) >= window) && mode == if ok then HalfOpen else Open
      ensures old(mode) != Open ==> ok && mode == old(mode)
      ensures failureCount == old(failureCount) && openedAt == old(openedAt)
    {
      match mode
      case Closed => return true;
      case Open =>
        if now - openedAt >= window {
          mode := HalfOpen;
          return true;
        }
        return false;
      case HalfOpen => return true;
    }

    method RecordSuccess()
      modifies this
      ensures Contents() == Apply(old(Contents()), Success)
    {
      failureCount := 0;
      if mode == HalfOpen {
        mode := Closed;
      }
    }

    method RecordFailure(now: int)
      modifies this
      ensures Contents() == Apply(old(Contents()), Failure(now))
    {
      if mode == HalfOpen {
        mode := Open;
        openedAt := now;
      } else {
        failureCount := failureCount + 1;
        if failureCount >= threshold {
          mode := Open;
          openedAt := now;
        }
      }
    }
  }
}

/** One call to an external system: breaker, bounded retry, no exception to the caller. */
module ExternalCalls {
  import opened Breakers

  /** An HTTP answer, or an exception from the client (connection refused, timeout). */
  datatype Reply = Status(code: int) | Thrown

  datatype CallResult = CallResult(ok: bool, circuitOpen: bool, httpStatus: int)

  predicate Accepted(r: Reply) { r.Status? && 200 <= r.code < 300 }

  function MaxAttempts(retryCount: int): nat { if retryCount < 1 then 1 else retryCount }

  /** The peer's answer to attempt k; a peer that stops answering throws. */
  function ReplyTo(replies: seq<Reply>, k: nat): Reply { if k < |replies| then replies[k] else Thrown }

  /** Attempts made, starting with attempt k: up to the first accepted one, or all of them. */
  function Attempts(replies: seq<Reply>, k: nat, max: nat): (n: nat)
    requires k < max
    ensures k < n <= max
    decreases max - k
  {
    if Accepted(ReplyTo(replies, k)) || k + 1 == max then k + 1 else Attempts(replies, k + 1, max)
  }

  /** How often the peer applied the request: once for every accepted answer. */
  function Applied(replies: seq<Reply>, attempts: nat): nat {
    if attempts == 0 then 0
    else Applied(replies, attempts - 1) + if Accepted(ReplyTo(replies, attempts - 1)) then 1 else 0
  }

  /** One environment for a call: may the breaker let it through, how often may it try, and what
      does the peer answer. */
  datatype Script = Script(allowed: bool, retryCount: int, replies: seq<Reply>) {
    predicate Ok() {
      allowed && Accepted(ReplyTo(replies, Attempts(replies, 0, MaxAttempts(retryCount)) - 1))
    }

    function TimesApplied(): nat {
      if allowed then Applied(replies, Attempts(replies, 0, MaxAttempts(retryCount))) else 0
    }
  }

  lemma {:induction false} AttemptsStopAtFirstAccepted(replies: seq<Reply>, k: nat, max: nat)
    requires k < max
    ensures forall i | k <= i < Attempts(replies, k, max) - 1 :: !Accepted(ReplyTo(replies, i))
    ensures Attempts(replies, k, max) < max ==> Accepted(ReplyTo(replies, Attempts(replies, k, max) - 1))
    decreases max - k
  {
    if !(Accepted(ReplyTo(replies, k)) || k + 1 == max) {
      AttemptsStopAtFirstAccepted(replies, k + 1, max);
    }
  }

  lemma {:induction false} NothingAppliedBefore(replies: seq<Reply>, n: nat)
    requires forall i | 0 <= i < n :: !Accepted(ReplyTo(replies, i))
    ensures Applied(replies, n) == 0
  {
    if n > 0 {
      NothingAppliedBefore(replies, n - 1);
    }
  }

  /** For every retry budget and breaker history a call that reports success was applied exactly
      once by its peer, and a call that reports failure not at all. */
  lemma AppliedOnceOrNever(s: Script)
    ensures s.TimesApplied() == if s.Ok() then 1 else 0
  {
    var max := MaxAttempts(s.retryCount);
    AttemptsStopAtFirstAccepted(s.replies, 0, max);
    NothingAppliedBefore(s.replies, Attempts(s.replies, 0, max) - 1);
  }

  /** When the breaker is asked, and what its clock shows at the end of each attempt; a clock that is
      not listed any further stands still. */
  datatype Clock = Clock(asked: int, told: seq<int>) {
    function At(k: nat): int { if k < |told| then told[k] else asked }
  }

  /** Attempt k is answered with a status from 200 to 299. */
  predicate SuccessStatus(replies: seq<Reply>, k: int) {
    0 <= k < |replies| && replies[k].Status? && replies[k].code / 100 == 2
  }

  /** What a call comes to, told by the status codes alone: it makes at least one attempt and no more than
      its budget, stops at the first success, and is Ok if and only if there is one within the budget. */
  lemma CallByStatusCodes(replies: seq<Reply>, retryCount: int)
    ensures var budget := if retryCount > 1 then retryCount else 1;
            var n := Attempts(replies, 0, MaxAttempts(retryCount));
            && 1 <= n <= budget
            && (forall k | 0 <= k < n - 1 :: !SuccessStatus(replies, k))
            && (n < budget ==> SuccessStatus(replies, n - 1))
            && (Script(true, retryCount, replies).Ok() <==> SuccessStatus(replies, n - 1))
            && (Script(true, retryCount, replies).Ok() <==>
                exists k | 0 <= k < budget :: SuccessStatus(replies, k))
            && !Script(false, retryCount, replies).Ok()
  {
    var max := MaxAttempts(retryCount);
    AttemptsStopAtFirstAccepted(replies, 0, max);
    forall k: nat ensures Accepted(ReplyTo(replies, k)) <==> SuccessStatus(replies, k) {
    }
  }

  /** The breaker outcomes of n attempts of which only the last can have succeeded. */
  function Outcomes(n: nat, ok: bool, clock: Clock): seq<Event> {
    seq(n, i requires 0 <= i < n => if i == n - 1 && ok then Success else Failure(clock.At(i)))
  }

  lemma OutcomeAdded(n: nat, ok: bool, clock: Clock)
    ensures Outcomes(n + 1, ok, clock) ==
            Outcomes(n, false, clock) + [if ok then Success else Failure(clock.At(n))]
  {
  }

  /** The script of a call in front of a breaker: the breaker's verdict is filled in. */
  function Admitted(s: Script, b: Breaker, clock: Clock): Script { s.(allowed := Admits(b, clock.asked)) }

  /** The breaker after a call: asked once, and told the outcome of every attempt. */
  function AfterCall(b: Breaker, s: Script, clock: Clock): Breaker {
    var s' := Admitted(s, b, clock);
    var attempts := if s'.allowed then Attempts(s'.replies, 0, MaxAttempts(s'.retryCount)) else 0;
    var events := [Request(clock.asked)] + Outcomes(attempts, s'.Ok(), clock);
    After(b, events, |events|)
  }

  /** callExternal: asks the breaker once, then makes at most max(1, retryCount) attempts, stops
      at the first accepted answer, and records one breaker outcome for every attempt. */
  method CallExternal(breaker: CircuitBreaker, retryCount: int, replies: seq<Reply>, clock: Clock)
    returns (res: CallResult, attempts: nat, events: seq<Event>)
    modifies breaker
    ensures res.circuitOpen == !Admits(old(breaker.Contents()), clock.asked)
    ensures res.ok == Script(!res.circuitOpen, retryCount, replies).Ok()
    ensures attempts == if res.circuitOpen then 0 else Attempts(replies, 0, MaxAttempts(retryCount))
    ensures attempts <= MaxAttempts(retryCount)
    ensures events == [Request(clock.asked)] + Outcomes(attempts, res.ok, clock)
    ensures breaker.Contents() == After(old(breaker.Contents()), events, |events|)
    ensures res.ok ==> 200 <= res.httpStatus < 300
  {
    res := CallResult(false, false, 0);
    attempts := 0;
    var allowed := breaker.AllowRequest(clock.asked);
    events := [Request(clock.asked)];
    assert breaker.Contents() == After(old(breaker.Contents()), events, 1) by {
      assert After(old(breaker.Contents()), events, 0) == old(breaker.Contents());
    }
    if !allowed {
      res := res.(circuitOpen := true);
      assert Outcomes(0, false, clock) == [];
      return;
    }
    var max := MaxAttempts(retryCount);
    while attempts < max
      invariant attempts <= max
      invariant res == CallResult(false, false, res.httpStatus)
      invariant |events| == attempts + 1 && events == [Request(clock.asked)] + Outcomes(attempts, false, clock)
      invariant breaker.Contents() == After(old(breaker.Contents()), events, |events|)
      invariant attempts < max ==> Attempts(replies, 0, max) == Attempts(replies, attempts, max)
      invariant attempts == max ==> Attempts(replies, 0, max) == max && !Accepted(ReplyTo(replies, max - 1))
    {
      var reply := ReplyTo(replies, attempts);
      if reply.Status? {
        res := res.(httpStatus := reply.code);
        if 200 <= reply.code < 300 {
          breaker.RecordSuccess();
          AfterOneMore(old(breaker.Contents()), events, Success);
          OutcomeAdded(attempts, true, clock);
          events := events + [Success];
          attempts := attempts + 1;
          res := res.(ok := true);
          return;
        }
      }
      var told := clock.At(attempts);
      breaker.RecordFailure(told);
      AfterOneMore(old(breaker.Contents()), events, Failure(told));
      OutcomeAdded(attempts, false, clock);
      events := events + [Failure(told)];
      attempts := attempts + 1;
    }
  }
}
