/** The history of one outbox row: its status and retry count against the committed ticks that took it. */
module OutboxHistory {
  import opened OutboxPolicy
  import opened OutboxRows
  import opened OutboxRuns
  import opened OutboxDispatcher

  /** A tick at work has the row in its batch and the broker's answer to it was ok. */
  ghost predicate Took(w: Phase, id: int, ok: bool) {
    w.Working? && exists i | 0 <= i < |w.batch| && i < |w.marks| :: w.batch[i] == id && w.marks[i] == ok
  }

  /** The event commits a tick that took the row with this answer. */
  ghost predicate CommitsWith(s: Outbox, e: Event, id: int, ok: bool) {
    e.Commit? && Commits(s, e.tick) && Took(PhaseOf(s, e.tick), id, ok)
  }

  /** Committed ticks among the first n events that took the row with this answer. */
  ghost function Committed(events: seq<Event>, n: nat, id: int, ok: bool): nat
    requires n <= |events|
  {
    if n == 0 then 0
    else
      Committed(events, n - 1, id, ok) +
      if CommitsWith(After(EMPTY_OUTBOX, events, n - 1), events[n - 1], id, ok) then 1 else 0
  }

  /** Status and retry count, told by the numbers of good and bad publishes that were committed. */
  ghost predicate RowTells(r: Row, good: nat, bad: nat) {
    && r.retryCount == bad <= 5 && good <= 1
    && (r.status == Sent <==> good == 1)
    && (r.status == Dead <==> bad == 5)
    && (r.status == Failed <==> 1 <= bad <= 4 && good == 0)
    && (r.status == Pending <==> bad == 0 && good == 0)
  }

  /** A row that is not there yet has no history. */
  ghost predicate HistoryOk(s: Outbox, id: int, good: nat, bad: nat) {
    if id in s.rows then RowTells(s.rows[id], good, bad) else good == 0 && bad == 0
  }

  /** Committing a batch: a row in it is marked by its one answer, another one is left alone. */
  lemma CommitMarksRow(s: Outbox, tick: nat, id: int)
    requires OutboxOk(s) && Commits(s, tick)
    ensures var w, s' := PhaseOf(s, tick), Apply(s, Commit(tick));
            && s'.rows.Keys == s.rows.Keys
            && (id in w.batch ==> id in s.rows && Eligible(s.rows[id]))
            && (id in w.batch ==> (Took(w, id, true) <==> !Took(w, id, false)))
            && (Took(w, id, true) ==> id in w.batch && s'.rows[id] == Marked(s.rows[id], true))
            && (Took(w, id, false) ==> id in w.batch && s'.rows[id] == Marked(s.rows[id], false))
            && (id in s.rows && id !in w.batch ==> s'.rows[id] == s.rows[id])
  {
    var w := PhaseOf(s, tick);
    assert tick in s.lock && WorkingOk(s.rows, w);
    MarkFirstRows(s.rows, w.batch, w.marks, |w.batch|);
    assert w.batch[..|w.batch|] == w.batch;
    if id in w.batch {
      var i :| 0 <= i < |w.batch| && w.batch[i] == id;
      assert Took(w, id, w.marks[i]);
    }
  }

  lemma MarkTells(r: Row, good: nat, bad: nat)
    requires Eligible(r) && RowTells(r, good, bad)
    ensures RowTells(Marked(r, true), good + 1, bad) && RowTells(Marked(r, false), good, bad + 1)
  {
  }

  lemma CommitKeepsHistory(s: Outbox, tick: nat, id: int, good: nat, bad: nat)
    requires OutboxOk(s) && Commits(s, tick) && HistoryOk(s, id, good, bad)
    ensures var w := PhaseOf(s, tick);
            HistoryOk(Apply(s, Commit(tick)), id,
                      good + if Took(w, id, true) then 1 else 0, bad + if Took(w, id, false) then 1 else 0)
  {
    CommitMarksRow(s, tick, id);
    if id in PhaseOf(s, tick).batch {
      MarkTells(s.rows[id], good, bad);
    }
  }

  lemma OtherEventsKeepHistory(s: Outbox, e: Event, id: int, good: nat, bad: nat)
    requires HistoryOk(s, id, good, bad) && (e.Commit? ==> !Commits(s, e.tick))
    ensures HistoryOk(Apply(s, e), id, good, bad)
  {
  }

  lemma EventKeepsHistory(s: Outbox, e: Event, id: int, good: nat, bad: nat)
    requires OutboxOk(s) && HistoryOk(s, id, good, bad)
    ensures HistoryOk(Apply(s, e), id, good + if CommitsWith(s, e, id, true) then 1 else 0,
                      bad + if CommitsWith(s, e, id, false) then 1 else 0)
  {
    if e.Commit? && Commits(s, e.tick) {
      CommitKeepsHistory(s, e.tick, id, good, bad);
    } else {
      OtherEventsKeepHistory(s, e, id, good, bad);
    }
  }

  lemma {:induction false} RunKeepsHistory(events: seq<Event>, n: nat, id: int)
    requires n <= |events|
    ensures HistoryOk(After(EMPTY_OUTBOX, events, n), id,
                      Committed(events, n, id, true), Committed(events, n, id, false))
  {
    if n > 0 {
      RunKeepsHistory(events, n - 1, id);
      EveryRunIsOk(events, n - 1);
      var s, e := After(EMPTY_OUTBOX, events, n - 1), events[n - 1];
      var good, bad := Committed(events, n - 1, id, true), Committed(events, n - 1, id, false);
      EventKeepsHistory(s, e, id, good, bad);
      assert After(EMPTY_OUTBOX, events, n) == Apply(s, e);
    }
  }

  /** In every run the retry count of a row is the number of committed ticks that took it and failed to
      publish it. It is dead if and only if there were five of them, failed if and only if there were one to
      four and no committed tick published it, and sent if and only if a committed tick did. */
  lemma RetriesAreFailedPublishes(events: seq<Event>, n: nat, id: int)
    requires n <= |events| && id in After(EMPTY_OUTBOX, events, n).rows
    ensures var r := After(EMPTY_OUTBOX, events, n).rows[id];
            var good, bad := Committed(events, n, id, true), Committed(events, n, id, false);
            && r.retryCount == bad
            && (r.status == Dead <==> bad == 5)
            && (r.status == Failed <==> 1 <= bad <= 4 && good == 0)
            && (r.status == Sent <==> good > 0)
            && (r.status == Pending <==> good == 0 && bad == 0)
            && good <= 1
  {
    RunKeepsHistory(events, n, id);
  }

  // ---- A tick of the dispatcher is a run ----

  /** The events lead from s to t. */
  ghost predicate Runs(s: Outbox, events: seq<Event>, t: Outbox) { After(s, events, |events|) == t }

  lemma {:induction false} LongerRun(s: Outbox, events: seq<Event>, more: seq<Event>, n: nat)
    requires n <= |events|
    ensures After(s, events + more, n) == After(s, events, n)
  {
    if n > 0 {
      LongerRun(s, events, more, n - 1);
      var before, e := After(s, events, n - 1), events[n - 1];
      assert (events + more)[n - 1] == e;
      assert After(s, events, n) == Apply(before, e);
      assert After(s, events + more, n) == Apply(before, e);
    }
  }

  lemma FirstEvent(s: Outbox, e: Event)
    ensures Runs(s, [e], Apply(s, e))
  {
    assert After(s, [e], 0) == s;
  }

  lemma OneMore(s: Outbox, events: seq<Event>, t: Outbox, e: Event)
    requires Runs(s, events, t)
    ensures Runs(s, events + [e], Apply(t, e))
  {
    LongerRun(s, events, [e], |events|);
  }

  /** The state after the first n rows have been published and marked. */
  ghost predicate HalfDone(s: Outbox, tick: nat, batch: seq<int>, acks: seq<bool>, n: nat, s': Outbox)
    requires n <= |batch| && |acks| == |batch|
  {
    && s'.rows == s.rows && s'.lock == {tick}
    && s'.copies == s.copies + Published(batch, acks, n)
    && PhaseOf(s', tick) == Working(batch, acks[..n], false, false)
  }

  lemma PublishAndMarkOne(s: Outbox, tick: nat, batch: seq<int>, acks: seq<bool>, n: nat, s': Outbox)
    requires |acks| == |batch| && n < |batch| && HalfDone(s, tick, batch, acks, n, s')
    ensures HalfDone(s, tick, batch, acks, n + 1, Apply(Apply(s', Publish(tick, acks[n])), Mark(tick)))
  {
    assert acks[..n + 1] == acks[..n] + [acks[n]];
  }

  lemma SelectStarts(s: Outbox, tick: nat, batch: seq<int>, acks: seq<bool>)
    requires |acks| == |batch|
    requires PhaseOf(s, tick) == Started && s.lock == {} && Selects(s.rows, batch)
    ensures HalfDone(s, tick, batch, acks, 0, Apply(s, LockAndSelect(tick, batch)))
  {
  }

  /** The run of a tick up to its n-th row: lock and select, then publish and mark row by row. */
  function LoopRun(tick: nat, batch: seq<int>, acks: seq<bool>, n: nat): seq<Event>
    requires n <= |acks|
  {
    if n == 0 then [LockAndSelect(tick, batch)]
    else LoopRun(tick, batch, acks, n - 1) + [Publish(tick, acks[n - 1])] + [Mark(tick)]
  }

  lemma {:induction false} LoopIsARun(s: Outbox, tick: nat, batch: seq<int>, acks: seq<bool>, n: nat, selected: Outbox)
    returns (t: Outbox)
    requires |acks| == |batch| && n <= |batch|
    requires selected == Apply(s, LockAndSelect(tick, batch)) && HalfDone(s, tick, batch, acks, 0, selected)
    ensures Runs(s, LoopRun(tick, batch, acks, n), t) && HalfDone(s, tick, batch, acks, n, t)
  {
    if n == 0 {
      FirstEvent(s, LockAndSelect(tick, batch));
      return selected;
    }
    var before := LoopIsARun(s, tick, batch, acks, n - 1, selected);
    var run := LoopRun(tick, batch, acks, n - 1);
    t := PublishedAndMarked(s, run, before, tick, acks[n - 1]);
    PublishAndMarkOne(s, tick, batch, acks, n - 1, before);
  }

  lemma PublishedAndMarked(s: Outbox, run: seq<Event>, before: Outbox, tick: nat, ok: bool) returns (t: Outbox)
    requires Runs(s, run, before)
    ensures t == Apply(Apply(before, Publish(tick, ok)), Mark(tick))
    ensures Runs(s, run + [Publish(tick, ok)] + [Mark(tick)], t)
  {
    OneMore(s, run, before, Publish(tick, ok));
    OneMore(s, run + [Publish(tick, ok)], Apply(before, Publish(tick, ok)), Mark(tick));
    t := Apply(Apply(before, Publish(tick, ok)), Mark(tick));
  }

  lemma CommitEnds(s: Outbox, tick: nat, batch: seq<int>, acks: seq<bool>, s': Outbox)
    requires |acks| == |batch| && HalfDone(s, tick, batch, acks, |batch|, s')
    ensures var t := Apply(s', Commit(tick));
            && t.rows == MarkFirst(s.rows, batch, acks, |batch|)
            && t.copies == s.copies + Published(batch, acks, |batch|)
            && t.lock == {} && PhaseOf(t, tick) == Over
  {
    assert acks[..|batch|] == acks;
  }

  lemma RollbackEnds(s: Outbox, tick: nat, batch: seq<int>, acks: seq<bool>, n: nat, s': Outbox)
    requires |acks| == |batch| && n < |batch| && HalfDone(s, tick, batch, acks, n, s')
    ensures var t := Apply(Apply(s', Publish(tick, acks[n])), Rollback(tick));
            && t.rows == s.rows && t.copies == s.copies + Published(batch, acks, n + 1)
            && t.lock == {} && PhaseOf(t, tick) == Over
  {
  }

  /** A tick that commits is the run that locks, selects, publishes and marks row by row, and commits: rows and
      copies are afterwards what Dispatcher.Tick makes of them. */
  lemma CommittedTickIsARun(s: Outbox, tick: nat, batch: seq<int>, acks: seq<bool>) returns (t: Outbox)
    requires |acks| == |batch|
    requires PhaseOf(s, tick) == Started && s.lock == {} && Selects(s.rows, batch)
    ensures Runs(s, LoopRun(tick, batch, acks, |batch|) + [Commit(tick)], t)
    ensures t.rows == MarkFirst(s.rows, batch, acks, |batch|)
    ensures t.copies == s.copies + Published(batch, acks, |batch|)
    ensures t.lock == {} && PhaseOf(t, tick) == Over
  {
    SelectStarts(s, tick, batch, acks);
    var before := LoopIsARun(s, tick, batch, acks, |batch|, Apply(s, LockAndSelect(tick, batch)));
    OneMore(s, LoopRun(tick, batch, acks, |batch|), before, Commit(tick));
    CommitEnds(s, tick, batch, acks, before);
    t := Apply(before, Commit(tick));
  }

  /** A tick that fails between the publish of row n and its update is such a run that rolls back: the rows are
      as before, the copies are not. */
  lemma FailedTickIsARun(s: Outbox, tick: nat, batch: seq<int>, acks: seq<bool>, n: nat) returns (t: Outbox)
    requires |acks| == |batch| && n < |batch|
    requires PhaseOf(s, tick) == Started && s.lock == {} && Selects(s.rows, batch)
    ensures Runs(s, LoopRun(tick, batch, acks, n) + [Publish(tick, acks[n])] + [Rollback(tick)], t)
    ensures t.rows == s.rows && t.copies == s.copies + Published(batch, acks, n + 1)
    ensures t.lock == {} && PhaseOf(t, tick) == Over
  {
    SelectStarts(s, tick, batch, acks);
    var before := LoopIsARun(s, tick, batch, acks, n, Apply(s, LockAndSelect(tick, batch)));
    var run := LoopRun(tick, batch, acks, n);
    OneMore(s, run, before, Publish(tick, acks[n]));
    OneMore(s, run + [Publish(tick, acks[n])], Apply(before, Publish(tick, acks[n])), Rollback(tick));
    RollbackEnds(s, tick, batch, acks, n, before);
    t := Apply(Apply(before, Publish(tick, acks[n])), Rollback(tick));
  }
}
