/** Runs of the outbox: any number of dispatcher ticks of any number of instances, interleaved
    statement by statement with each other and with transactions that enqueue rows. */
module OutboxRuns {
  import opened OutboxPolicy
  import opened OutboxRows

  /** Where a tick is in its transaction. marks holds the answers of the publishes whose update has
      been made; answer is that of a publish whose update has not. */
  datatype Phase =
    | Started
    | Working(batch: seq<int>, marks: seq<bool>, published: bool, answer: bool)
    | Over

  datatype Outbox = Outbox(rows: Table, copies: multiset<int>, lock: set<nat>, ticks: map<nat, Phase>)

  datatype Event =
    | Enqueue(id: int, createdAt: int)
    | Start(tick: nat)
    | LockAndSelect(tick: nat, batch: seq<int>)
    | Publish(tick: nat, ok: bool)
    | Mark(tick: nat)
    | Commit(tick: nat)
    | Rollback(tick: nat)

  const EMPTY_OUTBOX := Outbox(map[], multiset{}, {}, map[])

  function PhaseOf(s: Outbox, tick: nat): Phase { if tick in s.ticks then s.ticks[tick] else Over }

  function SetPhase(s: Outbox, tick: nat, phase: Phase): Outbox { s.(ticks := s.ticks[tick := phase]) }

  /** Events that do not apply, among them answers the database would not give, change nothing. */
  ghost function Apply(s: Outbox, e: Event): Outbox {
    match e
    case Enqueue(id, createdAt) =>
      if id in s.rows then s else s.(rows := s.rows[id := Row(createdAt, Pending, 0)])
    case Start(tick) => if tick in s.ticks then s else SetPhase(s, tick, Started)
    case LockAndSelect(tick, batch) =>
      if !PhaseOf(s, tick).Started? then s
      else if s.lock != {} then SetPhase(s, tick, Over)
      else if !Selects(s.rows, batch) then s
      else SetPhase(s.(lock := {tick}), tick, Working(batch, [], false, false))
    case Publish(tick, ok) =>
      var w := PhaseOf(s, tick);
      if !w.Working? || w.published || |w.marks| >= |w.batch| then s
      else
        var id := w.batch[|w.marks|];
        SetPhase(s.(copies := if ok then s.copies + multiset{id} else s.copies), tick,
                 w.(published := true, answer := ok))
    case Mark(tick) =>
      var w := PhaseOf(s, tick);
      if !w.Working? || !w.published then s
      else SetPhase(s, tick, Working(w.batch, w.marks + [w.answer], false, false))
    case Commit(tick) =>
      if Commits(s, tick) then
        var w := PhaseOf(s, tick);
        SetPhase(s.(rows := MarkFirst(s.rows, w.batch, w.marks, |w.batch|), lock := s.lock - {tick}), tick, Over)
      else s
    case Rollback(tick) =>
      if PhaseOf(s, tick).Working? then SetPhase(s.(lock := s.lock - {tick}), tick, Over) else s
  }

  /** The tick has marked its whole batch and may commit. */
  predicate Commits(s: Outbox, tick: nat) {
    var w := PhaseOf(s, tick);
    w.Working? && |w.marks| == |w.batch|
  }

  ghost function After(s: Outbox, events: seq<Event>, n: nat): Outbox
    requires n <= |events|
  {
    if n == 0 then s else Apply(After(s, events, n - 1), events[n - 1])
  }

  /** The tick has handed this row to the broker. */
  ghost predicate HasPublished(w: Phase, id: int) {
    && w.Working?
    && ((exists i | 0 <= i < |w.marks| && i < |w.batch| :: w.batch[i] == id && w.marks[i])
        || (w.published && w.answer && |w.marks| < |w.batch| && w.batch[|w.marks|] == id))
  }

  /** How many ticks that had published the row were rolled back. */
  ghost function RolledBack(events: seq<Event>, n: nat, id: int): nat
    requires n <= |events|
  {
    if n == 0 then 0
    else
      var s, e := After(EMPTY_OUTBOX, events, n - 1), events[n - 1];
      RolledBack(events, n - 1, id) +
      if e.Rollback? && HasPublished(PhaseOf(s, e.tick), id) then 1 else 0
  }

  // ---- The invariant ----

  ghost predicate WorkingOk(rows: Table, w: Phase)
    requires w.Working?
  {
    && Distinct(w.batch)
    && (forall id | id in w.batch :: id in rows && Eligible(rows[id]))
    && |w.marks| <= |w.batch|
    && (w.published ==> |w.marks| < |w.batch|)
  }

  ghost predicate OutboxOk(s: Outbox) {
    && TableOk(s.rows)
    && (forall t | t in s.lock :: PhaseOf(s, t).Working?)
    && (forall t | PhaseOf(s, t).Working? :: t in s.lock && WorkingOk(s.rows, PhaseOf(s, t)))
    && (forall t, u | t in s.lock && u in s.lock :: t == u)
  }

  lemma CommitKeepsOutboxOk(s: Outbox, tick: nat)
    requires OutboxOk(s) && Commits(s, tick)
    ensures OutboxOk(Apply(s, Commit(tick)))
  {
    var w := PhaseOf(s, tick);
    assert tick in s.lock && WorkingOk(s.rows, w);
    CommitKeepsTableOk(s.rows, w.batch, w.marks);
    var s' := Apply(s, Commit(tick));
    assert s'.lock == {};
    forall t ensures !PhaseOf(s', t).Working? {
      if t != tick && PhaseOf(s, t).Working? {
        assert false;
      }
    }
  }

  lemma ApplyKeepsOutboxOk(s: Outbox, e: Event)
    requires OutboxOk(s)
    ensures OutboxOk(Apply(s, e))
  {
    if e.Commit? {
      if Commits(s, e.tick) {
        CommitKeepsOutboxOk(s, e.tick);
      }
    } else {
      var s' := Apply(s, e);
      forall t | PhaseOf(s', t).Working? ensures t in s'.lock && WorkingOk(s'.rows, PhaseOf(s', t)) {
        if PhaseOf(s, t).Working? {
          assert t in s.lock && WorkingOk(s.rows, PhaseOf(s, t));
        }
      }
    }
  }

  lemma {:induction false} RunKeepsOutboxOk(s: Outbox, events: seq<Event>, n: nat)
    requires OutboxOk(s) && n <= |events|
    ensures OutboxOk(After(s, events, n))
  {
    if n > 0 {
      RunKeepsOutboxOk(s, events, n - 1);
      ApplyKeepsOutboxOk(After(s, events, n - 1), events[n - 1]);
    }
  }

  lemma EveryRunIsOk(events: seq<Event>, n: nat)
    requires n <= |events|
    ensures OutboxOk(After(EMPTY_OUTBOX, events, n))
  {
    RunKeepsOutboxOk(EMPTY_OUTBOX, events, n);
  }

  // ---- Safety ----

  /** At most one tick, of whatever instance, is dispatching. */
  lemma AtMostOneDispatches(events: seq<Event>, n: nat, t: nat, u: nat)
    requires n <= |events|
    requires var s := After(EMPTY_OUTBOX, events, n); PhaseOf(s, t).Working? && PhaseOf(s, u).Working?
    ensures t == u
  {
    EveryRunIsOk(events, n);
  }

  /** Status and retry count agree in every committed row of every run. */
  lemma StatusesAgreeWithRetries(events: seq<Event>, n: nat, id: int)
    requires n <= |events| && id in After(EMPTY_OUTBOX, events, n).rows
    ensures var r := After(EMPTY_OUTBOX, events, n).rows[id];
            && (r.status == Failed ==> 1 <= r.retryCount <= 4)
            && (r.status == Dead <==> r.retryCount == 5)
            && (r.status == Pending ==> r.retryCount == 0)
            && (Eligible(r) <==> r.status == Pending || r.status == Failed)
  {
    EveryRunIsOk(events, n);
  }

  ghost predicate Settled(s: Outbox, id: int, r: Row) {
    id in s.rows && s.rows[id] == r && !Eligible(r)
  }

  lemma SettledRowsStay(s: Outbox, e: Event, id: int, r: Row)
    requires OutboxOk(s) && Settled(s, id, r)
    ensures Settled(Apply(s, e), id, r)
  {
    if e.Commit? && Commits(s, e.tick) {
      var w := PhaseOf(s, e.tick);
      assert WorkingOk(s.rows, w);
      MarkFirstRows(s.rows, w.batch, w.marks, |w.batch|);
      assert w.batch[..|w.batch|] == w.batch;
    }
  }

  /** A sent or dead row is never touched again. */
  lemma {:induction false} SettledIsForever(s: Outbox, events: seq<Event>, n: nat, id: int, r: Row)
    requires OutboxOk(s) && Settled(s, id, r) && n <= |events|
    ensures Settled(After(s, events, n), id, r)
  {
    if n > 0 {
      SettledIsForever(s, events, n - 1, id, r);
      RunKeepsOutboxOk(s, events, n - 1);
      SettledRowsStay(After(s, events, n - 1), events[n - 1], id, r);
    }
  }

  // ---- Message accounting ----

  ghost function InFlight(s: Outbox, id: int): nat {
    if exists t | t in s.lock :: HasPublished(PhaseOf(s, t), id) then 1 else 0
  }

  ghost function SentCount(s: Outbox, id: int): nat {
    if id in s.rows && s.rows[id].status == Sent then 1 else 0
  }

  /** What the one dispatching tick has published, when its transaction ends. */
  lemma InFlightOfHolder(s: Outbox, tick: nat, id: int)
    requires OutboxOk(s) && PhaseOf(s, tick).Working?
    ensures InFlight(s, id) == if HasPublished(PhaseOf(s, tick), id) then 1 else 0
  {
    assert tick in s.lock;
  }

  lemma CommitSettlesTheCount(s: Outbox, tick: nat, id: int)
    requires OutboxOk(s) && Commits(s, tick)
    ensures var s' := Apply(s, Commit(tick));
            InFlight(s', id) == 0 && SentCount(s', id) == SentCount(s, id) + InFlight(s, id)
  {
    var w := PhaseOf(s, tick);
    assert tick in s.lock && WorkingOk(s.rows, w);
    InFlightOfHolder(s, tick, id);
    MarkFirstRows(s.rows, w.batch, w.marks, |w.batch|);
    assert w.batch[..|w.batch|] == w.batch;
    assert Apply(s, Commit(tick)).lock == {};
    if id in w.batch {
      var i :| 0 <= i < |w.batch| && w.batch[i] == id;
      assert HasPublished(w, id) <==> w.marks[i];
    }
  }

  lemma PublishCounts(s: Outbox, tick: nat, ok: bool, id: int)
    requires OutboxOk(s)
    ensures var s' := Apply(s, Publish(tick, ok));
            && SentCount(s', id) == SentCount(s, id)
            && s'.copies[id] - InFlight(s', id) == s.copies[id] - InFlight(s, id)
  {
    var s' := Apply(s, Publish(tick, ok));
    if s' != s {
      ApplyKeepsOutboxOk(s, Publish(tick, ok));
      assert WorkingOk(s.rows, PhaseOf(s, tick));
      InFlightOfHolder(s, tick, id);
      InFlightOfHolder(s', tick, id);
      var w, w' := PhaseOf(s, tick), PhaseOf(s', tick);
      assert HasPublished(w', id) <==> HasPublished(w, id) || (ok && w.batch[|w.marks|] == id);
      assert ok && w.batch[|w.marks|] == id ==> !HasPublished(w, id);
    }
  }

  lemma MarkCounts(s: Outbox, tick: nat, id: int)
    requires OutboxOk(s)
    ensures var s' := Apply(s, Mark(tick));
            s'.copies == s.copies && SentCount(s', id) == SentCount(s, id) && InFlight(s', id) == InFlight(s, id)
  {
    var s' := Apply(s, Mark(tick));
    if s' != s {
      ApplyKeepsOutboxOk(s, Mark(tick));
      assert WorkingOk(s.rows, PhaseOf(s, tick));
      InFlightOfHolder(s, tick, id);
      InFlightOfHolder(s', tick, id);
      var w, w' := PhaseOf(s, tick), PhaseOf(s', tick);
      var k := |w.marks|;
      assert w'.marks[k] == w.answer && forall i | 0 <= i < k :: w'.marks[i] == w.marks[i];
      if HasPublished(w, id) && !(w.published && w.answer && w.batch[k] == id) {
        var i :| 0 <= i < k && w.batch[i] == id && w.marks[i];
        assert w'.batch[i] == id && w'.marks[i];
      }
    }
  }

  lemma QuietEventsKeepCounts(s: Outbox, e: Event, id: int)
    requires OutboxOk(s) && (e.Enqueue? || e.Start? || e.LockAndSelect?)
    ensures var s' := Apply(s, e);
            s'.copies == s.copies && SentCount(s', id) == SentCount(s, id) && InFlight(s', id) == InFlight(s, id)
  {
    var s' := Apply(s, e);
    forall t | t in s.lock ensures t in s'.lock && PhaseOf(s', t) == PhaseOf(s, t) {
    }
    forall t | t in s'.lock && t !in s.lock ensures !HasPublished(PhaseOf(s', t), id) {
    }
  }

  lemma RollbackCounts(s: Outbox, tick: nat, id: int)
    requires OutboxOk(s) && PhaseOf(s, tick).Working?
    ensures var s' := Apply(s, Rollback(tick));
            && s'.copies == s.copies && SentCount(s', id) == SentCount(s, id) && InFlight(s', id) == 0
            && InFlight(s, id) == if HasPublished(PhaseOf(s, tick), id) then 1 else 0
  {
    InFlightOfHolder(s, tick, id);
    assert Apply(s, Rollback(tick)).lock == {};
  }

  /** In every run the copies of a row at the broker are: one if it is marked sent, one for every
      rolled-back tick that had published it, and one if the present tick has published it. */
  lemma {:induction false} CopiesAreAccountedFor(events: seq<Event>, n: nat, id: int)
    requires n <= |events|
    ensures var s := After(EMPTY_OUTBOX, events, n);
            s.copies[id] == SentCount(s, id) + RolledBack(events, n, id) + InFlight(s, id)
  {
    if n > 0 {
      CopiesAreAccountedFor(events, n - 1, id);
      EveryRunIsOk(events, n - 1);
      var s, e := After(EMPTY_OUTBOX, events, n - 1), events[n - 1];
      match e
      case Publish(tick, ok) => PublishCounts(s, tick, ok, id);
      case Mark(tick) => MarkCounts(s, tick, id);
      case Commit(tick) => if Commits(s, tick) { CommitSettlesTheCount(s, tick, id); }
      case Rollback(tick) => if PhaseOf(s, tick).Working? { RollbackCounts(s, tick, id); }
      case _ => QuietEventsKeepCounts(s, e, id);
    }
  }

  /** Hence a row marked sent was delivered at least once, and more often only by as many ticks as
      published it and were rolled back. */
  lemma SentRowsAreDelivered(events: seq<Event>, n: nat, id: int)
    requires n <= |events|
    requires var s := After(EMPTY_OUTBOX, events, n); id in s.rows && s.rows[id].status == Sent
    ensures 1 <= After(EMPTY_OUTBOX, events, n).copies[id] <= 1 + RolledBack(events, n, id)
  {
    CopiesAreAccountedFor(events, n, id);
    EveryRunIsOk(events, n);
    var s := After(EMPTY_OUTBOX, events, n);
    forall t | t in s.lock ensures !HasPublished(PhaseOf(s, t), id) {
      assert WorkingOk(s.rows, PhaseOf(s, t));
    }
  }
}
