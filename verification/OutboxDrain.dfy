/** How fast the outbox drains: a bound for every row, over every run, whatever the broker answers. */
module OutboxDrain {
  import opened Counting
  import opened OutboxPolicy
  import opened OutboxRows
  import opened OutboxRuns

  /** The eligible rows of the table from the oldest to the youngest, all of different age. */
  ghost predicate AgeOrder(t: Table, order: seq<int>) {
    && (forall j | 0 <= j < |order| :: order[j] in t)
    && (forall i, j | 0 <= i < j < |order| :: t[order[i]].createdAt < t[order[j]].createdAt)
    && (forall id | id in t && Eligible(t[id]) :: id in order)
  }

  ghost predicate CommitsNow(s: Outbox, e: Event) { e.Commit? && Commits(s, e.tick) }

  /** The number of ticks among the first n events that commit. */
  ghost function CommittedTicks(s: Outbox, events: seq<Event>, n: nat): nat
    requires n <= |events|
  {
    if n == 0 then 0
    else CommittedTicks(s, events, n - 1) + if CommitsNow(After(s, events, n - 1), events[n - 1]) then 1 else 0
  }

  /** Rows that are enqueued later are younger. */
  predicate EnqueuesAfter(events: seq<Event>, time: int) {
    forall i | 0 <= i < |events| && events[i].Enqueue? :: events[i].createdAt > time
  }

  /** Full batches that have to commit before row j is certain to be in every batch. */
  function Before(j: nat): nat { 5 * (j / BATCH_SIZE) }

  // ---- The invariant of a draining run ----

  ghost predicate StillOrdered(t: Table, order: seq<int>, time: int) {
    && (forall j | 0 <= j < |order| :: order[j] in t && t[order[j]].createdAt <= time)
    && (forall i, j | 0 <= i < j < |order| :: t[order[i]].createdAt < t[order[j]].createdAt)
    && (forall id | id in t && Eligible(t[id]) && t[id].createdAt <= time :: id in order)
  }

  /** After c committed ticks row j, if it is still eligible, has been tried c - Before(j) times. */
  ghost predicate Tried(t: Table, order: seq<int>, c: nat) {
    forall j | 0 <= j < |order| && order[j] in t && Eligible(t[order[j]]) ::
      t[order[j]].retryCount >= c - Before(j)
  }

  /** A tick at work has passed over an ordered row only for fifty older ones. */
  ghost predicate Fair(s: Outbox, order: seq<int>) {
    forall t, j | t in s.lock && PhaseOf(s, t).Working? && 0 <= j < |order| && order[j] in s.rows ::
      Eligible(s.rows[order[j]]) && order[j] !in PhaseOf(s, t).batch ==>
        PassedOver(s.rows, PhaseOf(s, t).batch, order[j])
  }

  ghost predicate Draining(s: Outbox, order: seq<int>, time: int, c: nat) {
    && OutboxOk(s)
    && StillOrdered(s.rows, order, time)
    && Tried(s.rows, order, c)
    && Fair(s, order)
  }

  // ---- Counting ----

  ghost function Slice(order: seq<int>, lo: nat, hi: nat): set<int>
    requires lo <= hi <= |order|
  {
    set i | lo <= i < hi :: order[i]
  }

  lemma {:induction false} SliceIsSmall(order: seq<int>, lo: nat, hi: nat)
    requires lo <= hi <= |order|
    ensures |Slice(order, lo, hi)| <= hi - lo
  {
    if lo < hi {
      SliceIsSmall(order, lo, hi - 1);
      assert Slice(order, lo, hi) == Slice(order, lo, hi - 1) + {order[hi - 1]};
    }
  }

  lemma {:induction false} DistinctFillsItsSet(batch: seq<int>, n: nat)
    requires n <= |batch| && Distinct(batch)
    ensures |Slice(batch, 0, n)| == n
  {
    if n > 0 {
      DistinctFillsItsSet(batch, n - 1);
      assert Slice(batch, 0, n) == Slice(batch, 0, n - 1) + {batch[n - 1]};
      assert batch[n - 1] !in Slice(batch, 0, n - 1);
    }
  }

  /** Once every earlier block of fifty is settled, a row is in the batch: otherwise fifty eligible
      rows, all of its own block, would be older than it. */
  lemma RowIsInTheBatch(s: Outbox, tick: nat, order: seq<int>, time: int, c: nat, j: nat)
    requires Draining(s, order, time, c) && PhaseOf(s, tick).Working?
    requires j < |order| && Eligible(s.rows[order[j]]) && c >= Before(j)
    ensures order[j] in PhaseOf(s, tick).batch
  {
    var w := PhaseOf(s, tick);
    assert tick in s.lock && WorkingOk(s.rows, w);
    if order[j] !in w.batch {
      assert PassedOver(s.rows, w.batch, order[j]);
      var lo := BATCH_SIZE * (j / BATCH_SIZE);
      forall b | b in Slice(w.batch, 0, |w.batch|) ensures b in Slice(order, lo, j) {
        assert b in w.batch;
        OlderEligibleRowsAreInTheBlock(s, order, time, c, j, b);
      }
      DistinctFillsItsSet(w.batch, |w.batch|);
      SliceIsSmall(order, lo, j);
      SubsetIsNoLarger(Slice(w.batch, 0, |w.batch|), Slice(order, lo, j));
    }
  }

  lemma OlderEligibleRowsAreInTheBlock(s: Outbox, order: seq<int>, time: int, c: nat, j: nat, b: int)
    requires Draining(s, order, time, c)
    requires j < |order| && c >= Before(j) && b != order[j]
    requires b in s.rows && Eligible(s.rows[b]) && s.rows[b].createdAt <= s.rows[order[j]].createdAt
    ensures b in Slice(order, BATCH_SIZE * (j / BATCH_SIZE), j)
  {
    assert b in order;
    var i :| 0 <= i < |order| && order[i] == b;
    assert RowOk(s.rows[b]);
    if i < BATCH_SIZE * (j / BATCH_SIZE) {
      EarlierBlock(i, j);
    }
  }

  lemma EarlierBlock(i: nat, j: nat)
    requires i < BATCH_SIZE * (j / BATCH_SIZE)
    ensures Before(i) + 5 <= Before(j)
  {
  }

  // ---- One event ----

  lemma CommitDrains(s: Outbox, tick: nat, order: seq<int>, time: int, c: nat)
    requires Draining(s, order, time, c) && Commits(s, tick)
    ensures Draining(Apply(s, Commit(tick)), order, time, c + 1)
  {
    var w := PhaseOf(s, tick);
    var s' := Apply(s, Commit(tick));
    assert tick in s.lock && WorkingOk(s.rows, w);
    ApplyKeepsOutboxOk(s, Commit(tick));
    MarkFirstRows(s.rows, w.batch, w.marks, |w.batch|);
    assert w.batch[..|w.batch|] == w.batch;
    forall id | id in s.rows ensures id in s'.rows && s'.rows[id].createdAt == s.rows[id].createdAt
      ensures Eligible(s'.rows[id]) ==>
                && Eligible(s.rows[id])
                && s'.rows[id].retryCount == s.rows[id].retryCount + if id in w.batch then 1 else 0 {
      if id in w.batch {
        var i :| 0 <= i < |w.batch| && w.batch[i] == id;
        MarkedIsOk(s.rows[id], w.marks[i]);
      }
    }
    forall j | 0 <= j < |order| && Eligible(s'.rows[order[j]])
      ensures s'.rows[order[j]].retryCount >= c + 1 - Before(j) {
      assert RowOk(s'.rows[order[j]]);
      if c >= Before(j) {
        RowIsInTheBatch(s, tick, order, time, c, j);
      }
    }
    assert s'.lock == {};
  }

  lemma SelectIsFair(s: Outbox, tick: nat, batch: seq<int>, order: seq<int>, time: int, c: nat)
    requires Draining(s, order, time, c)
    ensures Draining(Apply(s, LockAndSelect(tick, batch)), order, time, c)
  {
    var s' := Apply(s, LockAndSelect(tick, batch));
    ApplyKeepsOutboxOk(s, LockAndSelect(tick, batch));
    assert s'.rows == s.rows;
    assert forall t | t in s.lock :: PhaseOf(s, t).Working? && PhaseOf(s', t) == PhaseOf(s, t);
  }

  lemma OtherEventsDrain(s: Outbox, e: Event, order: seq<int>, time: int, c: nat)
    requires Draining(s, order, time, c) && !e.LockAndSelect?
    requires e.Enqueue? ==> e.createdAt > time
    requires e.Commit? ==> !Commits(s, e.tick)
    ensures Draining(Apply(s, e), order, time, c)
  {
    var s' := Apply(s, e);
    ApplyKeepsOutboxOk(s, e);
    forall id | id in s.rows ensures id in s'.rows && s'.rows[id] == s.rows[id] {
    }
    forall t, j | t in s'.lock && PhaseOf(s', t).Working? && 0 <= j < |order| && order[j] in s'.rows
      ensures Eligible(s'.rows[order[j]]) && order[j] !in PhaseOf(s', t).batch ==>
                PassedOver(s'.rows, PhaseOf(s', t).batch, order[j]) {
      assert t in s.lock && PhaseOf(s, t).Working? && PhaseOf(s', t).batch == PhaseOf(s, t).batch;
      assert order[j] in s.rows;
    }
  }

  lemma EventDrains(s: Outbox, e: Event, order: seq<int>, time: int, c: nat)
    requires Draining(s, order, time, c) && (e.Enqueue? ==> e.createdAt > time)
    ensures Draining(Apply(s, e), order, time, c + if CommitsNow(s, e) then 1 else 0)
  {
    if CommitsNow(s, e) {
      CommitDrains(s, e.tick, order, time, c);
    } else if e.LockAndSelect? {
      SelectIsFair(s, e.tick, e.batch, order, time, c);
    } else {
      OtherEventsDrain(s, e, order, time, c);
    }
  }

  lemma NextDrains(s: Outbox, events: seq<Event>, n: nat, order: seq<int>, time: int)
    requires n < |events| && (events[n].Enqueue? ==> events[n].createdAt > time)
    requires Draining(After(s, events, n), order, time, CommittedTicks(s, events, n))
    ensures Draining(After(s, events, n + 1), order, time, CommittedTicks(s, events, n + 1))
  {
    EventDrains(After(s, events, n), events[n], order, time, CommittedTicks(s, events, n));
  }

  lemma {:induction false} RunDrains(s: Outbox, events: seq<Event>, n: nat, order: seq<int>, time: int)
    requires n <= |events| && Draining(s, order, time, 0) && EnqueuesAfter(events, time)
    ensures Draining(After(s, events, n), order, time, CommittedTicks(s, events, n))
  {
    if n > 0 {
      RunDrains(s, events, n - 1, order, time);
      NextDrains(s, events, n - 1, order, time);
    } else {
      assert After(s, events, 0) == s && CommittedTicks(s, events, 0) == 0;
    }
  }

  lemma StartsDraining(s: Outbox, order: seq<int>, time: int)
    requires OutboxOk(s) && s.lock == {} && AgeOrder(s.rows, order)
    requires forall id | id in s.rows :: s.rows[id].createdAt <= time
    ensures Draining(s, order, time, 0)
  {
    forall j | 0 <= j < |order|
      ensures order[j] in s.rows && s.rows[order[j]].retryCount >= 0 && s.rows[order[j]].createdAt <= time {
      var id := order[j];
      assert id in s.rows && RowOk(s.rows[id]);
    }
  }

  lemma CountIsEnough(s: Outbox, order: seq<int>, time: int, c: nat, j: nat)
    requires Draining(s, order, time, c) && j < |order| && c >= Before(j) + 5
    ensures order[j] in s.rows && (s.rows[order[j]].status == Sent || s.rows[order[j]].status == Dead)
  {
    var id := order[j];
    assert id in s.rows && RowOk(s.rows[id]);
  }

  // ---- The bound ----

  /** From any state with no tick at work, the row with j older eligible rows is sent or dead after
      5 * (j / 50 + 1) committed ticks: whatever the broker answers, however many ticks are rolled
      back in between, and however many younger rows arrive. */
  lemma RowDrains(s: Outbox, events: seq<Event>, n: nat, order: seq<int>, time: int, j: nat)
    requires OutboxOk(s) && s.lock == {} && AgeOrder(s.rows, order)
    requires forall id | id in s.rows :: s.rows[id].createdAt <= time
    requires n <= |events| && EnqueuesAfter(events, time)
    requires j < |order| && CommittedTicks(s, events, n) >= 5 * (j / BATCH_SIZE + 1)
    ensures order[j] in After(s, events, n).rows
    ensures var r := After(s, events, n).rows[order[j]]; r.status == Sent || r.status == Dead
  {
    StartsDraining(s, order, time);
    RunDrains(s, events, n, order, time);
    CountIsEnough(After(s, events, n), order, time, CommittedTicks(s, events, n), j);
  }

  /** With k eligible rows and none enqueued meanwhile, 5 * ceil(k / 50) committed ticks settle all. */
  lemma OutboxDrains(s: Outbox, events: seq<Event>, n: nat, order: seq<int>, id: int)
    requires OutboxOk(s) && s.lock == {} && AgeOrder(s.rows, order)
    requires n <= |events| && forall i | 0 <= i < |events| :: !events[i].Enqueue?
    requires CommittedTicks(s, events, n) >= 5 * ((|order| + 49) / 50)
    requires id in s.rows
    ensures After(s, events, n).rows.Keys == s.rows.Keys
    ensures var r := After(s, events, n).rows[id]; r.status == Sent || r.status == Dead
  {
    RunKeepsOutboxOk(s, events, n);
    NoNewRows(s, events, n);
    assert RowOk(After(s, events, n).rows[id]) && RowOk(s.rows[id]);
    if Eligible(s.rows[id]) {
      var time := Newest(s.rows, s.rows.Keys);
      var j :| 0 <= j < |order| && order[j] == id;
      assert j / BATCH_SIZE + 1 <= (|order| + BATCH_SIZE - 1) / BATCH_SIZE;
      RowDrains(s, events, n, order, time, j);
    } else {
      SettledIsForever(s, events, n, id, s.rows[id]);
    }
  }

  lemma {:induction false} NoNewRows(s: Outbox, events: seq<Event>, n: nat)
    requires OutboxOk(s) && n <= |events| && forall i | 0 <= i < |events| :: !events[i].Enqueue?
    ensures After(s, events, n).rows.Keys == s.rows.Keys
  {
    if n > 0 {
      NoNewRows(s, events, n - 1);
      RunKeepsOutboxOk(s, events, n - 1);
      var s1, e := After(s, events, n - 1), events[n - 1];
      if e.Commit? && Commits(s1, e.tick) {
        var w := PhaseOf(s1, e.tick);
        MarkFirstKeys(s1.rows, w.batch, w.marks, |w.batch|);
      }
    }
  }

  lemma Newest(t: Table, ids: set<int>) returns (time: int)
    requires ids <= t.Keys
    ensures forall id | id in ids :: t[id].createdAt <= time
  {
    if id :| id in ids {
      time := Newest(t, ids - {id});
      if time < t[id].createdAt {
        time := t[id].createdAt;
      }
    } else {
      time := 0;
    }
  }

  // ---- The potential ----

  /** Attempts that a row may still make, five when it is new. */
  function Left(t: Table, id: int): int {
    if id in t && Eligible(t[id]) then MAX_RETRY - t[id].retryCount else 0
  }

  function AttemptsLeft(t: Table, ids: seq<int>, n: nat): int
    requires n <= |ids|
  {
    if n == 0 then 0 else AttemptsLeft(t, ids, n - 1) + Left(t, ids[n - 1])
  }

  lemma TriedRowLosesOne(t: Table, batch: seq<int>, acks: seq<bool>, id: int)
    requires TableOk(t) && Selects(t, batch) && |acks| == |batch|
    ensures Left(MarkFirst(t, batch, acks, |batch|), id) <= Left(t, id) - if id in batch then 1 else 0
  {
    MarkFirstRows(t, batch, acks, |batch|);
    assert batch[..|batch|] == batch;
    if id in batch {
      var i :| 0 <= i < |batch| && batch[i] == id;
      MarkedIsOk(t[id], acks[i]);
    }
  }

  lemma {:induction false} EachTriedRowLosesOne(t: Table, batch: seq<int>, acks: seq<bool>, ids: seq<int>, n: nat)
    requires TableOk(t) && Selects(t, batch) && |acks| == |batch| && Distinct(ids) && n <= |ids|
    ensures AttemptsLeft(MarkFirst(t, batch, acks, |batch|), ids, n) <=
            AttemptsLeft(t, ids, n) - |Slice(ids, 0, n) * Slice(batch, 0, |batch|)|
  {
    if n > 0 {
      EachTriedRowLosesOne(t, batch, acks, ids, n - 1);
      var id := ids[n - 1];
      TriedRowLosesOne(t, batch, acks, id);
      OneMoreInBoth(ids, n, batch);
    }
  }

  lemma OneMoreInBoth(ids: seq<int>, n: nat, batch: seq<int>)
    requires Distinct(ids) && 0 < n <= |ids|
    ensures |Slice(ids, 0, n) * Slice(batch, 0, |batch|)| ==
            |Slice(ids, 0, n - 1) * Slice(batch, 0, |batch|)| + if ids[n - 1] in batch then 1 else 0
  {
    var id, tried := ids[n - 1], Slice(batch, 0, |batch|);
    assert Slice(ids, 0, n) == Slice(ids, 0, n - 1) + {id} && id !in Slice(ids, 0, n - 1);
    if id in batch {
      assert id in tried;
      assert Slice(ids, 0, n) * tried == Slice(ids, 0, n - 1) * tried + {id};
    } else {
      assert Slice(ids, 0, n) * tried == Slice(ids, 0, n - 1) * tried;
    }
  }

  /** Every committed tick uses up at least one attempt of each row it takes, and it takes fifty or
      all there are. */
  lemma EveryTickUsesAttempts(t: Table, batch: seq<int>, acks: seq<bool>, ids: seq<int>)
    requires TableOk(t) && Selects(t, batch) && |acks| == |batch|
    requires Distinct(ids) && forall id | id in t :: id in ids
    ensures AttemptsLeft(MarkFirst(t, batch, acks, |batch|), ids, |ids|) <= AttemptsLeft(t, ids, |ids|) - |batch|
    ensures |batch| == BATCH_SIZE || forall id | id in t && Eligible(t[id]) :: id in batch
  {
    EachTriedRowLosesOne(t, batch, acks, ids, |ids|);
    DistinctFillsItsSet(batch, |batch|);
    assert Slice(ids, 0, |ids|) * Slice(batch, 0, |batch|) == Slice(batch, 0, |batch|);
  }

  /** While no row is added, the batch of a tick at work stays what the query would answer: only the
      holder of the lock changes rows, and only by committing. */
  ghost predicate SelectionStands(s: Outbox) {
    forall t | PhaseOf(s, t).Working? :: Selects(s.rows, PhaseOf(s, t).batch)
  }

  lemma NobodyWorksAfterCommit(s: Outbox, tick: nat, t: nat)
    requires OutboxOk(s) && Commits(s, tick)
    ensures !PhaseOf(Apply(s, Commit(tick)), t).Working?
  {
    assert tick in s.lock;
    assert PhaseOf(s, t).Working? ==> t in s.lock;
  }

  lemma EventKeepsSelection(s: Outbox, e: Event)
    requires OutboxOk(s) && SelectionStands(s) && !e.Enqueue?
    ensures SelectionStands(Apply(s, e))
  {
    var s' := Apply(s, e);
    if e.Commit? && Commits(s, e.tick) {
      forall t ensures !PhaseOf(s', t).Working? { NobodyWorksAfterCommit(s, e.tick, t); }
    } else {
      forall t | PhaseOf(s', t).Working? ensures Selects(s'.rows, PhaseOf(s', t).batch) {
        assert PhaseOf(s, t).Working? ==> Selects(s.rows, PhaseOf(s, t).batch);
      }
    }
  }

  lemma {:induction false} RunKeepsSelection(s: Outbox, events: seq<Event>, n: nat)
    requires OutboxOk(s) && s.lock == {} && n <= |events| && forall i | 0 <= i < |events| :: !events[i].Enqueue?
    ensures SelectionStands(After(s, events, n))
  {
    if n > 0 {
      RunKeepsSelection(s, events, n - 1);
      RunKeepsOutboxOk(s, events, n - 1);
      EventKeepsSelection(After(s, events, n - 1), events[n - 1]);
    }
  }

  lemma CommitUsesAttempts(s: Outbox, tick: nat, ids: seq<int>)
    requires OutboxOk(s) && SelectionStands(s) && Commits(s, tick)
    requires Distinct(ids) && forall id | id in s.rows :: id in ids
    ensures var batch := PhaseOf(s, tick).batch;
            && AttemptsLeft(Apply(s, Commit(tick)).rows, ids, |ids|) <= AttemptsLeft(s.rows, ids, |ids|) - |batch|
            && |batch| <= 50
            && (|batch| == BATCH_SIZE || forall id | id in s.rows && Eligible(s.rows[id]) :: id in batch)
  {
    var w := PhaseOf(s, tick);
    EveryTickUsesAttempts(s.rows, w.batch, w.marks, ids);
  }

  /** In every run without new rows, each tick that commits uses up at least one attempt of each row it
      has taken, and it has taken fifty or all that were pending. */
  lemma EveryCommitUsesAttempts(s: Outbox, events: seq<Event>, n: nat, ids: seq<int>)
    requires OutboxOk(s) && s.lock == {} && 0 < n <= |events|
    requires forall i | 0 <= i < |events| :: !events[i].Enqueue?
    requires CommitsNow(After(s, events, n - 1), events[n - 1])
    requires Distinct(ids) && forall id | id in s.rows :: id in ids
    ensures var before, after := After(s, events, n - 1), After(s, events, n);
            var batch := PhaseOf(before, events[n - 1].tick).batch;
            && AttemptsLeft(after.rows, ids, |ids|) <= AttemptsLeft(before.rows, ids, |ids|) - |batch|
            && |batch| <= 50
            && (|batch| == 50 || forall id | id in before.rows && Eligible(before.rows[id]) :: id in batch)
  {
    var before := After(s, events, n - 1);
    RunKeepsOutboxOk(s, events, n - 1);
    RunKeepsSelection(s, events, n - 1);
    NoNewRows(s, events, n - 1);
    forall id | id in before.rows ensures id in ids { assert id in s.rows; }
    CommitUsesAttempts(before, events[n - 1].tick, ids);
  }
}
