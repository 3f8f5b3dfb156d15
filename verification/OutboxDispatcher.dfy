/** Retry and dead-letter policy of the outbox. */
module OutboxPolicy {
  /** Pending 0, sent 1, failed 2, dead 3. */
  datatype RowStatus = Pending | Sent | Failed | Dead

  const MAX_RETRY := 5

  function NextStatusOnFailure(retryCountBefore: int): RowStatus {
    if retryCountBefore + 1 >= MAX_RETRY then Dead else Failed
  }
}

/** Outbox rows, the dispatcher's query, and the effect of one committed tick. */
module OutboxRows {
  import opened OutboxPolicy

  datatype Row = Row(createdAt: int, status: RowStatus, retryCount: int)

  type Table = map<int, Row>

  const BATCH_SIZE := 50

  predicate Eligible(r: Row) {
    r.status == Pending || (r.status == Failed && r.retryCount < MAX_RETRY)
  }

  ghost predicate Distinct(ids: seq<int>) {
    forall i, j | 0 <= i < j < |ids| :: ids[i] != ids[j]
  }

  /** An answer the database may give to the dispatcher's SELECT: eligible rows, oldest first, at
      most fifty, and fewer only if there are no more. Equal ages may come in any order. */
  ghost predicate Selects(t: Table, batch: seq<int>) {
    && Distinct(batch)
    && (forall id | id in batch :: id in t && Eligible(t[id]))
    && |batch| <= BATCH_SIZE
    && (forall i, j | 0 <= i < j < |batch| :: t[batch[i]].createdAt <= t[batch[j]].createdAt)
    && (forall id | id in t && Eligible(t[id]) && id !in batch :: PassedOver(t, batch, id))
  }

  /** The row was left out because fifty rows at least as old were taken. */
  ghost predicate PassedOver(t: Table, batch: seq<int>, id: int)
    requires id in t
  {
    && |batch| == BATCH_SIZE
    && (forall b | b in batch :: b in t && t[b].createdAt <= t[id].createdAt)
  }

  function Marked(r: Row, ok: bool): Row {
    if ok then r.(status := Sent)
    else r.(status := NextStatusOnFailure(r.retryCount), retryCount := r.retryCount + 1)
  }

  /** A row before and after one attempt to publish it: sent, or one failure more and dead with the fifth. */
  ghost predicate Attempted(r: Row, r': Row, ok: bool) {
    && r'.createdAt == r.createdAt
    && (ok ==> r'.status == Sent && r'.retryCount == r.retryCount)
    && (!ok ==> r'.retryCount == r.retryCount + 1 && r'.status == if r'.retryCount >= 5 then Dead else Failed)
  }

  /** The table after the updates for the first n rows of the batch. */
  function MarkFirst(t: Table, batch: seq<int>, acks: seq<bool>, n: nat): Table
    requires n <= |batch| && n <= |acks|
  {
    if n == 0 then t
    else
      var t' := MarkFirst(t, batch, acks, n - 1);
      var id := batch[n - 1];
      if id in t' then t'[id := Marked(t'[id], acks[n - 1])] else t'
  }

  ghost predicate RowOk(r: Row) {
    && 0 <= r.retryCount <= MAX_RETRY
    && (r.status == Pending ==> r.retryCount == 0)
    && (r.status == Failed ==> 1 <= r.retryCount <= 4)
    && (r.status == Dead <==> r.retryCount == MAX_RETRY)
  }

  ghost predicate TableOk(t: Table) { forall id | id in t :: RowOk(t[id]) }

  lemma MarkedIsOk(r: Row, ok: bool)
    requires RowOk(r) && Eligible(r)
    ensures RowOk(Marked(r, ok)) && Marked(r, ok).createdAt == r.createdAt
    ensures Eligible(Marked(r, ok)) ==> Marked(r, ok).retryCount == r.retryCount + 1
  {
  }

  lemma {:induction false} MarkFirstKeys(t: Table, batch: seq<int>, acks: seq<bool>, n: nat)
    requires n <= |batch| && n <= |acks|
    ensures MarkFirst(t, batch, acks, n).Keys == t.Keys
  {
    if n > 0 {
      MarkFirstKeys(t, batch, acks, n - 1);
    }
  }

  /** A batch of distinct rows is marked row by row: each by its own answer, the others not at all. */
  lemma {:induction false} MarkFirstRows(t: Table, batch: seq<int>, acks: seq<bool>, n: nat)
    requires n <= |batch| && n <= |acks| && Distinct(batch)
    requires forall id | id in batch :: id in t
    ensures var t' := MarkFirst(t, batch, acks, n);
            && t'.Keys == t.Keys
            && (forall i | 0 <= i < n :: t'[batch[i]] == Marked(t[batch[i]], acks[i]))
            && (forall id | id in t && id !in batch[..n] :: t'[id] == t[id])
  {
    if n > 0 {
      MarkFirstRows(t, batch, acks, n - 1);
      var id := batch[n - 1];
      assert batch[..n] == batch[..n - 1] + [id];
      assert id in batch && id !in batch[..n - 1];
    }
  }

  lemma MarkedIsAttempted(r: Row, ok: bool)
    ensures Attempted(r, Marked(r, ok), ok)
  {
  }

  /** The same in numbers: each row of the batch has had its attempt, no other row is touched. */
  lemma BatchIsAttempted(t: Table, batch: seq<int>, acks: seq<bool>)
    requires |acks| == |batch| && Distinct(batch) && forall id | id in batch :: id in t
    ensures var t' := MarkFirst(t, batch, acks, |batch|);
            && t'.Keys == t.Keys
            && (forall i | 0 <= i < |batch| :: Attempted(t[batch[i]], t'[batch[i]], acks[i]))
            && (forall id | id in t && id !in batch :: t'[id] == t[id])
  {
    MarkFirstRows(t, batch, acks, |batch|);
    assert batch[..|batch|] == batch;
    forall i | 0 <= i < |batch|
      ensures Attempted(t[batch[i]], MarkFirst(t, batch, acks, |batch|)[batch[i]], acks[i]) {
      MarkedIsAttempted(t[batch[i]], acks[i]);
    }
  }

  lemma CommitKeepsTableOk(t: Table, batch: seq<int>, acks: seq<bool>)
    requires TableOk(t) && Distinct(batch) && |acks| == |batch|
    requires forall id | id in batch :: id in t && Eligible(t[id])
    ensures TableOk(MarkFirst(t, batch, acks, |batch|))
  {
    MarkFirstRows(t, batch, acks, |batch|);
    var t' := MarkFirst(t, batch, acks, |batch|);
    forall id | id in t' ensures RowOk(t'[id]) {
      if id in batch {
        var i :| 0 <= i < |batch| && batch[i] == id;
        MarkedIsOk(t[id], acks[i]);
      } else {
        assert batch[..|batch|] == batch;
      }
    }
  }
}

/** The dispatcher of one instance: a tick, as the coroutine runs it. */
module OutboxDispatcher {
  import opened OutboxPolicy
  import opened OutboxRows

  class Dispatcher {
    var running: bool
    var rows: Table
    var copies: multiset<int>  // messages handed to the broker, by outbox row

    constructor (rows: Table)
      ensures !running && this.rows == rows && copies == multiset{}
    {
      running, this.rows, copies := false, rows, multiset{};
    }

    /** The UPDATE of one row after its publish. */
    method MarkRow(id: int, ok: bool)
      requires id in rows
      modifies `rows
      ensures rows == old(rows)[id := Marked(old(rows)[id], ok)]
      ensures Attempted(old(rows)[id], rows[id], ok)
    {
      if ok {
        rows := rows[id := rows[id].(status := Sent)];
      } else {
        var newStatus := NextStatusOnFailure(rows[id].retryCount);
        rows := rows[id := rows[id].(status := newStatus, retryCount := rows[id].retryCount + 1)];
      }
    }

    /** The loop over the selected rows; the update of row failing, if there is one, throws. */
    method Dispatch(batch: seq<int>, acks: seq<bool>, failing: nat) returns (done: bool)
      requires |acks| == |batch| && forall id | id in batch :: id in rows
      modifies `rows, `copies
      ensures done == (failing >= |batch|)
      ensures rows == MarkFirst(old(rows), batch, acks, if done then |batch| else failing)
      ensures copies == old(copies) + Published(batch, acks, if done then |batch| else failing + 1)
    {
      var i := 0;
      while i < |batch|
        invariant i <= |batch| && i <= failing
        invariant rows == MarkFirst(old(rows), batch, acks, i)
        invariant copies == old(copies) + Published(batch, acks, i)
      {
        var id := batch[i];
        assert id in batch;
        if acks[i] {
          copies := copies + multiset{id};
        }
        if i == failing {
          return false;
        }
        MarkFirstKeys(old(rows), batch, acks, i);
        MarkRow(id, acks[i]);
        i := i + 1;
      }
      return true;
    }

    /** One tick that finds the advisory lock free or taken. The database answers the query with
        batch, the broker answers publish i with acks[i], and the commit may fail. Whatever happens,
        the running flag is down afterwards, and a tick that does not commit leaves the rows alone. */
    method Tick(lockFree: bool, batch: seq<int>, acks: seq<bool>, failing: nat, committed: bool)
      requires Selects(rows, batch) && |acks| == |batch|
      modifies this
      ensures old(running) ==> running && rows == old(rows) && copies == old(copies)
      ensures !old(running) ==> !running
      ensures !old(running) && lockFree && failing >= |batch| && committed ==>
                && rows.Keys == old(rows).Keys
                && (forall i | 0 <= i < |batch| ::
                      batch[i] in rows && Attempted(old(rows)[batch[i]], rows[batch[i]], acks[i]))
                && forall id | id in rows && id !in batch :: rows[id] == old(rows)[id]
      ensures rows == if !old(running) && lockFree && failing >= |batch| && committed
                      then MarkFirst(old(rows), batch, acks, |batch|) else old(rows)
      ensures copies == if old(running) || !lockFree then old(copies)
                        else old(copies) + Published(batch, acks, if failing < |batch| then failing + 1 else |batch|)
    {
      if running {
        return;  // the previous tick has not finished
      }
      running := true;
      if lockFree {
        var before := rows;
        var done := Dispatch(batch, acks, failing);
        BatchIsAttempted(before, batch, acks);
        if !done || !committed {
          rows := before;
        }
      }
      running := false;
    }
  }

  /** The rows among the first n of the batch that the broker accepted. */
  function Published(batch: seq<int>, acks: seq<bool>, n: nat): multiset<int>
    requires n <= |batch| && n <= |acks|
  {
    if n == 0 then multiset{}
    else Published(batch, acks, n - 1) + if acks[n - 1] then multiset{batch[n - 1]} else multiset{}
  }
}
