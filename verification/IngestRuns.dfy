/** Every interleaving of the consumer loop with the database callbacks, within one channel lifetime. */
module IngestRuns {
  import opened Results
  import opened IngestMessages
  import opened IngestQueues
  import opened Counting

  // ---- The machine ----

  /** Where the consumer thread is in its loop. */
  datatype Point = Draining | Consuming | Flushing(got: bool)

  datatype Machine = Machine(s: Ingest, at: Point)

  datatype Event =
    | Drain
    | Receive(delivery: Delivery)
    | TimeOut
    | Check(windowElapsed: bool)
    | InsertOk(batch: nat)
    | InsertFailed(batch: nat)
    | Register(batch: nat)

  function Start(): Machine { Machine(Empty(), Draining) }

  predicate Answerable(s: Ingest, b: nat) { b < |s.batches| && s.batches[b].phase == Running }

  predicate Registrable(s: Ingest, b: nat) {
    b < |s.batches| && s.batches[b].phase != Running && s.batches[b].dels != []
  }

  predicate Enabled(m: Machine, e: Event) {
    match e
    case Drain => m.at == Draining
    case Receive(_) => m.at == Consuming
    case TimeOut => m.at == Consuming
    case Check(_) => m.at.Flushing?
    case InsertOk(b) => Answerable(m.s, b)
    case InsertFailed(b) => Answerable(m.s, b)
    case Register(b) => Registrable(m.s, b)
  }

  /** One atomic step; an event that is not enabled leaves everything as it is. */
  function Apply(m: Machine, e: Event): Machine {
    if !Enabled(m, e) then m
    else
      match e
      case Drain => Machine(Drained(m.s), Consuming)
      case Receive(d) => Machine(Received(m.s, d), Flushing(true))
      case TimeOut => Machine(m.s, Flushing(false))
      case Check(elapsed) => Machine(if MustFlush(m.s, elapsed, m.at.got) then Flushed(m.s) else m.s, Draining)
      case InsertOk(b) => m.(s := Stored(m.s, b))
      case InsertFailed(b) => m.(s := Refused(m.s, b))
      case Register(b) => m.(s := Registered(m.s, b))
  }

  function After(events: seq<Event>, n: nat): Machine
    requires n <= |events|
  {
    if n == 0 then Start() else Apply(After(events, n - 1), events[n - 1])
  }

  // ---- Where the deliveries are ----

  /** Entries for tag t among the first n: all of them, or those to ack only. */
  ghost function AnswersOf(entries: seq<Entry>, n: nat, t: nat, ackOnly: bool): nat
    requires n <= |entries|
  {
    if n == 0 then 0 else AnswersOf(entries, n - 1, t, ackOnly) + AnswerOf(entries[n - 1], t, ackOnly)
  }

  ghost function AnswerOf(e: Entry, t: nat, ackOnly: bool): nat {
    if e.tag == t && (ackOnly ==> e.verdict == Acked) then 1 else 0
  }

  /** How often the first n batches hold tag t: all of them, or those stored only. */
  ghost function HeldBy(batches: seq<Batch>, n: nat, t: nat, storedOnly: bool): nat
    requires n <= |batches|
  {
    if n == 0 then 0 else HeldBy(batches, n - 1, t, storedOnly) + HeldIn(batches[n - 1], t, storedOnly)
  }

  ghost function HeldIn(b: Batch, t: nat, storedOnly: bool): nat {
    if storedOnly && b.phase != Inserted then 0 else Copies(b.dels, t)
  }

  ghost function Answers(entries: seq<Entry>, t: nat, ackOnly: bool): nat {
    AnswersOf(entries, |entries|, t, ackOnly)
  }

  /** The places where delivery t is: the buffer, a batch in flight, the ack queue, settled. */
  ghost function Places(s: Ingest, t: nat): nat {
    Copies(s.dels, t) + HeldBy(s.batches, |s.batches|, t, false)
      + Answers(s.ackQueue, t, false) + Answers(s.settled, t, false)
  }

  /** Those of them that a stored row leads to: a batch inserted, an ack queued, an ack given. */
  ghost function StoredPlaces(s: Ingest, t: nat): nat {
    HeldBy(s.batches, |s.batches|, t, true) + Answers(s.ackQueue, t, true) + Answers(s.settled, t, true)
  }

  // ---- The invariant ----

  /** Every delivery is in exactly one place, and its row is stored exactly if that place says so. */
  ghost predicate TagOk(s: Ingest, t: nat) {
    Places(s, t) == (if t < |s.log| then 1 else 0) && Copies(s.stored, t) == StoredPlaces(s, t)
  }

  ghost predicate Conserved(s: Ingest) { forall t: nat :: TagOk(s, t) }

  /** Row i is the row of delivery tags[i]. */
  ghost predicate Aligned(log: seq<Delivery>, rows: seq<Sample>, tags: seq<nat>) {
    |rows| == |tags| && forall i | 0 <= i < |tags| :: tags[i] < |log| && RowOf(log[tags[i]]) == Some(rows[i])
  }

  ghost predicate BatchOk(log: seq<Delivery>, b: Batch) {
    && (forall i | 0 <= i < |b.dels| :: b.dels[i] < |log| && RowOf(log[b.dels[i]]).Some?)
    && (b.phase == Running ==> Aligned(log, b.rows, b.dels) && 1 <= |b.dels| <= BATCH_ROWS)
  }

  /** Valid deliveries are acked or requeued, invalid ones republished or, with no retry left,
      dead-lettered. */
  ghost predicate EntryOk(log: seq<Delivery>, e: Entry) {
    && e.tag < |log|
    && (RowOf(log[e.tag]).Some? <==> e.verdict == Acked || e.verdict == Requeued)
    && (e.verdict == DeadLettered ==> RetryCount(log[e.tag].message) >= MAX_RETRY)
    && (e.verdict == Republished ==> RetryCount(log[e.tag].message) < MAX_RETRY)
  }

  ghost predicate EntriesOk(log: seq<Delivery>, entries: seq<Entry>) {
    forall i | 0 <= i < |entries| :: EntryOk(log, entries[i])
  }

  ghost predicate BatchesOk(log: seq<Delivery>, batches: seq<Batch>) {
    forall b | 0 <= b < |batches| :: BatchOk(log, batches[b])
  }

  ghost predicate WellPlaced(s: Ingest) {
    && Aligned(s.log, s.rows, s.dels)
    && Aligned(s.log, s.table, s.stored)
    && BatchesOk(s.log, s.batches) && EntriesOk(s.log, s.ackQueue) && EntriesOk(s.log, s.settled)
  }

  /** The buffer never holds more than a batch, and a full batch only between receiving and flushing. */
  ghost predicate BufferOk(m: Machine) {
    |m.s.dels| == |m.s.rows| && |m.s.rows| <= BATCH_ROWS && (!m.at.Flushing? ==> |m.s.rows| < BATCH_ROWS)
  }

  ghost predicate MachineOk(m: Machine) { Conserved(m.s) && WellPlaced(m.s) && BufferOk(m) }

  // ---- Counting lemmas ----

  lemma {:induction false} AnswersOfPrefix(p: seq<Entry>, q: seq<Entry>, n: nat, t: nat, ackOnly: bool)
    requires n <= |p|
    ensures AnswersOf(p + q, n, t, ackOnly) == AnswersOf(p, n, t, ackOnly)
  {
    if n > 0 {
      AnswersOfPrefix(p, q, n - 1, t, ackOnly);
    }
  }

  lemma {:induction false} AnswersOfJoined(p: seq<Entry>, q: seq<Entry>, n: nat, t: nat, ackOnly: bool)
    requires n <= |q|
    ensures AnswersOf(p + q, |p| + n, t, ackOnly) == Answers(p, t, ackOnly) + AnswersOf(q, n, t, ackOnly)
  {
    if n == 0 {
      AnswersOfPrefix(p, q, |p|, t, ackOnly);
    } else {
      AnswersOfJoined(p, q, n - 1, t, ackOnly);
      assert (p + q)[|p| + n - 1] == q[n - 1];
    }
  }

  lemma AnswersJoined(p: seq<Entry>, q: seq<Entry>, t: nat, ackOnly: bool)
    ensures Answers(p + q, t, ackOnly) == Answers(p, t, ackOnly) + Answers(q, t, ackOnly)
  {
    AnswersOfJoined(p, q, |q|, t, ackOnly);
  }

  lemma AnswersAdded(p: seq<Entry>, e: Entry, t: nat, ackOnly: bool)
    ensures Answers(p + [e], t, ackOnly) == Answers(p, t, ackOnly) + AnswerOf(e, t, ackOnly)
  {
    AnswersOfPrefix(p, [e], |p|, t, ackOnly);
  }

  lemma {:induction false} HeldUpdated(batches: seq<Batch>, b: nat, x: Batch, n: nat, t: nat, storedOnly: bool)
    requires b < |batches| && n <= |batches|
    ensures HeldBy(batches[b := x], n, t, storedOnly) ==
            HeldBy(batches, n, t, storedOnly)
              + if b < n then HeldIn(x, t, storedOnly) - HeldIn(batches[b], t, storedOnly) else 0
  {
    if n > 0 {
      HeldUpdated(batches, b, x, n - 1, t, storedOnly);
    }
  }

  lemma {:induction false} HeldPrefix(batches: seq<Batch>, x: Batch, n: nat, t: nat, storedOnly: bool)
    requires n <= |batches|
    ensures HeldBy(batches + [x], n, t, storedOnly) == HeldBy(batches, n, t, storedOnly)
  {
    if n > 0 {
      HeldPrefix(batches, x, n - 1, t, storedOnly);
    }
  }

  lemma HeldAdded(batches: seq<Batch>, x: Batch, t: nat, storedOnly: bool)
    ensures HeldBy(batches + [x], |batches| + 1, t, storedOnly) ==
            HeldBy(batches, |batches|, t, storedOnly) + HeldIn(x, t, storedOnly)
  {
    HeldPrefix(batches, x, |batches|, t, storedOnly);
  }

  // ---- Every step keeps each tag in its one place ----

  lemma DrainKeepsTag(s: Ingest, t: nat)
    requires TagOk(s, t)
    ensures TagOk(Drained(s), t)
  {
    AnswersJoined(s.settled, s.ackQueue, t, false);
    AnswersJoined(s.settled, s.ackQueue, t, true);
  }

  lemma ReceiveKeepsTag(s: Ingest, d: Delivery, t: nat)
    requires TagOk(s, t)
    ensures TagOk(Received(s, d), t)
  {
    if RowOf(d).None? {
      AnswersAdded(s.settled, Entry(|s.log|, InvalidVerdict(d.message)), t, false);
      AnswersAdded(s.settled, Entry(|s.log|, InvalidVerdict(d.message)), t, true);
    } else {
      CopiesJoined(s.dels, [|s.log|], t);
      CopiesOfOne(|s.log|, t);
    }
  }

  lemma FlushKeepsTag(s: Ingest, t: nat)
    requires TagOk(s, t) && |s.dels| == |s.rows|
    ensures TagOk(Flushed(s), t)
  {
    HeldAdded(s.batches, Batch(s.rows, s.dels, Running), t, false);
    HeldAdded(s.batches, Batch(s.rows, s.dels, Running), t, true);
  }

  lemma StoreKeepsTag(s: Ingest, b: nat, t: nat)
    requires TagOk(s, t) && Answerable(s, b)
    ensures TagOk(Stored(s, b), t)
  {
    var x := s.batches[b].(phase := Inserted);
    HeldUpdated(s.batches, b, x, |s.batches|, t, false);
    HeldUpdated(s.batches, b, x, |s.batches|, t, true);
    CopiesJoined(s.stored, x.dels, t);
  }

  lemma RefuseKeepsTag(s: Ingest, b: nat, t: nat)
    requires TagOk(s, t) && Answerable(s, b)
    ensures TagOk(Refused(s, b), t)
  {
    var x := s.batches[b].(phase := Failed);
    HeldUpdated(s.batches, b, x, |s.batches|, t, false);
    HeldUpdated(s.batches, b, x, |s.batches|, t, true);
  }

  lemma RegisterKeepsTag(s: Ingest, b: nat, t: nat)
    requires TagOk(s, t) && Registrable(s, b)
    ensures TagOk(Registered(s, b), t)
  {
    var batch := s.batches[b];
    var x := batch.(dels := batch.dels[1..]);
    var e := Entry(batch.dels[0], if batch.phase == Inserted then Acked else Requeued);
    assert batch.dels == [batch.dels[0]] + x.dels;
    CopiesJoined([batch.dels[0]], x.dels, t);
    CopiesOfOne(batch.dels[0], t);
    HeldUpdated(s.batches, b, x, |s.batches|, t, false);
    HeldUpdated(s.batches, b, x, |s.batches|, t, true);
    AnswersAdded(s.ackQueue, e, t, false);
    AnswersAdded(s.ackQueue, e, t, true);
  }

  lemma ApplyKeepsTag(m: Machine, e: Event, t: nat)
    requires TagOk(m.s, t) && BufferOk(m)
    ensures TagOk(Apply(m, e).s, t)
  {
    if Enabled(m, e) {
      match e
      case Drain => DrainKeepsTag(m.s, t);
      case Receive(d) => ReceiveKeepsTag(m.s, d, t);
      case TimeOut =>
      case Check(_) => FlushKeepsTag(m.s, t);
      case InsertOk(b) => StoreKeepsTag(m.s, b, t);
      case InsertFailed(b) => RefuseKeepsTag(m.s, b, t);
      case Register(b) => RegisterKeepsTag(m.s, b, t);
    }
  }

  // ---- Every step keeps rows, tags and verdicts matched ----

  lemma LogGrows(s: Ingest, d: Delivery)
    requires WellPlaced(s)
    ensures WellPlaced(s.(log := s.log + [d]))
  {
    var log := s.log + [d];
    forall b | 0 <= b < |s.batches| ensures BatchOk(log, s.batches[b]) {
      assert BatchOk(s.log, s.batches[b]);
    }
  }

  lemma BatchReplaced(log: seq<Delivery>, batches: seq<Batch>, b: nat, x: Batch)
    requires BatchesOk(log, batches) && b < |batches| && BatchOk(log, x)
    ensures BatchesOk(log, batches[b := x])
  {
  }

  lemma ReceiveKeepsPlaced(s: Ingest, d: Delivery)
    requires WellPlaced(s)
    ensures WellPlaced(Received(s, d))
  {
    LogGrows(s, d);
  }

  lemma StoreKeepsPlaced(s: Ingest, b: nat)
    requires WellPlaced(s) && Answerable(s, b)
    ensures WellPlaced(Stored(s, b))
  {
    assert BatchOk(s.log, s.batches[b]);
    BatchReplaced(s.log, s.batches, b, s.batches[b].(phase := Inserted));
  }

  lemma RefuseKeepsPlaced(s: Ingest, b: nat)
    requires WellPlaced(s) && Answerable(s, b)
    ensures WellPlaced(Refused(s, b))
  {
    assert BatchOk(s.log, s.batches[b]);
    BatchReplaced(s.log, s.batches, b, s.batches[b].(phase := Failed));
  }

  lemma RegisterKeepsPlaced(s: Ingest, b: nat)
    requires WellPlaced(s) && Registrable(s, b)
    ensures WellPlaced(Registered(s, b))
  {
    assert BatchOk(s.log, s.batches[b]);
    BatchReplaced(s.log, s.batches, b, s.batches[b].(dels := s.batches[b].dels[1..]));
  }

  lemma ApplyKeepsPlaced(m: Machine, e: Event)
    requires WellPlaced(m.s) && BufferOk(m)
    ensures WellPlaced(Apply(m, e).s)
  {
    if Enabled(m, e) {
      match e
      case Drain =>
      case Receive(d) => ReceiveKeepsPlaced(m.s, d);
      case TimeOut =>
      case Check(_) =>
      case InsertOk(b) => StoreKeepsPlaced(m.s, b);
      case InsertFailed(b) => RefuseKeepsPlaced(m.s, b);
      case Register(b) => RegisterKeepsPlaced(m.s, b);
    }
  }

  lemma ApplyKeepsMachineOk(m: Machine, e: Event)
    requires MachineOk(m)
    ensures MachineOk(Apply(m, e))
  {
    ApplyKeepsPlaced(m, e);
    forall t: nat ensures TagOk(Apply(m, e).s, t) {
      ApplyKeepsTag(m, e, t);
    }
  }

  /** In every run, whatever the broker delivers, the clock says and the database answers. */
  lemma {:induction false} EveryRunIsOk(events: seq<Event>, n: nat)
    requires n <= |events|
    ensures MachineOk(After(events, n))
  {
    if n > 0 {
      EveryRunIsOk(events, n - 1);
      ApplyKeepsMachineOk(After(events, n - 1), events[n - 1]);
    }
  }

  // ---- When the buffer is flushed ----

  /** In every run: the flush check hands over the whole buffer as one batch if it holds 500 rows, or if it
      is idle, that is, nothing arrived in this round and the window has elapsed; otherwise it keeps all. */
  lemma FlushedWhenFullOrIdle(events: seq<Event>, n: nat, windowElapsed: bool)
    requires n <= |events| && After(events, n).at.Flushing?
    ensures var m := After(events, n);
            var s, s' := m.s, Apply(m, Check(windowElapsed)).s;
            if |s.rows| == 500 || (|s.rows| > 0 && windowElapsed && !m.at.got)
            then s'.rows == [] && s'.dels == [] && s'.batches == s.batches + [Batch(s.rows, s.dels, Running)]
            else s' == s
  {
    EveryRunIsOk(events, n);
  }
}
