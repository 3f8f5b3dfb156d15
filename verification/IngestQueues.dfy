/** Where deliveries are between their arrival and their settlement, and the steps that move them. */
module IngestQueues {
  import opened IngestMessages

  const BATCH_ROWS := 500

  datatype Verdict = Acked | Requeued | Republished | DeadLettered

  datatype Entry = Entry(tag: nat, verdict: Verdict)

  datatype Phase = Running | Inserted | Failed

  /** A batch handed to the database: dels are the deliveries its callback has not yet queued. */
  datatype Batch = Batch(rows: seq<Sample>, dels: seq<nat>, phase: Phase)

  /** log holds the deliveries of this channel, indexed by tag; rows and dels are the consumer's buffer,
      ackQueue what the callbacks registered, settled the answers given to the broker, table the stored
      rows and stored the delivery each of them came from, republished the messages sent to the
      retry queue. */
  datatype Ingest = Ingest(
    log: seq<Delivery>, rows: seq<Sample>, dels: seq<nat>, batches: seq<Batch>,
    ackQueue: seq<Entry>, settled: seq<Entry>, table: seq<Sample>, stored: seq<nat>, republished: seq<Message>)

  function Empty(): Ingest { Ingest([], [], [], [], [], [], [], [], []) }

  // ---- Steps of the consumer thread ----

  function Drained(s: Ingest): Ingest { s.(settled := s.settled + s.ackQueue, ackQueue := []) }

  function InvalidVerdict(m: Message): Verdict { if RetryCount(m) >= MAX_RETRY then DeadLettered else Republished }

  function Received(s: Ingest, d: Delivery): Ingest {
    var tag := |s.log|;
    match RowOf(d)
    case Some(row) => s.(log := s.log + [d], rows := s.rows + [row], dels := s.dels + [tag])
    case None =>
      s.(log := s.log + [d],
         settled := s.settled + [Entry(tag, InvalidVerdict(d.message))],
         republished := if RetryCount(d.message) >= MAX_RETRY then s.republished
                        else s.republished + [NextTry(d.message)])
  }

  function Flushed(s: Ingest): Ingest {
    if s.rows == [] then s
    else s.(batches := s.batches + [Batch(s.rows, s.dels, Running)], rows := [], dels := [])
  }

  predicate MustFlush(s: Ingest, windowElapsed: bool, got: bool) {
    s.rows != [] && (|s.rows| >= BATCH_ROWS || (windowElapsed && !got))
  }

  // ---- Steps of the database's callback thread ----

  function Stored(s: Ingest, b: nat): Ingest
    requires b < |s.batches| && s.batches[b].phase == Running
  {
    var batch := s.batches[b];
    s.(batches := s.batches[b := batch.(phase := Inserted)],
       table := s.table + batch.rows, stored := s.stored + batch.dels)
  }

  function Refused(s: Ingest, b: nat): Ingest
    requires b < |s.batches| && s.batches[b].phase == Running
  {
    s.(batches := s.batches[b := s.batches[b].(phase := Failed)])
  }

  /** The callback registers the next delivery of its batch. */
  function Registered(s: Ingest, b: nat): Ingest
    requires b < |s.batches| && s.batches[b].phase != Running && s.batches[b].dels != []
  {
    var batch := s.batches[b];
    s.(batches := s.batches[b := batch.(dels := batch.dels[1..])],
       ackQueue := s.ackQueue + [Entry(batch.dels[0], if batch.phase == Inserted then Acked else Requeued)])
  }

  /** The callback registers its next n deliveries. */
  function RegisteredMany(s: Ingest, b: nat, n: nat): (t: Ingest)
    requires b < |s.batches| && s.batches[b].phase != Running && n <= |s.batches[b].dels|
    ensures |t.batches| == |s.batches|
    ensures t.batches[b] == s.batches[b].(dels := s.batches[b].dels[n..])
  {
    if n == 0 then s else Registered(RegisteredMany(s, b, n - 1), b)
  }
}
