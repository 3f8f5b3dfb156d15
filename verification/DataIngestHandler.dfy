/** The ingest consumer: one thread that reads, buffers, flushes and answers the broker, and the
    database callbacks that register their outcome for it. */
module DataIngestHandler {
  import opened Results
  import opened AlertRules
  import opened IngestMessages
  import opened IngestQueues

  /** What the surroundings contribute to one alert check: the clock, the snapshot of the sensors, and
      whether the broker takes an alert. */
  datatype Moment = Moment(now: int, limits: Option<map<int, Limits>>, publishOk: bool)

  function ReadingOf(row: Sample, m: Moment): Reading {
    Reading(row.deviceId, row.sensorId, if row.value.Number? then Some(row.value.num) else None,
            m.now, m.limits, m.publishOk)
  }

  class Consumer {
    // the program's own state
    var rows: seq<Sample>
    var dels: seq<nat>
    var ackQueue: seq<Entry>
    var lastAlert: map<int, int>
    // what the broker and the database have seen
    var log: seq<Delivery>
    var batches: seq<Batch>
    var settled: seq<Entry>
    var table: seq<Sample>
    var stored: seq<nat>
    var republished: seq<Message>
    var alerts: seq<Alert>

    function Contents(): Ingest
      reads this
    {
      Ingest(log, rows, dels, batches, ackQueue, settled, table, stored, republished)
    }

    constructor ()
      ensures Contents() == Empty() && lastAlert == map[] && alerts == []
    {
      rows, dels, ackQueue, lastAlert := [], [], [], map[];
      log, batches, settled, table, stored, republished, alerts := [], [], [], [], [], [], [];
    }

    /** The queue is swapped out, then answered entry by entry. */
    method DrainAcks()
      modifies `ackQueue, `settled
      ensures Contents() == Drained(old(Contents()))
    {
      var acks := ackQueue;
      ackQueue := [];
      for i := 0 to |acks|
        invariant ackQueue == [] && settled == old(settled) + acks[..i]
      {
        settled := settled + [acks[i]];
      }
      assert acks[..|acks|] == acks;
    }

    /** Republish or dead-letter a message that arrived with the given tag. */
    method HandleInvalid(tag: nat, m: Message)
      modifies `settled, `republished
      ensures settled == old(settled) + [Entry(tag, InvalidVerdict(m))]
      ensures RetryCount(m) >= MAX_RETRY ==> republished == old(republished)
      ensures RetryCount(m) < MAX_RETRY ==>
                republished == old(republished) + [Message(m.body, m.headers[RETRY_HEADER := RetryCount(m) + 1])]
    {
      var retry := RetryCount(m);
      if retry >= MAX_RETRY {
        settled := settled + [Entry(tag, DeadLettered)];
        return;
      }
      republished := republished + [Message(m.body, m.headers[RETRY_HEADER := retry + 1])];
      settled := settled + [Entry(tag, Republished)];
    }

    /** Classify the value and publish the alert unless its key was used within the window. The key is
        noted first; when the publish throws, ok is false. */
    method CheckThreshold(row: Sample, m: Moment) returns (ok: bool)
      modifies `lastAlert, `alerts
      ensures lastAlert == Noted(old(lastAlert), ReadingOf(row, m))
      ensures ok <==> m.publishOk || !Raises(old(lastAlert), ReadingOf(row, m))
      ensures alerts == old(alerts) + if Raises(old(lastAlert), ReadingOf(row, m)) && m.publishOk
                                      then [AlertOf(ReadingOf(row, m)).value] else []
    {
      var sensorKey := SensorKey(row.deviceId, row.sensorId);
      if m.limits.None? || sensorKey !in m.limits.value || !row.value.Number? {
        return true;
      }
      var crossing := Classify(m.limits.value[sensorKey], row.value.num);
      if crossing.None? {
        return true;
      }
      var dir := if crossing.value.side == Low then 1 else 0;
      var dedupKey := sensorKey * 8 + dir * 4 + (crossing.value.level - 2);
      if dedupKey in lastAlert && m.now - lastAlert[dedupKey] < WINDOW {
        return true;
      }
      lastAlert := lastAlert[dedupKey := m.now];
      if !m.publishOk {
        return false;
      }
      alerts := alerts + [Alert(row.deviceId, row.sensorId, crossing.value.side, crossing.value.level)];
      return true;
    }

    /** One delivery: an invalid one is settled at once, a valid one is checked and buffered. When the
        publish of its alert throws, ok is false: the delivery is neither buffered nor settled, and the
        channel is about to be dropped. */
    method HandleMessage(d: Delivery, m: Moment) returns (ok: bool)
      modifies this
      ensures Contents() ==
              if ok then Received(old(Contents()), d) else old(Contents()).(log := old(log) + [d])
      ensures RowOf(d).None? ==> ok && lastAlert == old(lastAlert) && alerts == old(alerts)
      ensures RowOf(d).Some? ==>
                AlertChecked(old(lastAlert), old(alerts), ReadingOf(RowOf(d).value, m), lastAlert, alerts)
      ensures RowOf(d).Some? ==> (ok <==> m.publishOk || !Raises(old(lastAlert), ReadingOf(RowOf(d).value, m)))
      ensures ok && IsValid(d) ==>
                && |rows| == |old(rows)| + 1 && rows[..|old(rows)|] == old(rows)
                && Carries(d.sample.value, rows[|old(rows)|]) && dels == old(dels) + [|old(log)|]
      ensures !ok || !IsValid(d) ==> rows == old(rows) && dels == old(dels)
      ensures forall k | |old(alerts)| <= k < |alerts| ::
                && IsValid(d) && alerts[k].deviceId == d.sample.value.deviceId
                && alerts[k].sensorId == d.sample.value.sensorId
    {
      RowIsTheSample(d);
      var tag := |log|;
      log := log + [d];
      if d.sample.None? || !TsSafe(d.sample.value.ts) {
        HandleInvalid(tag, d.message);
        return true;
      }
      var row := d.sample.value;
      if row.value.Text? {
        var text := row.value.text;
        row := row.(value := Text(if |text| > MAX_TEXT then text[..MAX_TEXT] else text));
      }
      ok := CheckThreshold(row, m);
      if ok {
        rows := rows + [row];
        dels := dels + [tag];
      }
    }

    /** Hand the buffer to the database as one statement. */
    method FlushBatch()
      modifies `batches, `rows, `dels
      ensures Contents() == Flushed(old(Contents()))
    {
      if rows == [] {
        return;
      }
      batches := batches + [Batch(rows, dels, Running)];
      rows, dels := [], [];
    }

    /** One round of the consumer loop, with nothing from the callbacks in between; ok is false when a
        throwing publish has cut it short. */
    method Round(env: Option<Delivery>, windowElapsed: bool, m: Moment) returns (ok: bool)
      modifies this
      ensures !ok <==> env.Some? && RowOf(env.value).Some? && !m.publishOk
                       && Raises(old(lastAlert), ReadingOf(RowOf(env.value).value, m))
      ensures var s := Drained(old(Contents()));
              var t := if env.Some? then Received(s, env.value) else s;
              Contents() == if !ok then s.(log := s.log + [env.value])
                            else if MustFlush(t, windowElapsed, env.Some?) then Flushed(t) else t
    {
      ok := true;
      DrainAcks();
      if env.Some? {
        ok := HandleMessage(env.value, m);
        if !ok {
          return;
        }
      }
      if rows != [] && (|rows| >= BATCH_ROWS || (windowElapsed && env.None?)) {
        FlushBatch();
      }
    }

    /** The insert of batch b succeeded: all its deliveries are registered for an ack. */
    method OnInserted(b: nat)
      requires b < |batches| && batches[b].phase == Running
      modifies `batches, `table, `stored, `ackQueue
      ensures var s := Stored(old(Contents()), b);
              Contents() == RegisteredMany(s, b, |s.batches[b].dels|)
      ensures ackQueue == old(ackQueue) + EntriesOf(old(batches[b].dels), Acked)
    {
      var deliveries := batches[b].dels;
      table := table + batches[b].rows;
      stored := stored + deliveries;
      batches := batches[b := batches[b].(phase := Inserted)];
      RegisterAll(b, true);
    }

    /** The insert of batch b failed: all its deliveries are registered for requeueing. */
    method OnFailed(b: nat)
      requires b < |batches| && batches[b].phase == Running
      modifies `batches, `ackQueue
      ensures var s := Refused(old(Contents()), b);
              Contents() == RegisteredMany(s, b, |s.batches[b].dels|)
      ensures ackQueue == old(ackQueue) + EntriesOf(old(batches[b].dels), Requeued)
    {
      batches := batches[b := batches[b].(phase := Failed)];
      RegisterAll(b, false);
    }

    /** The loop over the deliveries in either callback. */
    method RegisterAll(b: nat, ok: bool)
      requires b < |batches| && batches[b].phase == if ok then Inserted else Failed
      modifies `batches, `ackQueue
      ensures Contents() == RegisteredMany(old(Contents()), b, old(|batches[b].dels|))
      ensures ackQueue == old(ackQueue) + EntriesOf(old(batches[b].dels), if ok then Acked else Requeued)
    {
      var deliveries := batches[b].dels;
      var verdict := if ok then Acked else Requeued;
      for i := 0 to |deliveries|
        invariant Contents() == RegisteredMany(old(Contents()), b, i)
        invariant |batches| == old(|batches|) && batches[b] == old(batches[b]).(dels := deliveries[i..])
        invariant ackQueue == old(ackQueue) + EntriesOf(deliveries, verdict)[..i]
      {
        ackQueue := ackQueue + [Entry(deliveries[i], verdict)];
        batches := batches[b := batches[b].(dels := deliveries[i + 1..])];
      }
    }
  }

  /** The table of last alerts and the alerts published follow the rules for this reading. */
  ghost predicate AlertChecked(
      last: map<int, int>, alerts: seq<Alert>, r: Reading, last': map<int, int>, alerts': seq<Alert>)
  {
    && last' == Noted(last, r)
    && alerts' == alerts + if Raises(last, r) && r.publishOk then [AlertOf(r).value] else []
  }

  function EntriesOf(tags: seq<nat>, verdict: Verdict): seq<Entry> {
    seq(|tags|, i requires 0 <= i < |tags| => Entry(tags[i], verdict))
  }
}
