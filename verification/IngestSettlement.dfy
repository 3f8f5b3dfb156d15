/** What the broker and the database can rely on, in every reachable state of the ingest consumer. */
module IngestSettlement {
  import opened Results
  import opened IngestMessages
  import opened IngestQueues
  import opened IngestRuns
  import opened Counting

  // ---- Reading the counts ----

  lemma {:induction false} EntryIsCounted(entries: seq<Entry>, n: nat, i: nat, ackOnly: bool)
    requires i < n <= |entries| && (ackOnly ==> entries[i].verdict == Acked)
    ensures AnswersOf(entries, n, entries[i].tag, ackOnly) >= 1
  {
    if i < n - 1 {
      EntryIsCounted(entries, n - 1, i, ackOnly);
    }
  }

  lemma {:induction false} TwoEntriesAreCounted(entries: seq<Entry>, n: nat, i: nat, j: nat)
    requires i < j < n <= |entries| && entries[i].tag == entries[j].tag
    ensures AnswersOf(entries, n, entries[i].tag, false) >= 2
  {
    if j < n - 1 {
      TwoEntriesAreCounted(entries, n - 1, i, j);
    } else {
      EntryIsCounted(entries, n - 1, i, false);
    }
  }

  lemma {:induction false} CountedEntryExists(entries: seq<Entry>, n: nat, t: nat) returns (i: nat)
    requires n <= |entries| && AnswersOf(entries, n, t, false) >= 1
    ensures i < n && entries[i].tag == t
  {
    if AnswerOf(entries[n - 1], t, false) == 1 {
      i := n - 1;
    } else {
      i := CountedEntryExists(entries, n - 1, t);
    }
  }

  /** An answer that is no ack is missing from the acks. */
  lemma {:induction false} OtherVerdictIsNoAck(entries: seq<Entry>, n: nat, i: nat)
    requires i < n <= |entries| && entries[i].verdict != Acked
    ensures AnswersOf(entries, n, entries[i].tag, true) < AnswersOf(entries, n, entries[i].tag, false)
  {
    AcksAreAnswers(entries, n - 1, entries[i].tag);
    if i < n - 1 {
      OtherVerdictIsNoAck(entries, n - 1, i);
    }
  }

  lemma {:induction false} AcksAreAnswers(entries: seq<Entry>, n: nat, t: nat)
    requires n <= |entries|
    ensures AnswersOf(entries, n, t, true) <= AnswersOf(entries, n, t, false)
  {
    if n > 0 {
      AcksAreAnswers(entries, n - 1, t);
    }
  }

  lemma {:induction false} StoredAreHeld(batches: seq<Batch>, n: nat, t: nat)
    requires n <= |batches|
    ensures HeldBy(batches, n, t, true) <= HeldBy(batches, n, t, false)
  {
    if n > 0 {
      StoredAreHeld(batches, n - 1, t);
    }
  }

  lemma StoredPlacesArePlaces(s: Ingest, t: nat)
    ensures StoredPlaces(s, t) <= Places(s, t)
  {
    StoredAreHeld(s.batches, |s.batches|, t);
    AcksAreAnswers(s.ackQueue, |s.ackQueue|, t);
    AcksAreAnswers(s.settled, |s.settled|, t);
  }

  // ---- Settlement ----

  /** No delivery is answered twice. */
  lemma SettledAtMostOnce(events: seq<Event>, n: nat, i: nat, j: nat)
    requires n <= |events|
    requires i < j < |After(events, n).s.settled|
    ensures After(events, n).s.settled[i].tag != After(events, n).s.settled[j].tag
  {
    EveryRunIsOk(events, n);
    var s := After(events, n).s;
    assert TagOk(s, s.settled[i].tag);
    if s.settled[i].tag == s.settled[j].tag {
      TwoEntriesAreCounted(s.settled, |s.settled|, i, j);
    }
  }

  /** An answered delivery is nowhere else: not in the buffer, not in a batch, not in the ack queue. */
  lemma SettledIsElsewhereNoMore(events: seq<Event>, n: nat, i: nat)
    requires n <= |events| && i < |After(events, n).s.settled|
    ensures var s := After(events, n).s;
            var t := s.settled[i].tag;
            t !in s.dels && HeldBy(s.batches, |s.batches|, t, false) == 0 && Answers(s.ackQueue, t, false) == 0
  {
    EveryRunIsOk(events, n);
    var s := After(events, n).s;
    EntryIsCounted(s.settled, |s.settled|, i, false);
    assert TagOk(s, s.settled[i].tag);
    CopyExists(s.dels, s.settled[i].tag);
  }

  /** Answers are never taken back. */
  lemma {:induction false} SettlementIsFinal(events: seq<Event>, n: nat, m: nat)
    requires n <= m <= |events|
    ensures After(events, n).s.settled <= After(events, m).s.settled
  {
    if n < m {
      SettlementIsFinal(events, n, m - 1);
      SettledGrows(After(events, m - 1), events[m - 1]);
    }
  }

  lemma SettledGrows(m: Machine, e: Event)
    ensures m.s.settled <= Apply(m, e).s.settled
  {
  }

  /** An ack means that the message was valid and that the table holds its sample, field by field, once. */
  lemma AckedMeansStored(events: seq<Event>, n: nat, i: nat)
    requires n <= |events| && i < |After(events, n).s.settled|
    requires After(events, n).s.settled[i].verdict == Acked
    ensures var s := After(events, n).s;
            var t := s.settled[i].tag;
            && t < |s.log| && IsValid(s.log[t]) && Copies(s.stored, t) == 1
            && exists k | 0 <= k < |s.table| && k < |s.stored| ::
                 s.stored[k] == t && Carries(s.log[t].sample.value, s.table[k])
  {
    EveryRunIsOk(events, n);
    var s := After(events, n).s;
    var t := s.settled[i].tag;
    assert EntryOk(s.log, s.settled[i]);
    RowIsTheSample(s.log[t]);
    EntryIsCounted(s.settled, |s.settled|, i, true);
    assert TagOk(s, t);
    StoredPlacesArePlaces(s, t);
    CopyExists(s.stored, t);
    var k: nat :| k < |s.stored| && s.stored[k] == t;
    assert s.table[k] == RowOf(s.log[t]).value;
  }

  /** And the table holds nothing else: each of its rows is the sample of a valid delivery. */
  lemma StoredRowsAreSamples(events: seq<Event>, n: nat, k: nat)
    requires n <= |events| && k < |After(events, n).s.table|
    ensures var s := After(events, n).s;
            && k < |s.stored| && s.stored[k] < |s.log|
            && IsValid(s.log[s.stored[k]]) && Carries(s.log[s.stored[k]].sample.value, s.table[k])
  {
    EveryRunIsOk(events, n);
    var s := After(events, n).s;
    assert RowOf(s.log[s.stored[k]]) == Some(s.table[k]);
    RowIsTheSample(s.log[s.stored[k]]);
  }

  /** A requeued, republished or dead-lettered message has no row in the table. */
  lemma OtherwiseNotStored(events: seq<Event>, n: nat, i: nat)
    requires n <= |events| && i < |After(events, n).s.settled|
    requires After(events, n).s.settled[i].verdict != Acked
    ensures After(events, n).s.settled[i].tag !in After(events, n).s.stored
  {
    EveryRunIsOk(events, n);
    var s := After(events, n).s;
    var t := s.settled[i].tag;
    OtherVerdictIsNoAck(s.settled, |s.settled|, i);
    EntryIsCounted(s.settled, |s.settled|, i, false);
    assert TagOk(s, t);
    StoredAreHeld(s.batches, |s.batches|, t);
    AcksAreAnswers(s.ackQueue, |s.ackQueue|, t);
    CopyExists(s.stored, t);
  }

  /** No message is stored twice within the channel's lifetime. */
  lemma StoredAtMostOnce(events: seq<Event>, n: nat, t: nat)
    requires n <= |events|
    ensures Copies(After(events, n).s.stored, t) <= 1
  {
    EveryRunIsOk(events, n);
    assert TagOk(After(events, n).s, t);
    StoredPlacesArePlaces(After(events, n).s, t);
  }

  ghost predicate Quiet(s: Ingest) {
    s.dels == [] && s.ackQueue == [] && forall b | 0 <= b < |s.batches| :: s.batches[b].dels == []
  }

  lemma {:induction false} QuietBatchesHoldNothing(s: Ingest, n: nat, t: nat)
    requires Quiet(s) && n <= |s.batches|
    ensures HeldBy(s.batches, n, t, false) == 0
  {
    if n > 0 {
      QuietBatchesHoldNothing(s, n - 1, t);
    }
  }

  /** Once nothing is under way every delivery has its answer, and the table holds the rows of exactly
      the acked ones. */
  lemma QuietMeansSettled(events: seq<Event>, n: nat, t: nat) returns (i: nat)
    requires n <= |events| && Quiet(After(events, n).s) && t < |After(events, n).s.log|
    ensures var s := After(events, n).s;
            && i < |s.settled| && s.settled[i].tag == t
            && (s.settled[i].verdict == Acked <==> t in s.stored)
  {
    EveryRunIsOk(events, n);
    var s := After(events, n).s;
    assert TagOk(s, t);
    QuietBatchesHoldNothing(s, |s.batches|, t);
    i := CountedEntryExists(s.settled, |s.settled|, t);
    if s.settled[i].verdict == Acked {
      EntryIsCounted(s.settled, |s.settled|, i, true);
      CopyExists(s.stored, t);
    } else {
      OtherwiseNotStored(events, n, i);
    }
  }

  /** The verdict follows from the message: valid ones are acked or requeued, invalid ones republished
      while retries are left and dead-lettered afterwards. */
  lemma VerdictFollowsTheMessage(events: seq<Event>, n: nat, i: nat)
    requires n <= |events| && i < |After(events, n).s.settled|
    ensures var s := After(events, n).s;
            var e := s.settled[i];
            && e.tag < |s.log|
            && (IsValid(s.log[e.tag]) <==> e.verdict == Acked || e.verdict == Requeued)
            && (e.verdict == DeadLettered <==> !IsValid(s.log[e.tag]) && RetryCount(s.log[e.tag].message) >= 3)
  {
    EveryRunIsOk(events, n);
    var s := After(events, n).s;
    assert EntryOk(s.log, s.settled[i]);
    RowIsTheSample(s.log[s.settled[i].tag]);
  }
}
