/** Threshold alerts of the ingest consumer and their suppression for 30 seconds. */
module AlertRules {
  import opened Results

  /** Suppression window, in milliseconds of the steady clock. */
  const WINDOW := 30000

  datatype Limits = Limits(low: Option<real>, high: Option<real>, lowLow: Option<real>, highHigh: Option<real>)

  datatype Side = High | Low

  /** HIGH is (High, 2), HIGH_HIGH is (High, 3), and the same below. */
  datatype Crossing = Crossing(side: Side, level: int, threshold: real)

  function Classify(c: Limits, v: real): Option<Crossing> {
    if c.highHigh.Some? && v >= c.highHigh.value then Some(Crossing(High, 3, c.highHigh.value))
    else if c.high.Some? && v >= c.high.value then Some(Crossing(High, 2, c.high.value))
    else if c.lowLow.Some? && v <= c.lowLow.value then Some(Crossing(Low, 3, c.lowLow.value))
    else if c.low.Some? && v <= c.low.value then Some(Crossing(Low, 2, c.low.value))
    else None
  }

  /** A sample reaching the consumer: value is None for text, limits is None while no snapshot of the
      sensors has been loaded, and is keyed by SensorKey. publishOk says whether the broker takes an alert
      now; when it does not, the publish throws. */
  datatype Reading = Reading(
    deviceId: int, sensorId: int, value: Option<real>, now: int, limits: Option<map<int, Limits>>, publishOk: bool)

  datatype Alert = Alert(deviceId: int, sensorId: int, side: Side, level: int)

  function SensorKey(deviceId: int, sensorId: int): int { deviceId * 1000000 + sensorId }

  function SuppressionKey(a: Alert): int {
    SensorKey(a.deviceId, a.sensorId) * 8 + (if a.side == Low then 4 else 0) + (a.level - 2)
  }

  /** The limits configured for the sensor of a reading with a number. */
  function LimitsFor(r: Reading): Option<Limits> {
    if r.limits.None? || SensorKey(r.deviceId, r.sensorId) !in r.limits.value || r.value.None? then None
    else Some(r.limits.value[SensorKey(r.deviceId, r.sensorId)])
  }

  function AlertOf(r: Reading): (a: Option<Alert>)
    ensures a.Some? ==> a.value.deviceId == r.deviceId && a.value.sensorId == r.sensorId
    ensures a.Some? ==> a.value.level == 2 || a.value.level == 3
  {
    if LimitsFor(r).None? then None
    else
      var c := Classify(LimitsFor(r).value, r.value.value);
      if c.None? then None else Some(Alert(r.deviceId, r.sensorId, c.value.side, c.value.level))
  }

  predicate Suppressed(last: map<int, int>, a: Alert, now: int) {
    SuppressionKey(a) in last && now - last[SuppressionKey(a)] < WINDOW
  }

  /** The reading has an alert that is not suppressed: its key is noted, then it is published. */
  predicate Raises(last: map<int, int>, r: Reading) {
    AlertOf(r).Some? && !Suppressed(last, AlertOf(r).value, r.now)
  }

  /** The table of last alerts after a reading; it is written before the publish, whose outcome it does
      not depend on, and it outlives the channel. */
  function Noted(last: map<int, int>, r: Reading): map<int, int> {
    if Raises(last, r) then last[SuppressionKey(AlertOf(r).value) := r.now] else last
  }

  // ---- What the alarm levels mean ----

  /** The level says how far out the value is: when the limits are nested, level 3 exactly beyond the
      outer ones, any alert exactly beyond the inner ones. */
  lemma LevelsGradeTheValue(c: Limits, v: real)
    requires c.low.Some? && c.high.Some? && c.lowLow.Some? && c.highHigh.Some?
    requires c.lowLow.value <= c.low.value < c.high.value <= c.highHigh.value
    ensures Classify(c, v).None? <==> c.low.value < v < c.high.value
    ensures Classify(c, v).Some? ==>
              var x := Classify(c, v).value;
              && (x.level == 3 <==> v <= c.lowLow.value || v >= c.highHigh.value)
              && (x.side == High <==> v >= c.high.value)
  {
  }

  /** The first limit crossed in the order very high, high, very low, low, whichever of them are set; a value
      on a limit has crossed it. */
  lemma FirstCrossedLimitCounts(c: Limits, v: real)
    ensures var x := Classify(c, v);
            var hh, h := c.highHigh.Some? && c.highHigh.value <= v, c.high.Some? && c.high.value <= v;
            var ll, l := c.lowLow.Some? && v <= c.lowLow.value, c.low.Some? && v <= c.low.value;
            && (x.None? <==> !hh && !h && !ll && !l)
            && (hh ==> x == Some(Crossing(High, 3, c.highHigh.value)))
            && (!hh && h ==> x == Some(Crossing(High, 2, c.high.value)))
            && (!hh && !h && ll ==> x == Some(Crossing(Low, 3, c.lowLow.value)))
            && (!hh && !h && !ll && l ==> x == Some(Crossing(Low, 2, c.low.value)))
  {
  }

  /** A reading has an alert if and only if it is a number, the snapshot knows limits under its key, and one of
      them is crossed; side and level are those of the limit. */
  lemma AlertFromTheSnapshot(r: Reading)
    ensures var key := 1000000 * r.deviceId + r.sensorId;
            if r.value.Some? && r.limits.Some? && key in r.limits.value
            then var x := Classify(r.limits.value[key], r.value.value);
                 AlertOf(r) == if x.None? then None
                               else Some(Alert(r.deviceId, r.sensorId, x.value.side, x.value.level))
            else AlertOf(r) == None
  {
  }

  // ---- Keys ----

  predicate SensorIdOk(id: int) { 0 <= id < 1000000 }

  predicate LevelOk(a: Alert) { a.level == 2 || a.level == 3 }

  lemma SensorKeysAreDistinct(d: int, s: int, d': int, s': int)
    requires SensorIdOk(s) && SensorIdOk(s')
    requires SensorKey(d, s) == SensorKey(d', s')
    ensures d == d' && s == s'
  {
  }

  /** Alerts share a suppression key exactly when side, level and sensor key agree. */
  lemma KeysAgree(a: Alert, b: Alert)
    requires LevelOk(a) && LevelOk(b)
    ensures SuppressionKey(a) == SuppressionKey(b) <==>
            && a.side == b.side && a.level == b.level
            && SensorKey(a.deviceId, a.sensorId) == SensorKey(b.deviceId, b.sensorId)
  {
  }

  /** Ids below a million: no two different alerts share a key. */
  lemma KeysAreDistinct(a: Alert, b: Alert)
    requires LevelOk(a) && LevelOk(b) && SensorIdOk(a.sensorId) && SensorIdOk(b.sensorId)
    ensures SuppressionKey(a) == SuppressionKey(b) <==> a == b
  {
    KeysAgree(a, b);
    if SuppressionKey(a) == SuppressionKey(b) {
      SensorKeysAreDistinct(a.deviceId, a.sensorId, b.deviceId, b.sensorId);
    }
  }

  // ---- Runs ----

  function LastAfter(rs: seq<Reading>, n: nat): map<int, int>
    requires n <= |rs|
  {
    if n == 0 then map[] else Noted(LastAfter(rs, n - 1), rs[n - 1])
  }

  /** Reading i raises an alert and notes its key. */
  predicate Notes(rs: seq<Reading>, i: nat)
    requires i < |rs|
  {
    Raises(LastAfter(rs, i), rs[i])
  }

  /** Reading i publishes an alert. */
  predicate Publishes(rs: seq<Reading>, i: nat)
    requires i < |rs|
  {
    Notes(rs, i) && rs[i].publishOk
  }

  /** Reading i notes the key of its alert and then fails to publish it. */
  predicate Loses(rs: seq<Reading>, i: nat)
    requires i < |rs|
  {
    Notes(rs, i) && !rs[i].publishOk
  }

  ghost predicate MonotoneClock(rs: seq<Reading>) {
    forall i, j | 0 <= i <= j < |rs| :: rs[i].now <= rs[j].now
  }

  /** Reading i noted an alert under this suppression key. */
  ghost predicate NotedUnder(rs: seq<Reading>, i: nat, key: int)
    requires i < |rs|
  {
    Notes(rs, i) && SuppressionKey(AlertOf(rs[i]).value) == key
  }

  /** The table holds, for each key, the time of its latest alert. */
  lemma {:induction false} TableHoldsLatest(rs: seq<Reading>, n: nat, key: int)
    requires n <= |rs| && MonotoneClock(rs)
    ensures forall j | 0 <= j < n && NotedUnder(rs, j, key) ::
              key in LastAfter(rs, n) && rs[j].now <= LastAfter(rs, n)[key]
    ensures key in LastAfter(rs, n) ==>
              exists j | 0 <= j < n :: NotedUnder(rs, j, key) && rs[j].now == LastAfter(rs, n)[key]
  {
    if n > 0 {
      TableHoldsLatest(rs, n - 1, key);
      if NotedUnder(rs, n - 1, key) {
        assert LastAfter(rs, n)[key] == rs[n - 1].now;
      } else {
        assert key in LastAfter(rs, n) <==> key in LastAfter(rs, n - 1);
        assert key in LastAfter(rs, n) ==> LastAfter(rs, n)[key] == LastAfter(rs, n - 1)[key];
      }
    }
  }

  /** An alert under this key was noted less than 30 s before reading i. */
  ghost predicate NotedWithin(rs: seq<Reading>, i: nat, key: int)
    requires i < |rs|
  {
    exists j | 0 <= j < i :: NotedUnder(rs, j, key) && rs[i].now - rs[j].now < WINDOW
  }

  /** In every run an alert is noted if and only if none was noted under its key in the 30 s before, and
      published if and only if, in addition, the broker takes it. */
  lemma PublishedIffNoneNotedWithin(rs: seq<Reading>, i: nat)
    requires MonotoneClock(rs) && i < |rs| && AlertOf(rs[i]).Some?
    ensures var key := SuppressionKey(AlertOf(rs[i]).value);
            && (Notes(rs, i) <==> !NotedWithin(rs, i, key))
            && (Publishes(rs, i) <==> rs[i].publishOk && !NotedWithin(rs, i, key))
  {
    TableHoldsLatest(rs, i, SuppressionKey(AlertOf(rs[i]).value));
  }

  /** Two alerts noted under one key are at least 30 s apart. */
  lemma NotesAreSpaced(rs: seq<Reading>, i: nat, j: nat, key: int)
    requires MonotoneClock(rs) && i < j < |rs| && NotedUnder(rs, i, key) && NotedUnder(rs, j, key)
    ensures rs[j].now - rs[i].now >= 30000
  {
    TableHoldsLatest(rs, j, key);
  }

  /** In every run, two published alerts of one sensor, side and level are at least 30 s apart. */
  lemma AlertsAreSpaced(rs: seq<Reading>, i: nat, j: nat)
    requires MonotoneClock(rs) && i < j < |rs|
    requires Publishes(rs, i) && Publishes(rs, j) && AlertOf(rs[i]) == AlertOf(rs[j])
    ensures rs[j].now - rs[i].now >= 30000
  {
    NotesAreSpaced(rs, i, j, SuppressionKey(AlertOf(rs[i]).value));
  }

  /** The rule: an alert is due unless the same alert was published less than 30 s before. */
  ghost predicate Due(rs: seq<Reading>, i: nat)
    requires i < |rs|
  {
    && AlertOf(rs[i]).Some?
    && !exists j | 0 <= j < i ::
          Publishes(rs, j) && AlertOf(rs[j]) == AlertOf(rs[i]) && rs[i].now - rs[j].now < WINDOW
  }

  /** The same alert was noted and lost less than 30 s before. */
  ghost predicate LostWithin(rs: seq<Reading>, i: nat)
    requires i < |rs|
  {
    && AlertOf(rs[i]).Some?
    && exists j | 0 <= j < i ::
         Loses(rs, j) && AlertOf(rs[j]) == AlertOf(rs[i]) && rs[i].now - rs[j].now < WINDOW
  }

  /** No two sensors of the run share a sensor key. */
  ghost predicate KeysSeparateSensors(rs: seq<Reading>) {
    forall i, j | 0 <= i < |rs| && 0 <= j < |rs| ::
      SensorKey(rs[i].deviceId, rs[i].sensorId) == SensorKey(rs[j].deviceId, rs[j].sensorId) ==>
        rs[i].deviceId == rs[j].deviceId && rs[i].sensorId == rs[j].sensorId
  }

  lemma IdsBelowAMillionAreSeparate(rs: seq<Reading>)
    requires forall j | 0 <= j < |rs| :: SensorIdOk(rs[j].sensorId)
    ensures KeysSeparateSensors(rs)
  {
    forall i, j | 0 <= i < |rs| && 0 <= j < |rs|
      && SensorKey(rs[i].deviceId, rs[i].sensorId) == SensorKey(rs[j].deviceId, rs[j].sensorId)
      ensures rs[i].deviceId == rs[j].deviceId && rs[i].sensorId == rs[j].sensorId {
      SensorKeysAreDistinct(rs[i].deviceId, rs[i].sensorId, rs[j].deviceId, rs[j].sensorId);
    }
  }

  /** While sensor keys tell the sensors apart, the alerts noted under a key are all the same alert. */
  lemma SameKeySameAlert(rs: seq<Reading>, i: nat, j: nat)
    requires KeysSeparateSensors(rs) && i < |rs| && j < |rs| && AlertOf(rs[i]).Some? && AlertOf(rs[j]).Some?
    ensures SuppressionKey(AlertOf(rs[i]).value) == SuppressionKey(AlertOf(rs[j]).value) <==>
            AlertOf(rs[i]) == AlertOf(rs[j])
  {
    KeysAgree(AlertOf(rs[i]).value, AlertOf(rs[j]).value);
  }

  /** What was noted within the window was published or lost. */
  lemma NotedIsPublishedOrLost(rs: seq<Reading>, i: nat)
    requires KeysSeparateSensors(rs) && i < |rs| && AlertOf(rs[i]).Some?
    ensures NotedWithin(rs, i, SuppressionKey(AlertOf(rs[i]).value)) <==> !Due(rs, i) || LostWithin(rs, i)
  {
    var key := SuppressionKey(AlertOf(rs[i]).value);
    forall j: nat | j < i && Notes(rs, j)
      ensures NotedUnder(rs, j, key) <==> AlertOf(rs[j]) == AlertOf(rs[i]) {
      SameKeySameAlert(rs, j, i);
    }
    if NotedWithin(rs, i, key) {
      var j: nat :| j < i && NotedUnder(rs, j, key) && rs[i].now - rs[j].now < WINDOW;
      assert Publishes(rs, j) || Loses(rs, j);
    }
    if !Due(rs, i) {
      var j: nat :| j < i && Publishes(rs, j) && AlertOf(rs[j]) == AlertOf(rs[i]) && rs[i].now - rs[j].now < WINDOW;
      assert NotedUnder(rs, j, key);
    }
    if LostWithin(rs, i) {
      var j: nat :| j < i && Loses(rs, j) && AlertOf(rs[j]) == AlertOf(rs[i]) && rs[i].now - rs[j].now < WINDOW;
      assert NotedUnder(rs, j, key);
    }
  }

  /** While sensor keys tell the sensors apart: an alert is published if and only if it is due, the broker
      takes it, and the same alert was not noted and lost within the 30 s before. */
  lemma PublishesExactlyWhatIsDue(rs: seq<Reading>, i: nat)
    requires MonotoneClock(rs) && KeysSeparateSensors(rs) && i < |rs|
    ensures Publishes(rs, i) <==> Due(rs, i) && rs[i].publishOk && !LostWithin(rs, i)
  {
    if AlertOf(rs[i]).Some? {
      PublishedIffNoneNotedWithin(rs, i);
      NotedIsPublishedOrLost(rs, i);
    }
  }

  /** Around a lost alert nothing of its kind is published within the window. */
  lemma NothingPublishedNearLost(rs: seq<Reading>, i: nat, j: nat, k: nat)
    requires MonotoneClock(rs) && j < i < |rs| && k < i && AlertOf(rs[i]).Some?
    requires Loses(rs, j) && AlertOf(rs[j]) == AlertOf(rs[i]) && rs[i].now - rs[j].now < WINDOW
    requires Publishes(rs, k) && AlertOf(rs[k]) == AlertOf(rs[i])
    ensures rs[i].now - rs[k].now >= WINDOW
  {
    var key := SuppressionKey(AlertOf(rs[i]).value);
    assert NotedUnder(rs, j, key) && NotedUnder(rs, k, key);
    assert rs[j].now <= rs[i].now && rs[k].now <= rs[i].now;
    if k < j {
      NotesAreSpaced(rs, k, j, key);
    } else {
      NotesAreSpaced(rs, j, k, key);
    }
  }

  /** An alert whose like was lost within the window is due. */
  lemma AfterLossItIsDue(rs: seq<Reading>, i: nat)
    requires MonotoneClock(rs) && i < |rs| && LostWithin(rs, i)
    ensures Due(rs, i)
  {
    var j: nat :| j < i && Loses(rs, j) && AlertOf(rs[j]) == AlertOf(rs[i]) && rs[i].now - rs[j].now < WINDOW;
    forall k: nat | k < i && Publishes(rs, k) && AlertOf(rs[k]) == AlertOf(rs[i])
      ensures rs[i].now - rs[k].now >= WINDOW {
      NothingPublishedNearLost(rs, i, j, k);
    }
  }

  /** Hence, when the broker takes it, an alert is published exactly if it is due if and only if the same
      alert was not lost within the 30 s before. */
  lemma RuleHoldsIffNothingLost(rs: seq<Reading>, i: nat)
    requires MonotoneClock(rs) && KeysSeparateSensors(rs) && i < |rs| && rs[i].publishOk
    ensures (Publishes(rs, i) <==> Due(rs, i)) <==> !LostWithin(rs, i)
  {
    PublishesExactlyWhatIsDue(rs, i);
    if LostWithin(rs, i) {
      AfterLossItIsDue(rs, i);
    }
  }

  function AboveHigh(d: int, s: int, now: int, publishOk: bool, keyed: int): Reading {
    Reading(d, s, Some(2.0), now, Some(map[keyed := Limits(None, Some(1.0), None, None)]), publishOk)
  }

  /** For every sensor: a publish fails, the sample is delivered again less than 30 s later, and its alert,
      although due, is not published. */
  lemma RedeliveredAlertIsSuppressed(d: int, s: int, delay: nat)
    requires delay < WINDOW
    ensures var key := SensorKey(d, s);
            var rs := [AboveHigh(d, s, 0, false, key), AboveHigh(d, s, delay, true, key)];
            MonotoneClock(rs) && Loses(rs, 0) && Due(rs, 1) && rs[1].publishOk && !Publishes(rs, 1)
  {
    var key := SensorKey(d, s);
    var rs := [AboveHigh(d, s, 0, false, key), AboveHigh(d, s, delay, true, key)];
    assert AlertOf(rs[0]) == AlertOf(rs[1]) == Some(Alert(d, s, High, 2));
    assert LastAfter(rs, 0) == map[];
    assert LastAfter(rs, 1) == Noted(LastAfter(rs, 0), rs[0]);
    assert LastAfter(rs, 1)[SuppressionKey(Alert(d, s, High, 2))] == 0;
  }

  /** Where two sensors share a sensor key an alert of the first swallows the alert of the second, for every
      such pair. Sensor 1000000 of device 0 and sensor 0 of device 1 are one. */
  lemma SharedKeySwallowsAlert(d: int, s: int, d': int, s': int)
    requires (d, s) != (d', s') && SensorKey(d, s) == SensorKey(d', s')
    ensures SensorKey(0, 1000000) == SensorKey(1, 0)
    ensures var key := SensorKey(d, s);
            var rs := [AboveHigh(d, s, 0, true, key), AboveHigh(d', s', 1, true, key)];
            MonotoneClock(rs) && Publishes(rs, 0) && Due(rs, 1) && rs[1].publishOk && !Publishes(rs, 1)
  {
    var key := SensorKey(d, s);
    var rs := [AboveHigh(d, s, 0, true, key), AboveHigh(d', s', 1, true, key)];
    var a, b := Alert(d, s, High, 2), Alert(d', s', High, 2);
    assert AlertOf(rs[0]) == Some(a) && AlertOf(rs[1]) == Some(b);
    KeysAgree(a, b);
    assert LastAfter(rs, 0) == map[];
    assert LastAfter(rs, 1) == Noted(LastAfter(rs, 0), rs[0]);
    assert LastAfter(rs, 1)[SuppressionKey(b)] == 0;
  }
}
