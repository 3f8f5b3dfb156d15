/** Messages of the ingest queue: what makes one valid, and the bounded retry of the others. */
module IngestMessages {
  import opened Results

  const MAX_RETRY := 3
  const RETRY_HEADER := "x-retry-count"
  const MAX_TEXT := 256

  datatype Message = Message(body: string, headers: map<string, int>)

  datatype Value = Number(num: real) | Text(text: string)

  datatype Sample = Sample(deviceId: int, deviceCode: string, sensorId: int, value: Value, quality: int, ts: string)

  /** sample is what parsing the body as JSON and checking it against the schema yields. */
  datatype Delivery = Delivery(message: Message, sample: Option<Sample>)

  predicate TsChar(c: char) { '0' <= c <= '9' || c == '-' || c == 'T' || c == ':' || c == '.' || c == 'Z' }

  predicate TsSafe(ts: string) { 19 <= |ts| <= 32 && forall i | 0 <= i < |ts| :: TsChar(ts[i]) }

  /** The row a delivery becomes; None for an invalid message. */
  function RowOf(d: Delivery): Option<Sample> {
    if d.sample.None? || !TsSafe(d.sample.value.ts) then None
    else
      match d.sample.value.value
      case Number(_) => d.sample
      case Text(t) => Some(d.sample.value.(value := Text(if |t| > MAX_TEXT then t[..MAX_TEXT] else t)))
  }

  /** The cast of a header's 64-bit integer to int. */
  function Int32(v: int): int { (v + 0x8000_0000) % 0x1_0000_0000 - 0x8000_0000 }

  function RetryCount(m: Message): (r: int)
    ensures -0x8000_0000 <= r < 0x8000_0000
    ensures RETRY_HEADER !in m.headers ==> r == 0
    ensures RETRY_HEADER in m.headers && -0x8000_0000 <= m.headers[RETRY_HEADER] < 0x8000_0000 ==>
              r == m.headers[RETRY_HEADER]
  {
    if RETRY_HEADER in m.headers then Int32(m.headers[RETRY_HEADER]) else 0
  }

  /** The cast keeps the low 32 bits, read as two's complement. */
  lemma Int32Wraps(v: int)
    ensures -0x8000_0000 <= Int32(v) < 0x8000_0000 && (Int32(v) - v) % 0x1_0000_0000 == 0
  {
  }

  /** The copy that goes to the retry queue. */
  function NextTry(m: Message): Message {
    Message(m.body, m.headers[RETRY_HEADER := RetryCount(m) + 1])
  }

  /** The handlings of an invalid message, first to last: the retry queue returns what it was sent, and
      the handling that finds the retries exhausted dead-letters the message. */
  function Handlings(m: Message): seq<Message>
    decreases if RetryCount(m) >= MAX_RETRY then 0 else MAX_RETRY - RetryCount(m)
  {
    if RetryCount(m) >= MAX_RETRY then [m] else [m] + Handlings(NextTry(m))
  }

  function HandlingCount(retry: int): nat { if retry >= MAX_RETRY then 1 else 1 + MAX_RETRY - retry }

  /** An invalid message with r retries is republished max(0, 3 - r) times, always with the same body
      and other headers and with counts r + 1 up to 3, and is then dead-lettered. */
  lemma {:induction false} InvalidMessagesTerminate(m: Message)
    ensures |Handlings(m)| == HandlingCount(RetryCount(m))
    ensures Handlings(m)[0] == m
    ensures forall i | 0 < i < |Handlings(m)| ::
              Handlings(m)[i] == Message(m.body, m.headers[RETRY_HEADER := RetryCount(m) + i])
    ensures forall i | 0 <= i < |Handlings(m)| ::
              RetryCount(Handlings(m)[i]) >= MAX_RETRY <==> i == |Handlings(m)| - 1
    decreases if RetryCount(m) >= MAX_RETRY then 0 else MAX_RETRY - RetryCount(m)
  {
    if RetryCount(m) < MAX_RETRY {
      var next := NextTry(m);
      InvalidMessagesTerminate(next);
      forall i | 0 < i < |Handlings(m)|
        ensures Handlings(m)[i] == Message(m.body, m.headers[RETRY_HEADER := RetryCount(m) + i])
        ensures RetryCount(Handlings(m)[i]) >= MAX_RETRY <==> i == |Handlings(m)| - 1 {
        assert Handlings(m)[i] == Handlings(next)[i - 1];
        assert next.headers[RETRY_HEADER := RetryCount(m) + i] == m.headers[RETRY_HEADER := RetryCount(m) + i];
      }
    }
  }

  /** A fresh message is handled four times, with counts 0, 1, 2, 3. */
  lemma FreshMessageIsRetriedThreeTimes(m: Message)
    requires RETRY_HEADER !in m.headers
    ensures |Handlings(m)| == 4
    ensures forall i | 0 <= i < 4 :: Handlings(m)[i].body == m.body && RetryCount(Handlings(m)[i]) == i
  {
    InvalidMessagesTerminate(m);
  }

  /** The row is the sample: every field as it was parsed, of a text the first 256 characters. */
  ghost predicate Carries(sample: Sample, row: Sample) {
    && row.deviceId == sample.deviceId && row.deviceCode == sample.deviceCode
    && row.sensorId == sample.sensorId && row.quality == sample.quality && row.ts == sample.ts
    && match sample.value
       case Number(num) => row.value == Number(num)
       case Text(text) =>
         && row.value.Text? && |row.value.text| == (if |text| < 256 then |text| else 256)
         && forall i | 0 <= i < |row.value.text| :: row.value.text[i] == text[i]
  }

  /** The message parsed, and its time stamp has 19 to 32 characters, all of them digits or "-T:.Z". */
  ghost predicate IsValid(d: Delivery) {
    && d.sample.Some? && 19 <= |d.sample.value.ts| <= 32
    && forall i | 0 <= i < |d.sample.value.ts| :: d.sample.value.ts[i] in "0123456789-T:.Z"
  }

  /** A delivery becomes a row if and only if it is valid, and then the row is its sample. */
  lemma RowIsTheSample(d: Delivery)
    ensures RowOf(d).Some? <==> IsValid(d)
    ensures RowOf(d).Some? ==> Carries(d.sample.value, RowOf(d).value)
  {
    if d.sample.Some? {
      var ts := d.sample.value.ts;
      forall i | 0 <= i < |ts| ensures TsChar(ts[i]) <==> ts[i] in "0123456789-T:.Z" {
      }
    }
  }

  /** What gets past the checks is safe to bind: a controlled time stamp and bounded text. */
  lemma RowsAreControlled(d: Delivery)
    requires RowOf(d).Some?
    ensures TsSafe(RowOf(d).value.ts)
    ensures RowOf(d).value.value.Text? ==>
              |RowOf(d).value.value.text| <= 256 && RowOf(d).value.value.text <= d.sample.value.value.text
  {
  }
}
