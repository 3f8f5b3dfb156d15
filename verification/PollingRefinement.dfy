/** Polling over merged frames agrees with reading every sensor alone. */
module PollingRefinement {
  import opened Bytes
  import opened ModbusFrames
  import opened SensorFrames
  import opened SensorValues
  import opened DevicePoller

  // ---- Where a frame lies in the register bank ----

  ghost predicate AllInRange<D>(sensors: seq<Sensor<D>>) {
    forall i | 0 <= i < |sensors| :: InRange(sensors[i])
  }

  /** Sensor k of the list has its registers right behind those of the sensors before it. */
  ghost predicate SensorAt<D>(sensors: seq<Sensor<D>>, start: u16, indexes: seq<nat>, k: nat)
    requires IndexesOk(sensors, indexes) && k < |indexes|
  {
    sensors[indexes[k]].registerAddr - REGISTER_BASE == start + Taken(sensors, indexes, k)
  }

  /** The frame reads the very registers of its sensors. */
  ghost predicate Covers<D>(sensors: seq<Sensor<D>>, frame: ReadFrame) {
    && FrameOk(sensors, frame)
    && 1 <= frame.quantity <= MAX_REGISTERS && frame.start + frame.quantity <= 65536
    && (forall k: nat | k < |frame.sensors| :: SensorAt(sensors, frame.start, frame.sensors, k))
  }

  /** Ascending addresses within the range never wrap around inside a mergeable piece. */
  lemma {:induction false} PieceIsContiguous<D>(sensors: seq<Sensor<D>>, order: seq<nat>, lo: nat, k: nat)
    requires IndexesOk(sensors, order) && AllInRange(sensors) && lo <= k < |order|
    requires forall j: nat | 0 < j < |order| :: Ascending(sensors, order, j)
    requires forall j | lo < j <= k :: Follows(sensors, order, j)
    ensures Taken(sensors, order, lo) <= Taken(sensors, order, k)
    ensures sensors[order[k]].registerAddr - REGISTER_BASE ==
            OffsetAt(sensors, order, lo) + Taken(sensors, order, k) - Taken(sensors, order, lo)
  {
    assert InRange(sensors[order[k]]);
    TakenGrows(sensors, order, lo, k);
    if lo < k {
      PieceIsContiguous(sensors, order, lo, k - 1);
      assert InRange(sensors[order[k - 1]]) && Follows(sensors, order, k) && Ascending(sensors, order, k);
    }
  }

  lemma {:induction false} TakenOfSlice<D>(sensors: seq<Sensor<D>>, order: seq<nat>, lo: nat, hi: nat, k: nat)
    requires IndexesOk(sensors, order) && lo <= hi <= |order| && k <= hi - lo
    ensures Taken(sensors, order[lo..hi], k) == Taken(sensors, order, lo + k) - Taken(sensors, order, lo)
  {
    if k > 0 {
      TakenOfSlice(sensors, order, lo, hi, k - 1);
      assert order[lo..hi][k - 1] == order[lo + k - 1];
    }
  }

  /** A piece, as a frame, asks for 1 to 125 registers: those of its sensors. */
  lemma PieceHasItsRegisters<D>(sensors: seq<Sensor<D>>, order: seq<nat>, lo: nat, hi: nat)
    requires IndexesOk(sensors, order) && lo < hi <= |order| && Mergeable(sensors, order, lo, hi)
    ensures var f := FrameOf(sensors, order, lo, hi);
            1 <= f.quantity <= MAX_REGISTERS && FrameOk(sensors, f)
  {
    TakenGrows(sensors, order, lo, hi);
    TakenOfSlice(sensors, order, lo, hi, hi - lo);
  }

  lemma PieceCovers<D>(sensors: seq<Sensor<D>>, order: seq<nat>, lo: nat, hi: nat)
    requires SortedOrder(sensors, order) && AllInRange(sensors)
    requires lo < hi <= |order| && Mergeable(sensors, order, lo, hi)
    ensures Covers(sensors, FrameOf(sensors, order, lo, hi))
  {
    var f := FrameOf(sensors, order, lo, hi);
    PieceHasItsRegisters(sensors, order, lo, hi);
    PieceIsContiguous(sensors, order, lo, hi - 1);
    assert InRange(sensors[order[hi - 1]]);
    forall k: nat | k < |f.sensors| ensures SensorAt(sensors, f.start, f.sensors, k) {
      PieceIsContiguous(sensors, order, lo, lo + k);
      TakenOfSlice(sensors, order, lo, hi, k);
    }
  }

  function Joined(frames: seq<ReadFrame>, n: nat): seq<nat>
    requires n <= |frames|
  {
    if n == 0 then [] else Joined(frames, n - 1) + frames[n - 1].sensors
  }

  lemma {:induction false} JoinedIsPrefix<D>(
      sensors: seq<Sensor<D>>, order: seq<nat>, cuts: seq<nat>, frames: seq<ReadFrame>, n: nat)
    requires IndexesOk(sensors, order) && FramesOf(sensors, order, cuts, frames) && Cutting(sensors, order, cuts)
    requires n <= |frames|
    ensures cuts[n] <= |order| && Joined(frames, n) == order[..cuts[n]]
  {
    if n > 0 {
      JoinedIsPrefix(sensors, order, cuts, frames, n - 1);
      assert FrameAt(sensors, order, cuts, frames, n - 1) && PieceOk(sensors, order, cuts, n - 1);
    }
  }

  /** The frames partition the sensors, whatever the addresses: joined they are the order, and each asks
      for 1 to 125 registers, as many as its sensors have. */
  lemma FramesPartitionTheSensors<D>(sensors: seq<Sensor<D>>, order: seq<nat>, frames: seq<ReadFrame>)
    requires IndexesOk(sensors, order) && Merged(sensors, order, frames)
    ensures Joined(frames, |frames|) == order
    ensures forall c | 0 <= c < |frames| :: 1 <= frames[c].quantity <= MAX_REGISTERS && FrameOk(sensors, frames[c])
  {
    var cuts: seq<nat> :| Greedy(sensors, order, cuts, frames);
    JoinedIsPrefix(sensors, order, cuts, frames, |frames|);
    forall c | 0 <= c < |frames|
      ensures 1 <= frames[c].quantity <= MAX_REGISTERS && FrameOk(sensors, frames[c]) {
      assert FrameAt(sensors, order, cuts, frames, c) && PieceOk(sensors, order, cuts, c);
      PieceHasItsRegisters(sensors, order, cuts[c], cuts[c + 1]);
    }
  }

  lemma FramesCover<D>(sensors: seq<Sensor<D>>, order: seq<nat>, frames: seq<ReadFrame>)
    requires SortedOrder(sensors, order) && AllInRange(sensors) && Merged(sensors, order, frames)
    ensures forall c | 0 <= c < |frames| :: Covers(sensors, frames[c])
  {
    var cuts: seq<nat> :| Greedy(sensors, order, cuts, frames);
    forall c | 0 <= c < |frames| ensures Covers(sensors, frames[c]) {
      assert FrameAt(sensors, order, cuts, frames, c) && PieceOk(sensors, order, cuts, c);
      PieceCovers(sensors, order, cuts[c], cuts[c + 1]);
    }
  }

  // ---- What is published ----

  /** The value of sensor number i, read alone. */
  function DirectMessage<D>(a: Arithmetic<D>, sensors: seq<Sensor<D>>, bank: seq<u16>, i: nat): Message<D>
    requires i < |sensors| && InRange(sensors[i]) && |bank| == 65536
  {
    Message(sensors[i].id, Direct(a, sensors[i], bank))
  }

  function DirectMessages<D>(a: Arithmetic<D>, sensors: seq<Sensor<D>>, bank: seq<u16>, order: seq<nat>)
    : seq<Message<D>>
    requires IndexesOk(sensors, order) && AllInRange(sensors) && |bank| == 65536
  {
    seq(|order|, k requires 0 <= k < |order| => DirectMessage(a, sensors, bank, order[k]))
  }

  /** The frame's registers were answered from the bank. */
  ghost predicate AnsweredFrom(bank: seq<u16>, frame: ReadFrame, reply: ReadResult) {
    && frame.start + frame.quantity <= |bank|
    && reply == ReadResult(OK, bank[frame.start..frame.start + frame.quantity])
  }

  lemma SliceOfSlice(bank: seq<u16>, start: nat, quantity: nat, offset: nat, width: nat)
    requires start + quantity <= |bank| && offset + width <= quantity
    ensures bank[start..start + quantity][offset..offset + width] == bank[start + offset..start + offset + width]
  {
    var part := bank[start..start + quantity];
    var own, direct := part[offset..offset + width], bank[start + offset..start + offset + width];
    forall k: nat | k < width ensures own[k] == direct[k] {
      assert part[offset + k] == bank[start + offset + k];
    }
  }

  /** A sensor finds its own registers at its offset in the frame. */
  lemma SensorFindsItsRegisters<D>(a: Arithmetic<D>, sensor: Sensor<D>, bank: seq<u16>, frame: ReadFrame, offset: nat)
    requires InRange(sensor) && |bank| == 65536
    requires offset + Width(sensor.dataType) <= frame.quantity && frame.start + frame.quantity <= 65536
    requires sensor.registerAddr - REGISTER_BASE == frame.start + offset
    ensures ExtractValue(a, sensor, bank[frame.start..frame.start + frame.quantity], offset) == Direct(a, sensor, bank)
  {
    var regs := bank[frame.start..frame.start + frame.quantity];
    ExtractsOwnRegisters(a, sensor, regs, offset);
    SliceOfSlice(bank, frame.start, frame.quantity, offset, Width(sensor.dataType));
  }

  /** Message k of a frame: sensor k, with the registers behind those of the sensors before it. */
  lemma {:induction false} FrameValueAt<D>(
      a: Arithmetic<D>, sensors: seq<Sensor<D>>, indexes: seq<nat>, regs: seq<u16>, n: nat, k: nat)
    requires IndexesOk(sensors, indexes) && k < n <= |indexes| && Taken(sensors, indexes, n) <= |regs|
    ensures Taken(sensors, indexes, k) + Width(sensors[indexes[k]].dataType) <= Taken(sensors, indexes, n)
    ensures FrameValues(a, sensors, indexes, regs, n)[k] ==
            Message(sensors[indexes[k]].id,
                    ExtractValue(a, sensors[indexes[k]], regs, Taken(sensors, indexes, k)))
  {
    if k < n - 1 {
      FrameValueAt(a, sensors, indexes, regs, n - 1, k);
    }
  }

  /** One frame publishes the direct values of its sensors. */
  lemma FrameIsDirect<D>(a: Arithmetic<D>, sensors: seq<Sensor<D>>, frame: ReadFrame, reply: ReadResult, bank: seq<u16>)
    requires AllInRange(sensors) && |bank| == 65536 && Covers(sensors, frame) && AnsweredFrom(bank, frame, reply)
    ensures ReadOk(sensors, frame, reply)
    ensures ValuesOf(a, sensors, frame, reply) == DirectMessages(a, sensors, bank, frame.sensors)
  {
    forall k: nat | k < |frame.sensors|
      ensures ValuesOf(a, sensors, frame, reply)[k] == DirectMessage(a, sensors, bank, frame.sensors[k]) {
      FrameValueAt(a, sensors, frame.sensors, reply.registers, |frame.sensors|, k);
      assert SensorAt(sensors, frame.start, frame.sensors, k);
      SensorFindsItsRegisters(a, sensors[frame.sensors[k]], bank, frame, Taken(sensors, frame.sensors, k));
    }
  }

  lemma JoinDirect<D>(a: Arithmetic<D>, sensors: seq<Sensor<D>>, bank: seq<u16>, p: seq<nat>, q: seq<nat>)
    requires IndexesOk(sensors, p) && IndexesOk(sensors, q) && AllInRange(sensors) && |bank| == 65536
    ensures IndexesOk(sensors, p + q)
    ensures DirectMessages(a, sensors, bank, p + q) ==
            DirectMessages(a, sensors, bank, p) + DirectMessages(a, sensors, bank, q)
  {
  }

  /** Batched reading refines reading sensor by sensor, frame after frame. */
  lemma {:induction false} FramesAreDirect<D>(
      a: Arithmetic<D>, sensors: seq<Sensor<D>>, frames: seq<ReadFrame>, replies: seq<ReadResult>, bank: seq<u16>,
      n: nat)
    requires AllInRange(sensors) && |bank| == 65536 && n <= |frames| == |replies|
    requires forall f | 0 <= f < n :: Covers(sensors, frames[f]) && AnsweredFrom(bank, frames[f], replies[f])
    ensures IndexesOk(sensors, Joined(frames, n))
    ensures forall f | 0 <= f < n :: ReadOk(sensors, frames[f], replies[f])
    ensures Published(a, sensors, frames, replies, n) == DirectMessages(a, sensors, bank, Joined(frames, n))
  {
    if n > 0 {
      FramesAreDirect(a, sensors, frames, replies, bank, n - 1);
      assert Covers(sensors, frames[n - 1]);
      FrameIsDirect(a, sensors, frames[n - 1], replies[n - 1], bank);
      JoinDirect(a, sensors, bank, Joined(frames, n - 1), frames[n - 1].sensors);
    }
  }

  // ---- Exactly one message for each sensor ----

  function Select<T>(table: seq<T>, p: seq<nat>): (s: seq<T>)
    requires forall k | 0 <= k < |p| :: p[k] < |table|
    ensures |s| == |p|
  {
    seq(|p|, k requires 0 <= k < |p| => table[p[k]])
  }

  lemma SelectWithout<T>(table: seq<T>, q: seq<nat>, j: nat)
    requires (forall k | 0 <= k < |q| :: q[k] < |table|) && j < |q|
    ensures multiset(q[..j] + q[j + 1..]) == multiset(q) - multiset{q[j]}
    ensures multiset(Select(table, q)) == multiset(Select(table, q[..j] + q[j + 1..])) + multiset{table[q[j]]}
  {
    var s := Select(table, q);
    assert q == q[..j] + [q[j]] + q[j + 1..];
    assert s == s[..j] + [s[j]] + s[j + 1..];
    assert Select(table, q[..j] + q[j + 1..]) == s[..j] + s[j + 1..];
  }

  /** Permuted indexes select permuted elements. */
  lemma {:induction false} SelectPermuted<T>(table: seq<T>, p: seq<nat>, q: seq<nat>)
    requires forall k | 0 <= k < |p| :: p[k] < |table|
    requires forall k | 0 <= k < |q| :: q[k] < |table|
    requires multiset(p) == multiset(q)
    ensures multiset(Select(table, p)) == multiset(Select(table, q))
    decreases |p|
  {
    if p == [] {
      assert |multiset(q)| == 0;
    } else {
      assert p[0] in multiset(q);
      var j: nat :| j < |q| && q[j] == p[0];
      SelectWithout(table, p, 0);
      SelectWithout(table, q, j);
      SelectPermuted(table, p[..0] + p[1..], q[..j] + q[j + 1..]);
    }
  }

  lemma PermutedMessages<D>(a: Arithmetic<D>, sensors: seq<Sensor<D>>, bank: seq<u16>, order: seq<nat>)
    requires SortedOrder(sensors, order) && AllInRange(sensors) && |bank| == 65536
    ensures multiset(DirectMessages(a, sensors, bank, order)) ==
            multiset(DirectMessages(a, sensors, bank, Indexes(|sensors|)))
  {
    var all := Indexes(|sensors|);
    var table := DirectMessages(a, sensors, bank, all);
    assert DirectMessages(a, sensors, bank, order) == Select(table, order);
    assert table == Select(table, all);
    SelectPermuted(table, order, all);
  }

  /** An error-free round over the merged frames publishes exactly one value for each configured
      sensor, equal to reading that sensor's own registers alone. */
  lemma OneValuePerSensor<D>(
      a: Arithmetic<D>, sensors: seq<Sensor<D>>, order: seq<nat>, frames: seq<ReadFrame>,
      replies: seq<ReadResult>, bank: seq<u16>)
    requires SortedOrder(sensors, order) && AllInRange(sensors) && |bank| == 65536
    requires Merged(sensors, order, frames)
    requires |frames| == |replies|
    requires forall f | 0 <= f < |frames| :: AnsweredFrom(bank, frames[f], replies[f])
    ensures forall f | 0 <= f < |frames| :: ReadOk(sensors, frames[f], replies[f])
    ensures multiset(Published(a, sensors, frames, replies, |frames|)) ==
            multiset(DirectMessages(a, sensors, bank, Indexes(|sensors|)))
  {
    FramesCover(sensors, order, frames);
    FramesAreDirect(a, sensors, frames, replies, bank, |frames|);
    FramesPartitionTheSensors(sensors, order, frames);
    PermutedMessages(a, sensors, bank, order);
  }

  // ---- Over the wire ----

  /** A slave that holds the bank: it reads the request and answers with the registers asked for. */
  function Slave(bank: seq<u16>, request: seq<byte>): seq<byte>
    requires |request| == 12 && |bank| == 65536
  {
    var txn, unit := TransactionOf(request), request[6];
    var start, quantity := StartOf(request), QuantityOf(request);
    if quantity == 0 || quantity > MAX_REGISTERS then
      [High(txn), Low(txn), 0, 0, 0, 3, unit, 131, 3]
    else if start + quantity > 65536 then
      [High(txn), Low(txn), 0, 0, 0, 3, unit, 131, 2]
    else
      Reply(txn, unit, bank[start..start + quantity], [])
  }

  /** For every transaction, unit and frame: the client decodes the slave's answer to its request as
      exactly the registers the bank holds there. */
  lemma FrameReadOverTheWire(bank: seq<u16>, txn: u16, unit: byte, frame: ReadFrame, rest: seq<byte>)
    requires |bank| == 65536
    requires 1 <= frame.quantity <= MAX_REGISTERS && frame.start + frame.quantity <= 65536
    ensures var request := Request(txn, unit, frame.start, frame.quantity);
            var (reply, connected) := Parse(txn, unit, frame.quantity, Slave(bank, request) + rest);
            AnsweredFrom(bank, frame, reply) && connected
  {
    RequestRoundTrip(txn, unit, frame.start, frame.quantity);
    ReplyRoundTrip(txn, unit, bank[frame.start..frame.start + frame.quantity], [], rest);
  }

  /** The reply is what the client makes of the slave's answer to its request. */
  ghost predicate AnsweredBySlave(bank: seq<u16>, unit: byte, frame: ReadFrame, txn: u16, reply: ReadResult)
    requires |bank| == 65536
  {
    && frame.quantity < 65536
    && reply == Parse(txn, unit, frame.quantity, Slave(bank, Request(txn, unit, frame.start, frame.quantity))).0
  }

  lemma SlaveAnswersFromBank(bank: seq<u16>, unit: byte, frame: ReadFrame, txn: u16, reply: ReadResult)
    requires |bank| == 65536 && AnsweredBySlave(bank, unit, frame, txn, reply)
    requires 1 <= frame.quantity <= MAX_REGISTERS && frame.start + frame.quantity <= 65536
    ensures AnsweredFrom(bank, frame, reply)
  {
    FrameReadOverTheWire(bank, txn, unit, frame, []);
    var answer := Slave(bank, Request(txn, unit, frame.start, frame.quantity));
    assert answer + [] == answer;
  }

  /** What the slave refuses reaches the client as the standard's exception code: 3 for a bad quantity, 2 for
      registers outside the bank. Neither counts as read, so that a round ends there. */
  lemma RefusedFrameIsUnreadable<D>(
      sensors: seq<Sensor<D>>, bank: seq<u16>, txn: u16, unit: byte, frame: ReadFrame, rest: seq<byte>)
    requires |bank| == 65536 && frame.quantity < 65536
    requires frame.quantity == 0 || frame.quantity > 125 || frame.start + frame.quantity > 65536
    ensures var request := Request(txn, unit, frame.start, frame.quantity);
            var (reply, connected) := Parse(txn, unit, frame.quantity, Slave(bank, request) + rest);
            && reply == ReadResult(if frame.quantity == 0 || frame.quantity > 125 then 3 else 2, []) && connected
            && !ReadOk(sensors, frame, reply)
  {
    var code: byte := if frame.quantity == 0 || frame.quantity > 125 then 3 else 2;
    RequestRoundTrip(txn, unit, frame.start, frame.quantity);
    ExceptionCodeIsRead(txn, unit, frame.quantity, 131, code, rest);
    var answer := Slave(bank, Request(txn, unit, frame.start, frame.quantity));
    assert answer + rest == Exception(txn, unit, 131, code, rest);
  }

  /** A client's reply to a frame is Ok and yet too short exactly when the slave's answer was an exception
      (with code 0, or without a code). */
  lemma TooShortMeansException(txn: u16, unitId: int, frame: ReadFrame, stream: seq<byte>)
    requires 1 <= frame.quantity <= MAX_REGISTERS
    requires Parse(txn, unitId, frame.quantity, stream).0.error == OK
    ensures frame.quantity <= |Parse(txn, unitId, frame.quantity, stream).0.registers| <==> !IsException(stream)
    ensures IsException(stream) ==> Parse(txn, unitId, frame.quantity, stream).0.registers == []
  {
    OkMeansRegisters(txn, unitId, frame.quantity, stream);
  }

  /** The whole way: sensors merged, requests encoded, answered by the slave, decoded, sliced. */
  lemma PollingOverTheWire<D>(
      a: Arithmetic<D>, sensors: seq<Sensor<D>>, order: seq<nat>, frames: seq<ReadFrame>,
      replies: seq<ReadResult>, bank: seq<u16>, unit: byte, txns: seq<u16>)
    requires SortedOrder(sensors, order) && AllInRange(sensors) && |bank| == 65536
    requires Merged(sensors, order, frames)
    requires |frames| == |replies| == |txns|
    requires forall f | 0 <= f < |frames| :: AnsweredBySlave(bank, unit, frames[f], txns[f], replies[f])
    ensures forall f | 0 <= f < |frames| :: ReadOk(sensors, frames[f], replies[f])
    ensures multiset(Published(a, sensors, frames, replies, |frames|)) ==
            multiset(DirectMessages(a, sensors, bank, Indexes(|sensors|)))
  {
    FramesCover(sensors, order, frames);
    forall f | 0 <= f < |frames| ensures AnsweredFrom(bank, frames[f], replies[f]) {
      assert Covers(sensors, frames[f]);
      SlaveAnswersFromBank(bank, unit, frames[f], txns[f], replies[f]);
    }
    OneValuePerSensor(a, sensors, order, frames, replies, bank);
  }
}
