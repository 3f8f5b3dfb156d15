/** The values that registers stand for. */
module SensorValues {
  import opened ModbusFrames
  import opened SensorFrames

  /** Number operations that the poller uses, left uninterpreted: integer to number, the number of a
      32-bit float pattern, and multiplication. */
  datatype Arithmetic<!D> = Arithmetic(ofInt: int -> D, ofFloatBits: int -> D, times: (D, D) -> D)

  datatype Message<D> = Message(sensorId: int, value: D)

  function Signed(raw: int, modulus: int): int { if raw < modulus / 2 then raw else raw - modulus }

  /** The value of a sensor, given its own registers. */
  function Decode<D>(a: Arithmetic<D>, sensor: Sensor<D>, words: seq<u16>): D
    requires |words| == Width(sensor.dataType)
  {
    var raw: int := if |words| == 2 then words[0] as int * 65536 + words[1] as int else words[0] as int;
    var number :=
      if sensor.dataType == "float32" then a.ofFloatBits(raw)
      else if sensor.dataType == "int32" then a.ofInt(Signed(raw, 0x1_0000_0000))
      else if sensor.dataType == "int16" then a.ofInt(Signed(raw, 65536))
      else a.ofInt(raw);
    a.times(number, sensor.scale)
  }

  /** Signed is two's complement: the number of the range that is congruent to the pattern. */
  lemma SignedIsTwosComplement(raw: int, bits16: bool)
    requires 0 <= raw < if bits16 then 65536 else 0x1_0000_0000
    ensures var m := if bits16 then 65536 else 0x1_0000_0000;
            -(m / 2) <= Signed(raw, m) < m / 2 && (Signed(raw, m) == raw || Signed(raw, m) == raw - m)
  {
  }

  /** extractValue: the registers of a whole frame, with the sensor's own beginning at offset. */
  function ExtractValue<D>(a: Arithmetic<D>, sensor: Sensor<D>, regs: seq<u16>, offset: nat): D
    requires offset + Width(sensor.dataType) <= |regs|
  {
    var raw0 := regs[offset];
    var value :=
      if sensor.dataType == "uint16" then a.ofInt(raw0)
      else if sensor.dataType == "int16" then a.ofInt(Signed(raw0, 65536))
      else if sensor.dataType == "uint32" then a.ofInt(Join(raw0, regs[offset + 1]))
      else if sensor.dataType == "int32" then a.ofInt(Signed(Join(raw0, regs[offset + 1]), 0x1_0000_0000))
      else if sensor.dataType == "float32" then a.ofFloatBits(Join(raw0, regs[offset + 1]))
      else a.ofInt(raw0);
    a.times(value, sensor.scale)
  }

  function Join(high: u16, low: u16): int { high * 65536 + low }

  lemma ExtractsOwnRegisters<D>(a: Arithmetic<D>, sensor: Sensor<D>, regs: seq<u16>, offset: nat)
    requires offset + Width(sensor.dataType) <= |regs|
    ensures ExtractValue(a, sensor, regs, offset) ==
            Decode(a, sensor, regs[offset..offset + Width(sensor.dataType)])
  {
    var words := regs[offset..offset + Width(sensor.dataType)];
    assert words[0] == regs[offset];
    assert |words| == 2 ==> words[1] == regs[offset + 1];
  }

  /** Reading the sensor alone, straight from the register bank. */
  function Direct<D>(a: Arithmetic<D>, sensor: Sensor<D>, bank: seq<u16>): D
    requires InRange(sensor) && |bank| == 65536
  {
    var at := sensor.registerAddr - REGISTER_BASE;
    Decode(a, sensor, bank[at..at + Width(sensor.dataType)])
  }

  /** The value of a sensor in the numbers of the bank: register 40001 is the first, 32-bit types take two
      registers with the high word first, signed ones are read as two's complement, and an unknown type is
      an unsigned word. */
  lemma DirectInNumbers<D>(a: Arithmetic<D>, sensor: Sensor<D>, bank: seq<u16>)
    requires InRange(sensor) && |bank| == 65536
    ensures 40001 <= sensor.registerAddr <= 105536
    ensures var at := sensor.registerAddr - 40001;
            var word: int := bank[at];
            var wide := sensor.dataType in ["int32", "uint32", "float32"];
            && (wide ==> at + 1 < 65536)
            && (wide ==>
                var both := word * 65536 + bank[at + 1];
                && (sensor.dataType == "uint32" ==> Direct(a, sensor, bank) == a.times(a.ofInt(both), sensor.scale))
                && (sensor.dataType == "int32" ==>
                    Direct(a, sensor, bank) ==
                    a.times(a.ofInt(if both >= 0x8000_0000 then both - 0x1_0000_0000 else both), sensor.scale))
                && (sensor.dataType == "float32" ==>
                    Direct(a, sensor, bank) == a.times(a.ofFloatBits(both), sensor.scale)))
            && (sensor.dataType == "int16" ==>
                Direct(a, sensor, bank) ==
                a.times(a.ofInt(if word >= 32768 then word - 65536 else word), sensor.scale))
            && (!wide && sensor.dataType != "int16" ==>
                Direct(a, sensor, bank) == a.times(a.ofInt(word), sensor.scale))
  {
    var at := sensor.registerAddr - REGISTER_BASE;
    var words := bank[at..at + Width(sensor.dataType)];
    assert words[0] == bank[at] && (|words| == 2 ==> words[1] == bank[at + 1]);
  }

  /** The address lies in the holding-register range, with the sensor's width. */
  predicate InRange<D>(sensor: Sensor<D>) {
    0 <= sensor.registerAddr - REGISTER_BASE && sensor.registerAddr - REGISTER_BASE + Width(sensor.dataType) <= 65536
  }
}

/** The poller of one device: merging sensors into frames, reading them, publishing the values. */
module DevicePoller {
  import opened ModbusFrames
  import opened SensorFrames
  import opened SensorValues

  /** The frames saved so far, all closed by a sensor that did not fit. */
  ghost predicate Saved<D>(sensors: seq<Sensor<D>>, order: seq<nat>, cuts: seq<nat>, frames: seq<ReadFrame>)
    requires IndexesOk(sensors, order)
  {
    && FramesOf(sensors, order, cuts, frames) && cuts[0] == 0
    && (forall c: nat | c < |frames| :: PieceOk(sensors, order, cuts, c))
  }

  ghost predicate AllFull<D>(sensors: seq<Sensor<D>>, order: seq<nat>, cuts: seq<nat>)
    requires IndexesOk(sensors, order)
  {
    forall c: nat | c + 1 < |cuts| :: Full(sensors, order, cuts, c)
  }

  lemma SaveFrame<D>(sensors: seq<Sensor<D>>, order: seq<nat>, cuts: seq<nat>, frames: seq<ReadFrame>, i: nat)
    requires IndexesOk(sensors, order) && Saved(sensors, order, cuts, frames)
    requires cuts[|frames|] < i <= |order| && Mergeable(sensors, order, cuts[|frames|], i)
    ensures Saved(sensors, order, cuts + [i], frames + [FrameOf(sensors, order, cuts[|frames|], i)])
  {
    var cuts', frames' := cuts + [i], frames + [FrameOf(sensors, order, cuts[|frames|], i)];
    forall c: nat | c < |frames'|
      ensures PieceOk(sensors, order, cuts', c) && FrameAt(sensors, order, cuts', frames', c) {
      if c < |frames| {
        assert PieceOk(sensors, order, cuts, c) && FrameAt(sensors, order, cuts, frames, c);
      }
    }
  }

  lemma SaveFullFrame<D>(sensors: seq<Sensor<D>>, order: seq<nat>, cuts: seq<nat>, i: nat)
    requires IndexesOk(sensors, order) && cuts != [] && AllFull(sensors, order, cuts)
    requires cuts[|cuts| - 1] < i < |order| && !Mergeable(sensors, order, cuts[|cuts| - 1], i + 1)
    ensures AllFull(sensors, order, cuts + [i])
  {
    forall c: nat | c + 1 < |cuts + [i]| ensures Full(sensors, order, cuts + [i], c) {
      if c + 1 < |cuts| {
        assert Full(sensors, order, cuts, c);
      }
    }
  }

  lemma LastFrame<D>(sensors: seq<Sensor<D>>, order: seq<nat>, cuts: seq<nat>, i: nat)
    requires IndexesOk(sensors, order) && cuts != [] && AllFull(sensors, order, cuts)
    ensures Maximal(sensors, order, cuts + [i])
  {
    forall c: nat | c + 2 < |cuts + [i]| ensures Full(sensors, order, cuts + [i], c) {
      assert Full(sensors, order, cuts, c);
    }
  }

  /** A sensor that opens a frame. */
  lemma OpenPiece<D>(sensors: seq<Sensor<D>>, order: seq<nat>, i: nat)
    requires IndexesOk(sensors, order) && i < |order|
    ensures Mergeable(sensors, order, i, i + 1)
    ensures FrameOf(sensors, order, i, i + 1) ==
            ReadFrame(OffsetAt(sensors, order, i), Width(sensors[order[i]].dataType), [order[i]])
  {
    assert order[i..i + 1] == [order[i]];
  }

  /** After the first i sensors: some frames are saved and full, and one is open. */
  ghost predicate Merging<D>(
      sensors: seq<Sensor<D>>, order: seq<nat>, cuts: seq<nat>, frames: seq<ReadFrame>, current: ReadFrame, i: nat)
    requires IndexesOk(sensors, order)
  {
    && Saved(sensors, order, cuts, frames) && AllFull(sensors, order, cuts)
    && cuts[|frames|] < i <= |order| && Mergeable(sensors, order, cuts[|frames|], i)
    && current == FrameOf(sensors, order, cuts[|frames|], i)
  }

  ghost predicate Underway<D>(
      sensors: seq<Sensor<D>>, order: seq<nat>, frames: seq<ReadFrame>, current: ReadFrame, i: nat)
    requires IndexesOk(sensors, order)
  {
    exists cuts: seq<nat> :: Merging(sensors, order, cuts, frames, current, i)
  }

  /** The body of the merge loop from the second sensor on: join the open frame or save it. */
  method AddSensor<D>(sensors: seq<Sensor<D>>, order: seq<nat>, i: nat, current: ReadFrame, frames: seq<ReadFrame>)
    returns (current': ReadFrame, frames': seq<ReadFrame>)
    requires IndexesOk(sensors, order) && i < |order| && Underway(sensors, order, frames, current, i)
    ensures Underway(sensors, order, frames', current', i + 1)
  {
    ghost var cuts: seq<nat> :| Merging(sensors, order, cuts, frames, current, i);
    ExtendPiece(sensors, order, cuts[|frames|], i);
    var index := order[i];
    var modbusAddr := Offset(sensors[index].registerAddr);
    var regCount := Width(sensors[index].dataType);
    var frameEnd := Plus(current.start, current.quantity);
    if modbusAddr == frameEnd && current.quantity + regCount <= MAX_REGISTERS {
      current' := ReadFrame(current.start, current.quantity + regCount, current.sensors + [index]);
      frames' := frames;
      assert Merging(sensors, order, cuts, frames', current', i + 1);
    } else {
      SaveFrame(sensors, order, cuts, frames, i);
      SaveFullFrame(sensors, order, cuts, i);
      OpenPiece(sensors, order, i);
      frames' := frames + [current];
      current' := ReadFrame(modbusAddr, regCount, [index]);
      assert Merging(sensors, order, cuts + [i], frames', current', i + 1);
    }
  }

  lemma Opening<D>(sensors: seq<Sensor<D>>, order: seq<nat>)
    requires IndexesOk(sensors, order) && order != []
    ensures Underway(sensors, order, [],
                     ReadFrame(OffsetAt(sensors, order, 0), Width(sensors[order[0]].dataType), [order[0]]), 1)
  {
    OpenPiece(sensors, order, 0);
    assert Merging(sensors, order, [0], [], FrameOf(sensors, order, 0, 1), 1);
  }

  lemma Closing<D>(sensors: seq<Sensor<D>>, order: seq<nat>, frames: seq<ReadFrame>, current: ReadFrame)
    requires IndexesOk(sensors, order) && Underway(sensors, order, frames, current, |order|)
    ensures Merged(sensors, order, frames + [current])
  {
    var cuts: seq<nat> :| Merging(sensors, order, cuts, frames, current, |order|);
    SaveFrame(sensors, order, cuts, frames, |order|);
    LastFrame(sensors, order, cuts, |order|);
    assert Greedy(sensors, order, cuts + [|order|], frames + [current]);
  }

  /** mergeFrames, over the order that sorting the sensors has produced. */
  method MergeFrames<D>(sensors: seq<Sensor<D>>, order: seq<nat>) returns (frames: seq<ReadFrame>)
    requires IndexesOk(sensors, order)
    ensures Merged(sensors, order, frames)
  {
    frames := [];
    var current := ReadFrame(0, 0, []);
    var hasFrame := false;
    for i := 0 to |order|
      invariant hasFrame == (i > 0)
      invariant if hasFrame then Underway(sensors, order, frames, current, i) else frames == []
    {
      if !hasFrame {
        Opening(sensors, order);
        current := ReadFrame(Offset(sensors[order[i]].registerAddr), Width(sensors[order[i]].dataType), [order[i]]);
        hasFrame := true;
      } else {
        current, frames := AddSensor(sensors, order, i, current, frames);
      }
    }
    if hasFrame {
      Closing(sensors, order, frames, current);
      frames := frames + [current];
    } else {
      assert Greedy(sensors, order, [0], []);
    }
  }

  /** The end of the open frame is where the last sensor ends. */
  lemma FrameEnd<D>(sensors: seq<Sensor<D>>, order: seq<nat>, lo: nat, i: nat)
    requires IndexesOk(sensors, order) && lo < i < |order| && Mergeable(sensors, order, lo, i)
    ensures Taken(sensors, order, lo) <= Taken(sensors, order, i)
    ensures Plus(OffsetAt(sensors, order, lo), Taken(sensors, order, i) - Taken(sensors, order, lo)) ==
            Plus(OffsetAt(sensors, order, i - 1), Width(sensors[order[i - 1]].dataType))
  {
    OffsetInPiece(sensors, order, lo, i - 1);
    PlusPlus(OffsetAt(sensors, order, lo), Taken(sensors, order, i - 1) - Taken(sensors, order, lo),
             Width(sensors[order[i - 1]].dataType));
  }

  lemma MergeableNext<D>(sensors: seq<Sensor<D>>, order: seq<nat>, lo: nat, i: nat)
    requires IndexesOk(sensors, order) && lo < i < |order| && Mergeable(sensors, order, lo, i)
    ensures Mergeable(sensors, order, lo, i + 1) <==>
            Follows(sensors, order, i) && Taken(sensors, order, i + 1) - Taken(sensors, order, lo) <= MAX_REGISTERS
  {
  }

  /** What decides whether the next sensor joins the current frame. */
  lemma ExtendPiece<D>(sensors: seq<Sensor<D>>, order: seq<nat>, lo: nat, i: nat)
    requires IndexesOk(sensors, order) && lo < i < |order| && Mergeable(sensors, order, lo, i)
    ensures var f := FrameOf(sensors, order, lo, i);
            var width := Width(sensors[order[i]].dataType);
            && (Mergeable(sensors, order, lo, i + 1) <==>
                OffsetAt(sensors, order, i) == Plus(f.start, f.quantity) && f.quantity + width <= MAX_REGISTERS)
            && FrameOf(sensors, order, lo, i + 1) == ReadFrame(f.start, f.quantity + width, f.sensors + [order[i]])
  {
    FrameEnd(sensors, order, lo, i);
    MergeableNext(sensors, order, lo, i);
    assert order[lo..i + 1] == order[lo..i] + [order[i]];
  }

  // ---- One round of polling ----

  /** What the first n sensors of a frame publish: each takes its registers after those of the sensors
      before it. */
  function FrameValues<D>(a: Arithmetic<D>, sensors: seq<Sensor<D>>, indexes: seq<nat>, regs: seq<u16>, n: nat)
    : (messages: seq<Message<D>>)
    requires IndexesOk(sensors, indexes) && n <= |indexes| && Taken(sensors, indexes, n) <= |regs|
    ensures |messages| == n
  {
    if n == 0 then []
    else
      var sensor := sensors[indexes[n - 1]];
      FrameValues(a, sensors, indexes, regs, n - 1)
        + [Message(sensor.id, ExtractValue(a, sensor, regs, Taken(sensors, indexes, n - 1)))]
  }

  /** The frame's sensors exist and take up its registers exactly. */
  ghost predicate FrameOk<D>(sensors: seq<Sensor<D>>, frame: ReadFrame) {
    IndexesOk(sensors, frame.sensors) && Taken(sensors, frame.sensors, |frame.sensors|) == frame.quantity
  }

  /** The frame was read: Ok, with all the registers asked for. */
  ghost predicate ReadOk<D>(sensors: seq<Sensor<D>>, frame: ReadFrame, reply: ReadResult) {
    FrameOk(sensors, frame) && reply.error == OK && frame.quantity <= |reply.registers|
  }

  function ValuesOf<D>(a: Arithmetic<D>, sensors: seq<Sensor<D>>, frame: ReadFrame, reply: ReadResult): seq<Message<D>>
    requires ReadOk(sensors, frame, reply)
  {
    FrameValues(a, sensors, frame.sensors, reply.registers, |frame.sensors|)
  }

  /** What the first n frames publish. */
  function Published<D>(
      a: Arithmetic<D>, sensors: seq<Sensor<D>>, frames: seq<ReadFrame>, replies: seq<ReadResult>, n: nat)
    : seq<Message<D>>
    requires n <= |frames| && n <= |replies|
    requires forall f | 0 <= f < n :: ReadOk(sensors, frames[f], replies[f])
  {
    if n == 0 then []
    else
      Published(a, sensors, frames, replies, n - 1) + ValuesOf(a, sensors, frames[n - 1], replies[n - 1])
  }

  /** How many of the first n sensors find their registers among those available. */
  function Covered<D>(sensors: seq<Sensor<D>>, indexes: seq<nat>, available: nat, n: nat): (k: nat)
    requires IndexesOk(sensors, indexes) && n <= |indexes|
    ensures k <= n && Taken(sensors, indexes, k) <= available
    ensures k < n ==> available < Taken(sensors, indexes, n)
  {
    if Taken(sensors, indexes, n) <= available then n else Covered(sensors, indexes, available, n - 1)
  }

  /** The first sensor that does not find its registers ends the count. */
  lemma {:induction false} CoveredIs<D>(sensors: seq<Sensor<D>>, indexes: seq<nat>, available: nat, n: nat, k: nat)
    requires IndexesOk(sensors, indexes) && k < n <= |indexes|
    requires Taken(sensors, indexes, k) <= available < Taken(sensors, indexes, k + 1)
    ensures Covered(sensors, indexes, available, n) == k
  {
    TakenGrows(sensors, indexes, k + 1, n);
    if k + 1 < n {
      CoveredIs(sensors, indexes, available, n - 1, k);
    }
  }

  /** What a reply makes of its frame: the values of the sensors that it covers. */
  function CoveredValues<D>(a: Arithmetic<D>, sensors: seq<Sensor<D>>, frame: ReadFrame, reply: ReadResult)
    : seq<Message<D>>
    requires FrameOk(sensors, frame)
  {
    FrameValues(a, sensors, frame.sensors, reply.registers,
                Covered(sensors, frame.sensors, |reply.registers|, |frame.sensors|))
  }

  /** The sensors of one frame. complete is false when a sensor's registers lie past the end of the
      reply: the program then reads outside its vector, and nothing is said of what follows. */
  method PublishFrame<D>(a: Arithmetic<D>, sensors: seq<Sensor<D>>, frame: ReadFrame, reply: ReadResult)
    returns (messages: seq<Message<D>>, complete: bool)
    requires FrameOk(sensors, frame)
    ensures messages == CoveredValues(a, sensors, frame, reply)
    ensures complete <==> frame.quantity <= |reply.registers|
  {
    messages, complete := [], true;
    var offsetInFrame := 0;
    var k := 0;
    while k < |frame.sensors|
      invariant k <= |frame.sensors|
      invariant offsetInFrame == Taken(sensors, frame.sensors, k) <= |reply.registers|
      invariant messages == FrameValues(a, sensors, frame.sensors, reply.registers, k)
    {
      var sensor := sensors[frame.sensors[k]];
      if offsetInFrame + Width(sensor.dataType) > |reply.registers| {
        CoveredIs(sensors, frame.sensors, |reply.registers|, |frame.sensors|, k);
        return messages, false;
      }
      var value := ExtractValue(a, sensor, reply.registers, offsetInFrame);
      offsetInFrame := offsetInFrame + Width(sensor.dataType);
      messages := messages + [Message(sensor.id, value)];
      k := k + 1;
    }
  }

  /** How a round ends: all frames read; a frame not readable, so that the poller reconnects; or a reply
      taken for Ok without the registers it should have. */
  datatype RoundEnd = AllRead | Unreadable | PastEnd

  /** One round of pollLoop: the frames one after the other, up to the first that is not read.
      replies holds what reading each frame would give. */
  method PollOnce<D>(a: Arithmetic<D>, sensors: seq<Sensor<D>>, frames: seq<ReadFrame>, replies: seq<ReadResult>)
    returns (published: seq<Message<D>>, end: RoundEnd, read: nat)
    requires |replies| == |frames|
    requires forall f | 0 <= f < |frames| :: FrameOk(sensors, frames[f])
    ensures read <= |frames| && forall f | 0 <= f < read :: ReadOk(sensors, frames[f], replies[f])
    ensures end == AllRead <==> read == |frames|
    ensures read < |frames| ==> !ReadOk(sensors, frames[read], replies[read])
    ensures read < |frames| ==> (end == Unreadable <==> replies[read].error != OK)
    ensures published == Published(a, sensors, frames, replies, read) +
                         if end == PastEnd then CoveredValues(a, sensors, frames[read], replies[read]) else []
  {
    published, end, read := [], AllRead, 0;
    while read < |frames|
      invariant read <= |frames| && end == AllRead
      invariant forall f | 0 <= f < read :: ReadOk(sensors, frames[f], replies[f])
      invariant published == Published(a, sensors, frames, replies, read)
    {
      var result := replies[read];
      if result.error != OK {
        return published, Unreadable, read;
      }
      var messages, complete := PublishFrame(a, sensors, frames[read], result);
      published := published + messages;
      if !complete {
        return published, PastEnd, read;
      }
      read := read + 1;
    }
  }
}
