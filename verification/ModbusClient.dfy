/** Bytes and registers of Modbus TCP: the frames that a client sends and a slave answers with. */
module ModbusFrames {
  import opened Bytes

  type u16 = x: int | 0 <= x < 65536

  const READ_HOLDING: byte := 3
  const EXCEPTION_BIT := 128
  const MAX_REGISTERS := 125

  // Error codes of the client; codes from the slave's exception replies are passed on as they are.
  const OK := 0
  const ILLEGAL_DATA_VALUE := 3
  const SOCKET_ERROR := -1
  const TIMEOUT := -2
  const TRUNCATED_FRAME := -3
  const TRANSACTION_MISMATCH := -4

  function High(v: u16): byte { v / 256 }

  function Low(v: u16): byte { v % 256 }

  /** A 16-bit counter that wraps around. */
  function NextTransaction(txn: u16): u16 { if txn == 65535 then 0 else txn + 1 }

  function U16(high: byte, low: byte): u16 { high * 256 + low }

  function BigEndian(v: u16): seq<byte> { [High(v), Low(v)] }

  function Unit(unitId: int): byte { unitId % 256 }

  /** MBAP header and request PDU of function 0x03. */
  function Request(txn: u16, unitId: int, start: u16, quantity: u16): seq<byte> {
    [High(txn), Low(txn), 0, 0, 0, 6, Unit(unitId),
     READ_HOLDING, High(start), Low(start), High(quantity), Low(quantity)]
  }

  /** The first n registers in big-endian order. */
  function PayloadOfFirst(regs: seq<u16>, n: nat): (data: seq<byte>)
    requires n <= |regs|
    ensures |data| == 2 * n
    ensures forall k | 0 <= k < n :: data[2 * k] == High(regs[k]) && data[2 * k + 1] == Low(regs[k])
  {
    if n == 0 then [] else PayloadOfFirst(regs, n - 1) + BigEndian(regs[n - 1])
  }

  function Payload(regs: seq<u16>): seq<byte> { PayloadOfFirst(regs, |regs|) }

  /** MBAP header, function code and byte count of a reply. */
  function Header(txn: u16, unit: byte, count: byte): seq<byte> {
    [High(txn), Low(txn), 0, 0, High(3 + count as int), Low(3 + count as int), unit, READ_HOLDING, count]
  }

  /** The reply of a slave; the standard has no pad. */
  function Reply(txn: u16, unit: byte, regs: seq<u16>, pad: seq<byte>): seq<byte>
    requires 2 * |regs| + |pad| < 256
  {
    Header(txn, unit, 2 * |regs| + |pad|) + Payload(regs) + pad
  }

  function Registers(data: seq<byte>, n: nat): seq<u16>
    requires 2 * n <= |data|
  {
    seq(n, i requires 0 <= i < n => U16(data[2 * i], data[2 * i + 1]))
  }

  datatype ReadResult = ReadResult(error: int, registers: seq<u16>)

  function Failed(error: int): ReadResult { ReadResult(error, []) }

  /** What the client makes of the bytes that arrive: its result, and whether it keeps the
      connection. Too few bytes are a timeout or a closed connection. */
  function Parse(txn: u16, unitId: int, quantity: u16, stream: seq<byte>): (ReadResult, bool) {
    if |stream| < 7 then (Failed(TIMEOUT), false)
    else
      var length := U16(stream[4], stream[5]);
      if U16(stream[0], stream[1]) != txn then (Failed(TRANSACTION_MISMATCH), true)
      else if stream[2] != 0 || stream[3] != 0 || stream[6] != unitId then (Failed(TRUNCATED_FRAME), true)
      else if length < 2 then (Failed(TRUNCATED_FRAME), true)
      else if |stream| < 6 + length then (Failed(TIMEOUT), false)
      else
        var pdu := stream[7..6 + length];
        if pdu[0] >= EXCEPTION_BIT then (Failed(if |pdu| > 1 then pdu[1] else 0), true)
        else if pdu[0] != READ_HOLDING || |pdu| < 2 then (Failed(TRUNCATED_FRAME), true)
        else if pdu[1] / 2 != quantity || |pdu| != 2 + pdu[1] as int then (Failed(TRUNCATED_FRAME), true)
        else (ReadResult(OK, Registers(pdu[2..], quantity)), true)
  }

  lemma BytesOfWord(v: u16)
    ensures U16(High(v), Low(v)) == v
  {
  }

  lemma WordOfBytes(high: byte, low: byte)
    ensures High(U16(high, low)) == high && Low(U16(high, low)) == low
  {
  }

  lemma PayloadRoundTrip(regs: seq<u16>, pad: seq<byte>)
    ensures Registers(Payload(regs) + pad, |regs|) == regs
  {
    var data := Payload(regs) + pad;
    forall i | 0 <= i < |regs| ensures Registers(data, |regs|)[i] == regs[i] {
      assert data[2 * i] == High(regs[i]) && data[2 * i + 1] == Low(regs[i]);
      BytesOfWord(regs[i]);
    }
  }

  lemma {:induction false} RegistersRoundTrip(data: seq<byte>, n: nat, m: nat)
    requires m <= n && 2 * n <= |data|
    ensures PayloadOfFirst(Registers(data, n), m) == data[..2 * m]
  {
    if m > 0 {
      RegistersRoundTrip(data, n, m - 1);
      WordOfBytes(data[2 * m - 2], data[2 * m - 1]);
      assert Registers(data, n)[m - 1] == U16(data[2 * m - 2], data[2 * m - 1]);
    }
  }

  lemma ReplyLayout(txn: u16, unit: byte, regs: seq<u16>, pad: seq<byte>)
    requires 2 * |regs| + |pad| < 256
    ensures var f := Reply(txn, unit, regs, pad);
            && |f| == 9 + 2 * |regs| + |pad|
            && f[..9] == Header(txn, unit, 2 * |regs| + |pad|)
            && f[9..] == Payload(regs) + pad
  {
  }

  lemma HeaderTransaction(txn: u16, unit: byte, count: byte)
    ensures var h := Header(txn, unit, count); U16(h[0], h[1]) == txn && h[2] == 0 && h[3] == 0
  {
    BytesOfWord(txn);
  }

  lemma HeaderLength(txn: u16, unit: byte, count: byte)
    ensures var h := Header(txn, unit, count);
            U16(h[4], h[5]) == 3 + count as int && h[6] == unit && h[7] == READ_HOLDING && h[8] == count
  {
    BytesOfWord(3 + count as int);
  }

  lemma WordsAgree(high: byte, low: byte, high': byte, low': byte)
    requires U16(high, low) == U16(high', low')
    ensures high == high' && low == low'
  {
  }

  /** Decoding undoes encoding: every reply of 1 to 125 registers, followed by anything, is read back,
      also when its byte count is odd and covers one byte too many. */
  lemma ReplyRoundTrip(txn: u16, unit: byte, regs: seq<u16>, pad: seq<byte>, rest: seq<byte>)
    requires |regs| <= MAX_REGISTERS && |pad| <= 1
    ensures Parse(txn, unit, |regs|, Reply(txn, unit, regs, pad) + rest) == (ReadResult(OK, regs), true)
  {
    var f := Reply(txn, unit, regs, pad);
    var count := 2 * |regs| + |pad|;
    ReplyLayout(txn, unit, regs, pad);
    HeaderTransaction(txn, unit, count);
    HeaderLength(txn, unit, count);
    var stream := f + rest;
    assert forall i | 0 <= i < 9 :: stream[i] == f[..9][i];
    var pdu := stream[7..|f|];
    assert pdu == f[7..] && pdu[0] == f[..9][7] && pdu[1] == f[..9][8];
    assert pdu[2..] == f[9..];
    PayloadRoundTrip(regs, pad);
  }

  /** The stream starts with a well-formed reply to this request carrying these registers. */
  ghost predicate StartsWithReply(txn: u16, unitId: int, regs: seq<u16>, stream: seq<byte>) {
    && 0 <= unitId < 256
    && |regs| <= MAX_REGISTERS
    && exists pad: seq<byte> | |pad| <= 1 :: Reply(txn, unitId, regs, pad) <= stream
  }

  predicate IsException(stream: seq<byte>) { |stream| > 7 && stream[7] >= EXCEPTION_BIT }

  /** Exactly the replies to this very request are accepted: a non-exception answer is Ok if and only
      if the stream starts with a frame of matching transaction and unit, protocol 0, function 0x03 and
      the requested number of registers; the only liberty taken is an odd byte count, which
      covers one byte more than the registers. */
  lemma AcceptsExactlyItsReplies(txn: u16, unitId: int, quantity: u16, stream: seq<byte>)
    requires quantity <= MAX_REGISTERS && !IsException(stream)
    ensures var r := Parse(txn, unitId, quantity, stream).0;
            && (r.error == OK ==> |r.registers| == quantity && StartsWithReply(txn, unitId, r.registers, stream))
            && (forall regs: seq<u16> | |regs| == quantity && StartsWithReply(txn, unitId, regs, stream) ::
                  r == ReadResult(OK, regs))
  {
    if Parse(txn, unitId, quantity, stream).0.error == OK {
      AcceptedIsAReply(txn, unitId, quantity, stream);
    }
    forall regs: seq<u16> | |regs| == quantity && StartsWithReply(txn, unitId, regs, stream)
      ensures Parse(txn, unitId, quantity, stream).0 == ReadResult(OK, regs) {
      var pad: seq<byte> :| |pad| <= 1 && Reply(txn, unitId, regs, pad) <= stream;
      var f := Reply(txn, unitId, regs, pad);
      assert stream == f + stream[|f|..];
      ReplyRoundTrip(txn, unitId, regs, pad, stream[|f|..]);
    }
  }

  /** What an accepted stream looks like, byte by byte. */
  lemma AcceptedBytes(txn: u16, unitId: int, quantity: u16, stream: seq<byte>)
    requires quantity <= MAX_REGISTERS && !IsException(stream)
    requires Parse(txn, unitId, quantity, stream).0.error == OK
    ensures 0 <= unitId < 256 && |stream| >= 9
    ensures U16(stream[0], stream[1]) == txn && stream[2] == 0 && stream[3] == 0
    ensures U16(stream[4], stream[5]) == 3 + stream[8] as int && stream[6] == unitId && stream[7] == READ_HOLDING
    ensures stream[8] as int / 2 == quantity && |stream| >= 9 + stream[8] as int
    ensures Parse(txn, unitId, quantity, stream).0.registers == Registers(stream[9..9 + stream[8] as int], quantity)
  {
    var pdu := stream[7..6 + U16(stream[4], stream[5])];
    assert pdu[0] == stream[7];
    assert |pdu| > 1 ==> pdu[1] == stream[8];
    assert |pdu| > 1 ==> pdu[2..] == stream[9..6 + U16(stream[4], stream[5])];
  }

  lemma AcceptedIsAReply(txn: u16, unitId: int, quantity: u16, stream: seq<byte>)
    requires quantity <= MAX_REGISTERS && !IsException(stream)
    requires Parse(txn, unitId, quantity, stream).0.error == OK
    ensures var regs := Parse(txn, unitId, quantity, stream).0.registers;
            |regs| == quantity && StartsWithReply(txn, unitId, regs, stream)
  {
    AcceptedBytes(txn, unitId, quantity, stream);
    FrameFromBytes(txn, unitId, quantity, stream);
  }

  lemma FrameFromBytes(txn: u16, unit: byte, quantity: u16, stream: seq<byte>)
    requires quantity <= MAX_REGISTERS && |stream| >= 9
    requires U16(stream[0], stream[1]) == txn && stream[2] == 0 && stream[3] == 0
    requires U16(stream[4], stream[5]) == 3 + stream[8] as int && stream[6] == unit && stream[7] == READ_HOLDING
    requires stream[8] as int / 2 == quantity && |stream| >= 9 + stream[8] as int
    ensures StartsWithReply(txn, unit, Registers(stream[9..9 + stream[8] as int], quantity), stream)
  {
    HeaderBytes(txn, unit, stream);
    var data := stream[9..9 + stream[8] as int];
    DataSplits(data, quantity);
    var pad := data[2 * quantity..];
    ReplyOfParts(txn, unit, Registers(data, quantity), pad);
    assert stream[..9] + data == stream[..9 + stream[8] as int];
    assert |pad| <= 1 && Reply(txn, unit, Registers(data, quantity), pad) <= stream;
  }

  lemma DataSplits(data: seq<byte>, n: nat)
    requires 2 * n <= |data|
    ensures data == Payload(Registers(data, n)) + data[2 * n..]
  {
    RegistersRoundTrip(data, n, n);
  }

  lemma ReplyOfParts(txn: u16, unit: byte, regs: seq<u16>, pad: seq<byte>)
    requires 2 * |regs| + |pad| < 256
    ensures Reply(txn, unit, regs, pad) == Header(txn, unit, 2 * |regs| + |pad|) + (Payload(regs) + pad)
  {
  }

  lemma HeaderBytes(txn: u16, unit: byte, stream: seq<byte>)
    requires |stream| >= 9
    requires U16(stream[0], stream[1]) == txn && stream[2] == 0 && stream[3] == 0
    requires U16(stream[4], stream[5]) == 3 + stream[8] as int && stream[6] == unit && stream[7] == READ_HOLDING
    ensures stream[..9] == Header(txn, unit, stream[8])
  {
    var h := Header(txn, unit, stream[8]);
    HeaderTransaction(txn, unit, stream[8]);
    HeaderLength(txn, unit, stream[8]);
    WordsAgree(stream[0], stream[1], h[0], h[1]);
    WordsAgree(stream[4], stream[5], h[4], h[5]);
  }

  /** An answer taken for Ok carries the requested registers exactly when it is not an exception
      reply: an exception with code 0, or without a code, also reads as Ok, with no registers. */
  lemma OkMeansRegisters(txn: u16, unitId: int, quantity: u16, stream: seq<byte>)
    requires 0 < quantity <= MAX_REGISTERS && Parse(txn, unitId, quantity, stream).0.error == OK
    ensures |Parse(txn, unitId, quantity, stream).0.registers| == quantity <==> !IsException(stream)
  {
  }

  lemma ExceptionCodeZeroReadsAsOk(txn: u16, unit: byte, quantity: u16)
    ensures Parse(txn, unit, quantity, [High(txn), Low(txn), 0, 0, 0, 3, unit, 131, 0]) == (Failed(OK), true)
  {
    BytesOfWord(txn);
    var stream: seq<byte> := [High(txn), Low(txn), 0, 0, 0, 3, unit, 131, 0];
    assert stream[7..9] == [131, 0];
  }

  // A slave's reading of a request.

  function TransactionOf(request: seq<byte>): u16
    requires |request| == 12
  {
    U16(request[0], request[1])
  }

  function StartOf(request: seq<byte>): u16
    requires |request| == 12
  {
    U16(request[8], request[9])
  }

  function QuantityOf(request: seq<byte>): u16
    requires |request| == 12
  {
    U16(request[10], request[11])
  }

  /** The slave reads back what was asked, and the header counts the bytes behind it. */
  lemma RequestRoundTrip(txn: u16, unit: byte, start: u16, quantity: u16)
    ensures var request := Request(txn, unit, start, quantity);
            && TransactionOf(request) == txn && request[6] == unit
            && StartOf(request) == start && QuantityOf(request) == quantity
            && request[4] == 0 && request[5] as int + 6 == |request|
  {
    BytesOfWord(txn);
    BytesOfWord(start);
    BytesOfWord(quantity);
  }

  // ---- The frames byte by byte, high byte first ----

  /** The number that two neighbouring bytes stand for. */
  function Word(bytes: seq<byte>, i: nat): int
    requires i + 1 < |bytes|
  {
    256 * (bytes[i] as int) + bytes[i + 1]
  }

  lemma RequestBytes(txn: u16, unit: byte, start: u16, quantity: u16)
    ensures var f := Request(txn, unit, start, quantity);
            && |f| == 12 && Word(f, 0) == txn && Word(f, 2) == 0 && Word(f, 4) == 6
            && f[6] == unit && f[7] == 3 && Word(f, 8) == start && Word(f, 10) == quantity
  {
    BytesOfWord(txn);
    BytesOfWord(start);
    BytesOfWord(quantity);
  }

  lemma HeaderBytesOf(txn: u16, unit: byte, count: byte)
    ensures var h := Header(txn, unit, count);
            && Word(h, 0) == txn && Word(h, 2) == 0 && Word(h, 4) == 3 + count as int
            && h[6] == unit && h[7] == 3 && h[8] == count
  {
    HeaderTransaction(txn, unit, count);
    HeaderLength(txn, unit, count);
  }

  lemma RegisterBytesOf(regs: seq<u16>, pad: seq<byte>, k: nat)
    requires k < |regs|
    ensures Word(Payload(regs) + pad, 2 * k) == regs[k]
  {
    BytesOfWord(regs[k]);
  }

  lemma ReplyBytes(txn: u16, unit: byte, regs: seq<u16>, pad: seq<byte>)
    requires 2 * |regs| + |pad| < 256
    ensures var f := Reply(txn, unit, regs, pad);
            && |f| == 9 + 2 * |regs| + |pad|
            && Word(f, 0) == txn && Word(f, 2) == 0 && Word(f, 4) == 3 + 2 * |regs| + |pad|
            && f[6] == unit && f[7] == 3 && f[8] == 2 * |regs| + |pad|
            && forall k | 0 <= k < |regs| :: Word(f, 9 + 2 * k) == regs[k]
  {
    var f := Reply(txn, unit, regs, pad);
    ReplyLayout(txn, unit, regs, pad);
    HeaderBytesOf(txn, unit, 2 * |regs| + |pad|);
    assert forall i | 0 <= i < 9 :: f[i] == f[..9][i];
    forall k: nat | k < |regs| ensures Word(f, 9 + 2 * k) == regs[k] {
      RegisterBytesOf(regs, pad, k);
      assert f[9 + 2 * k] == f[9..][2 * k] && f[10 + 2 * k] == f[9..][2 * k + 1];
    }
  }

  /** The answer comes from the slave that was asked, for this request, and is complete. */
  predicate Complete(txn: u16, unitId: int, stream: seq<byte>) {
    && |stream| >= 7 && Word(stream, 0) == txn && Word(stream, 2) == 0 && stream[6] == unitId
    && Word(stream, 4) >= 2 && |stream| >= 6 + Word(stream, 4)
  }

  /** An answer that is not: too few bytes are a timeout and end the connection, the rest is told apart by
      its transaction. */
  lemma IncompleteIsRefused(txn: u16, unitId: int, quantity: u16, stream: seq<byte>)
    requires !Complete(txn, unitId, stream)
    ensures var answer := Parse(txn, unitId, quantity, stream);
            if |stream| < 7 then answer == (ReadResult(-2, []), false)
            else if Word(stream, 0) != txn then answer == (ReadResult(-4, []), true)
            else if Word(stream, 2) != 0 || stream[6] != unitId || Word(stream, 4) < 2 then
              answer == (ReadResult(-3, []), true)
            else answer == (ReadResult(-2, []), false)
  {
  }

  /** An exception reply, whatever its function and its code: the client's result is that code, without
      registers, and the connection is kept. */
  lemma ExceptionIsRead(txn: u16, unitId: int, quantity: u16, stream: seq<byte>)
    requires Complete(txn, unitId, stream) && stream[7] >= 128
    ensures Parse(txn, unitId, quantity, stream) ==
            (ReadResult(if Word(stream, 4) > 2 then stream[8] else 0, []), true)
  {
    var pdu := stream[7..6 + Word(stream, 4)];
    assert pdu[0] == stream[7] && (|pdu| > 1 ==> pdu[1] == stream[8]);
  }

  /** The exception reply of a slave, and any bytes behind it. */
  function Exception(txn: u16, unit: byte, function_: byte, code: byte, rest: seq<byte>): seq<byte> {
    [High(txn), Low(txn), 0, 0, 0, 3, unit, function_, code] + rest
  }

  lemma ExceptionCodeIsRead(txn: u16, unit: byte, quantity: u16, function_: byte, code: byte, rest: seq<byte>)
    requires function_ >= 128
    ensures Parse(txn, unit, quantity, Exception(txn, unit, function_, code, rest)) == (ReadResult(code, []), true)
    ensures Parse(txn, unit, quantity, Exception(txn, unit, function_, code, rest)).0.error == OK <==> code == 0
  {
    BytesOfWord(txn);
    ExceptionIsRead(txn, unit, quantity, Exception(txn, unit, function_, code, rest));
  }

  /** Any other complete answer: function 3, the byte count of the registers asked for (or one more), and a
      length to match; then the registers are the words behind the count. */
  lemma RegistersAreRead(txn: u16, unitId: int, quantity: u16, stream: seq<byte>)
    requires Complete(txn, unitId, stream) && stream[7] < 128
    ensures var (r, kept) := Parse(txn, unitId, quantity, stream);
            && kept
            && if Word(stream, 4) < 3 || stream[7] != 3 || stream[8] / 2 != quantity
                  || Word(stream, 4) != 3 + stream[8] as int
               then r == ReadResult(-3, [])
               else r.error == 0 && |r.registers| == quantity
                    && forall k | 0 <= k < quantity :: r.registers[k] == Word(stream, 9 + 2 * k)
  {
    var pdu := stream[7..6 + Word(stream, 4)];
    assert pdu[0] == stream[7] && (|pdu| > 1 ==> pdu[1] == stream[8]);
  }
}

/** The Modbus TCP client of one device. */
module ModbusClient {
  import opened Bytes
  import opened ModbusFrames

  class Client {
    const unitId: int
    var connected: bool
    var nextTransactionId: u16

    constructor (unitId: int)
      ensures this.unitId == unitId && !connected && nextTransactionId == 1
    {
      this.unitId := unitId;
      connected, nextTransactionId := false, 1;
    }

    /** Registers out of the data of a reply, high byte first. */
    static method ExtractRegisters(data: seq<byte>, count: nat) returns (registers: seq<u16>)
      requires 2 * count <= |data|
      ensures registers == Registers(data, count)
    {
      registers := [];
      for i := 0 to count
        invariant |registers| == i
        invariant forall k | 0 <= k < i :: registers[k] == Registers(data, count)[k]
      {
        registers := registers + [U16(data[2 * i], data[2 * i + 1])];
      }
    }

    /** The receiving half: MBAP header, then the PDU it announces, then its contents. */
    method Receive(txn: u16, quantity: u16, stream: seq<byte>) returns (r: ReadResult)
      requires connected
      modifies `connected
      ensures (r, connected) == Parse(txn, unitId, quantity, stream)
    {
      if |stream| < 7 {
        connected := false;
        return Failed(TIMEOUT);
      }
      var respTxn, respLen := U16(stream[0], stream[1]), U16(stream[4], stream[5]);
      if respTxn != txn {
        return Failed(TRANSACTION_MISMATCH);
      }
      if stream[2] != 0 || stream[3] != 0 || stream[6] != unitId {
        return Failed(TRUNCATED_FRAME);
      }
      if respLen < 2 {
        return Failed(TRUNCATED_FRAME);
      }
      var pduLen := respLen - 1;
      if |stream| - 7 < pduLen {
        connected := false;
        return Failed(TIMEOUT);
      }
      var pdu := stream[7..7 + pduLen];
      if pdu[0] >= EXCEPTION_BIT {
        return Failed(if pduLen > 1 then pdu[1] else 0);
      }
      if pdu[0] != READ_HOLDING || pduLen < 2 {
        return Failed(TRUNCATED_FRAME);
      }
      var byteCount: int := pdu[1] as int;
      var regCount := byteCount / 2;
      if regCount != quantity || pduLen != 2 + byteCount {
        return Failed(TRUNCATED_FRAME);
      }
      var registers := ExtractRegisters(pdu[2..], regCount);
      return ReadResult(OK, registers);
    }

    /** The request bytes, pushed field by field. */
    method Encode(txn: u16, start: u16, quantity: u16) returns (request: seq<byte>)
      ensures request == Request(txn, unitId, start, quantity)
    {
      request := [High(txn), Low(txn)];
      request := request + [0, 0];
      request := request + [0, 6];
      request := request + [Unit(unitId)];
      request := request + [READ_HOLDING];
      request := request + [High(start), Low(start)];
      request := request + [High(quantity), Low(quantity)];
    }

    /** readHoldingRegisters. sendOk says whether the socket took the whole request; stream is what
        arrives within the timeouts. The request sent is returned for the slave to read. */
    method ReadHoldingRegisters(start: u16, quantity: u16, sendOk: bool, stream: seq<byte>)
      returns (r: ReadResult, request: seq<byte>)
      modifies this
      ensures 0 < quantity <= MAX_REGISTERS && old(connected) ==>
                request == Request(old(nextTransactionId), unitId, start, quantity)
      ensures (r, connected) ==
              if quantity == 0 || quantity > MAX_REGISTERS then (ReadResult(3, []), old(connected))
              else if !old(connected) || !sendOk then (ReadResult(-1, []), false)
              else Parse(old(nextTransactionId), unitId, quantity, stream)
      ensures nextTransactionId ==
              if old(connected) && 0 < quantity <= 125 then (old(nextTransactionId) + 1) % 65536
              else old(nextTransactionId)
    {
      request := [];
      if quantity == 0 || quantity > MAX_REGISTERS {
        return Failed(ILLEGAL_DATA_VALUE), request;
      }
      if !connected {
        return Failed(SOCKET_ERROR), request;
      }
      var txn := nextTransactionId;
      nextTransactionId := NextTransaction(nextTransactionId);
      request := Encode(txn, start, quantity);
      if !sendOk {
        connected := false;
        return Failed(SOCKET_ERROR), request;
      }
      r := Receive(txn, quantity, stream);
    }
  }
}
