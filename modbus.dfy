/**
 * The Modbus master of `modbus_functions.c`: RTU request frames (function
 * codes 0x03, 0x04, 0x06 and 0x10 of the Modbus Application Protocol
 * Specification V1.1b3, sections 6.3, 6.4, 6.6 and 6.12) sent over UDP with
 * the CRC appended, a bounded send/receive retry loop, and the connection
 * probe.
 *
 * The UDP socket is replaced by two sequences: `sent`, every datagram handed
 * to `sendto`, and `inbox`, what the successive `recvfrom` calls will yield
 * (a datagram, or a timeout; once `inbox` is exhausted every receive times
 * out).
 */
module Modbus {
  import opened Bytes
  import opened Crc
  import opened Wrappers

  /** `MODBUS_SEND_RETRIES`: attempts made by one exchange. */
  const Retries: nat := 3

  /** The `rx_max` every request function passes to the exchange. */
  const RxMax: nat := 256

  /** `WriteHolding` refuses more registers than this. */
  const MaxHoldingRegs: nat := 20

  /** Capacity of `WriteMultiple`'s `tx[260]`, which also holds the two bytes sent past the frame. */
  const MultipleTxCapacity: nat := 260

  const ReadHoldingCode: Byte := 0x03
  const ReadInputCode: Byte := 0x04
  const WriteSingleCode: Byte := 0x06
  const WriteMultipleCode: Byte := 0x10
  const ExceptionBit: Byte := 0x80

  /** What one `recvfrom` call yields. */
  datatype Reply = Datagram(data: seq<Byte>) | Timeout

  /** A request as issued by a caller of the master, in the order issued. */
  datatype Request =
    | ReadHoldingReq(slave: Byte, addr: Word, count: Word)
    | ReadInputReq(slave: Byte, addr: Word, count: Word)
    | WriteSingleReq(slave: Byte, addr: Word, value: Word)
    | WriteHoldingReq(slave: Byte, addr: Word, values: seq<Word>)
    | WriteMultipleReq(slave: Byte, addr: Word, values: seq<Word>)

  /** A request PDU as it travels in a frame. */
  datatype Pdu =
    | ReadRegisters(slave: Byte, code: Byte, addr: Word, count: Word)
    | WriteRegister(slave: Byte, addr: Word, value: Word)
    | WriteRegisters(slave: Byte, addr: Word, values: seq<Word>)

  // ---------------------------------------------------------------------
  // Frames

  /** Slave, function code, then two big-endian words. */
  function Header(slave: Byte, code: Byte, a: Word, b: Word): seq<Byte> {
    [slave, code, Hi(a), Lo(a), Hi(b), Lo(b)]
  }

  /** Register values, each big-endian, in order. */
  function RegisterBytes(values: seq<Word>): (r: seq<Byte>)
    ensures |r| == 2 * |values|
  {
    if values == [] then [] else [Hi(values[0]), Lo(values[0])] + RegisterBytes(values[1..])
  }

  /** Big-endian register values from an even number of bytes. */
  function DecodeRegisters(bytes: seq<Byte>): (values: seq<Word>)
    requires |bytes| % 2 == 0
    ensures |values| == |bytes| / 2
  {
    if bytes == [] then [] else [Join(bytes[0], bytes[1])] + DecodeRegisters(bytes[2..])
  }

  /** The frame of a PDU: its bytes, then the CRC low byte first. */
  function Encode(p: Pdu): seq<Byte> {
    match p
    case ReadRegisters(slave, code, addr, count) => WithCrc(Header(slave, code, addr, count))
    case WriteRegister(slave, addr, value) => WithCrc(Header(slave, WriteSingleCode, addr, value))
    case WriteRegisters(slave, addr, values) =>
      WithCrc(Header(slave, WriteMultipleCode, addr, U16(|values|)) + [U8(2 * |values|)] + RegisterBytes(values))
  }

  /** The PDUs this master emits: read codes 0x03 and 0x04, and at most 127 registers so that the byte count fits its byte. */
  predicate WellFormed(p: Pdu) {
    match p
    case ReadRegisters(_, code, _, _) => code == ReadHoldingCode || code == ReadInputCode
    case WriteRegister(_, _, _) => true
    case WriteRegisters(_, _, values) => 1 <= |values| <= 127
  }

  /** A receiver's reading of a request frame; a 0x10 frame's register count and byte count must both match its length. */
  function Decode(f: seq<Byte>): Option<Pdu> {
    if |f| < 8 || !CrcMatches(f) then None
    else if (f[1] == ReadHoldingCode || f[1] == ReadInputCode) && |f| == 8 then
      Some(ReadRegisters(f[0], f[1], Join(f[2], f[3]), Join(f[4], f[5])))
    else if f[1] == WriteSingleCode && |f| == 8 then
      Some(WriteRegister(f[0], Join(f[2], f[3]), Join(f[4], f[5])))
    else if f[1] == WriteMultipleCode && 9 < |f| < 9 + 0x100 && (|f| - 9) % 2 == 0
            && f[6] == U8(|f| - 9) && Join(f[4], f[5]) == U16((|f| - 9) / 2) then
      Some(WriteRegisters(f[0], Join(f[2], f[3]), DecodeRegisters(f[7..|f| - 2])))
    else None
  }

  lemma {:induction false} RegistersRoundTrip(values: seq<Word>)
    ensures DecodeRegisters(RegisterBytes(values)) == values
  {
    if values != [] {
      var r := RegisterBytes(values);
      assert r[2..] == RegisterBytes(values[1..]);
      RegistersRoundTrip(values[1..]);
      JoinSplit(values[0]);
    }
  }

  lemma DecodeEncodeRead(slave: Byte, code: Byte, addr: Word, count: Word)
    requires code == ReadHoldingCode || code == ReadInputCode
    ensures Decode(Encode(ReadRegisters(slave, code, addr, count))) == Some(ReadRegisters(slave, code, addr, count))
  {
    WithCrcMatches(Header(slave, code, addr, count));
    JoinSplit(addr);
    JoinSplit(count);
  }

  lemma DecodeEncodeWrite(slave: Byte, addr: Word, value: Word)
    ensures Decode(Encode(WriteRegister(slave, addr, value))) == Some(WriteRegister(slave, addr, value))
  {
    WithCrcMatches(Header(slave, WriteSingleCode, addr, value));
    JoinSplit(addr);
    JoinSplit(value);
  }

  lemma DecodeWriteManyFrame(f: seq<Byte>)
    requires 9 < |f| < 9 + 0x100 && (|f| - 9) % 2 == 0 && CrcMatches(f) && f[1] == WriteMultipleCode
    requires f[6] == U8(|f| - 9) && Join(f[4], f[5]) == U16((|f| - 9) / 2)
    ensures Decode(f) == Some(WriteRegisters(f[0], Join(f[2], f[3]), DecodeRegisters(f[7..|f| - 2])))
  {}

  lemma DecodeEncodeWriteMany(slave: Byte, addr: Word, values: seq<Word>)
    requires 1 <= |values| <= 127
    ensures Decode(Encode(WriteRegisters(slave, addr, values))) == Some(WriteRegisters(slave, addr, values))
  {
    var head := Header(slave, WriteMultipleCode, addr, U16(|values|)) + [U8(2 * |values|)];
    var regs := RegisterBytes(values);
    var body := head + regs;
    var f := WithCrc(body);
    WithCrcMatches(body);
    assert f[..|body|] == body;
    assert f[..7] == head by { assert body[..7] == head; }
    assert f[7..|f| - 2] == regs by { assert body[7..] == regs; }
    DecodeWriteManyOf(f, slave, addr, values);
  }

  /** A frame laid out as a function 0x10 request of `values` decodes to that request. */
  lemma DecodeWriteManyOf(f: seq<Byte>, slave: Byte, addr: Word, values: seq<Word>)
    requires 1 <= |values| <= 127
    requires |f| == 9 + 2 * |values| && CrcMatches(f)
    requires f[..7] == Header(slave, WriteMultipleCode, addr, U16(|values|)) + [U8(2 * |values|)]
    requires f[7..|f| - 2] == RegisterBytes(values)
    ensures Decode(f) == Some(WriteRegisters(slave, addr, values))
  {
    var p := f[..7];
    assert p[0] == f[0] && p[1] == f[1] && p[2] == f[2] && p[3] == f[3] && p[6] == f[6];
    assert f[0] == slave && f[1] == WriteMultipleCode && f[2] == Hi(addr) && f[3] == Lo(addr);
    assert f[6] == U8(|f| - 9);
    assert p[4] == f[4] && p[5] == f[5];
    assert f[4] == Hi(U16(|values|)) && f[5] == Lo(U16(|values|));
    JoinSplit(U16(|values|));
    EvenLength(|values|);
    assert (|f| - 9) / 2 == |values|;
    assert 9 < |f| < 9 + 0x100 && (|f| - 9) % 2 == 0;
    DecodeWriteManyFrame(f);
    JoinSplit(addr);
    RegistersRoundTrip(values);
  }

  lemma EvenLength(n: nat)
    ensures (2 * n) % 2 == 0
  {}

  /** Every frame the master builds decodes back to the PDU it was built from. */
  lemma DecodeEncode(p: Pdu)
    requires WellFormed(p)
    ensures Decode(Encode(p)) == Some(p)
  {
    match p
    case ReadRegisters(slave, code, addr, count) => DecodeEncodeRead(slave, code, addr, count);
    case WriteRegister(slave, addr, value) => DecodeEncodeWrite(slave, addr, value);
    case WriteRegisters(slave, addr, values) => DecodeEncodeWriteMany(slave, addr, values);
  }

  /** A byte count two short of the bytes that follow it never matches. */
  lemma ByteCountMismatch(g: seq<Byte>, n: nat)
    requires |g| == 11 + 2 * n && g[6] == U8(2 * n)
    ensures !(9 < |g| < 9 + 0x100 && g[6] == U8(|g| - 9))
  {
    if |g| < 9 + 0x100 {
      U8Value(2 * n);
      U8Value(|g| - 9);
    }
  }

  /**
   * A function 0x10 frame followed by any two further bytes is not a
   * request to a receiver that checks the byte count against the length
   * (`Decode`). One that checks only the CRC accepts it when the two bytes
   * are zero (`Crc.ZeroTrailerPassesCrc`).
   */
  lemma TrailingBytesRejected(slave: Byte, addr: Word, values: seq<Word>, x: Byte, y: Byte)
    ensures Decode(Encode(WriteRegisters(slave, addr, values)) + [x, y]) == None
  {
    var head := Header(slave, WriteMultipleCode, addr, U16(|values|)) + [U8(2 * |values|)];
    var body := head + RegisterBytes(values);
    var f := WithCrc(body);
    var g := f + [x, y];
    assert g[..|body|] == body;
    assert g[1] == WriteMultipleCode && g[6] == U8(2 * |values|);
    ByteCountMismatch(g, |values|);
  }

  /** ReadHolding and ReadInput frames differ only in the function code byte. */
  lemma ReadFramesDifferOnlyInCode(slave: Byte, addr: Word, count: Word)
    ensures var h := Encode(ReadRegisters(slave, ReadHoldingCode, addr, count));
            var i := Encode(ReadRegisters(slave, ReadInputCode, addr, count));
            |h| == |i| == 8 && h[1] == 0x03 && i[1] == 0x04
            && (forall k :: 0 <= k < 6 && k != 1 ==> h[k] == i[k])
  {
    var hh := Header(slave, ReadHoldingCode, addr, count);
    var ih := Header(slave, ReadInputCode, addr, count);
    var h := WithCrc(hh);
    var i := WithCrc(ih);
    assert h[..6] == hh && i[..6] == ih;
    forall k | 0 <= k < 6 && k != 1
      ensures h[k] == i[k]
    {
      assert h[k] == hh[k] && i[k] == ih[k];
    }
  }

  // ---------------------------------------------------------------------
  // The transport oracle and the retry loop

  /** Reply to the `i`-th receive from now. */
  function ReplyAt(inbox: seq<Reply>, i: nat): Reply {
    if i < |inbox| then inbox[i] else Timeout
  }

  /** `inbox` after `n` receives. */
  function Consumed(inbox: seq<Reply>, n: nat): seq<Reply> {
    if n < |inbox| then inbox[n..] else []
  }

  /**
   * Return value of `recvfrom(rx, rxMax)`: the datagram length; -1 on a
   * timeout, and -1 for a datagram longer than `rxMax` (Windows fails those
   * with WSAEMSGSIZE after filling the buffer). An empty datagram gives 0.
   */
  function RecvResult(r: Reply, rxMax: nat): int {
    match r
    case Timeout => -1
    case Datagram(d) => if |d| <= rxMax then |d| else -1
  }

  /** Bytes `recvfrom(rx, rxMax)` stores at the front of `rx`. */
  function RecvBytes(r: Reply, rxMax: nat): (s: seq<Byte>)
    ensures |s| <= rxMax
  {
    match r
    case Timeout => []
    case Datagram(d) => if |d| <= rxMax then d else d[..rxMax]
  }

  /** `buf` with `data` written over its front. */
  function Overlay(buf: seq<Byte>, data: seq<Byte>): (r: seq<Byte>)
    requires |data| <= |buf|
    ensures |r| == |buf|
  {
    data + buf[|data|..]
  }

  /** Number of attempts an exchange makes when it reaches attempt `i`. */
  function AttemptsFrom(inbox: seq<Reply>, rxMax: nat, i: nat): (n: nat)
    requires i < Retries
    ensures i < n <= Retries
    ensures forall k :: i <= k < n - 1 ==> RecvResult(ReplyAt(inbox, k), rxMax) <= 0
    ensures n < Retries ==> RecvResult(ReplyAt(inbox, n - 1), rxMax) > 0
    decreases Retries - i
  {
    if RecvResult(ReplyAt(inbox, i), rxMax) > 0 || i == Retries - 1 then i + 1
    else AttemptsFrom(inbox, rxMax, i + 1)
  }

  /**
   * Number of attempts of one exchange: it stops at the first receive that
   * returns a positive length, and after `Retries` attempts at the latest.
   */
  function Attempts(inbox: seq<Reply>, rxMax: nat): (n: nat)
    ensures 1 <= n <= Retries
  {
    AttemptsFrom(inbox, rxMax, 0)
  }

  /** The reply of the last attempt. */
  function FinalReply(inbox: seq<Reply>, rxMax: nat): Reply {
    ReplyAt(inbox, Attempts(inbox, rxMax) - 1)
  }

  /** Contents of `rx` after the first `n` attempts. */
  function RxAfter(rx: seq<Byte>, inbox: seq<Reply>, rxMax: nat, n: nat): (r: seq<Byte>)
    requires rxMax <= |rx|
    ensures |r| == |rx|
  {
    if n == 0 then rx else Overlay(RxAfter(rx, inbox, rxMax, n - 1), RecvBytes(ReplyAt(inbox, n - 1), rxMax))
  }

  function Copies(tx: seq<Byte>, n: nat): (r: seq<seq<Byte>>)
    ensures |r| == n && forall k :: 0 <= k < n ==> r[k] == tx
  {
    seq(n, _ => tx)
  }

  /** Every datagram sent by a series of exchanges of `frames`, one after the other, each with `rx_max` 256. */
  function SentLog(inbox: seq<Reply>, frames: seq<seq<Byte>>): seq<seq<Byte>>
    decreases |frames|
  {
    if frames == [] then []
    else
      var n := Attempts(inbox, RxMax);
      Copies(frames[0], n) + SentLog(Consumed(inbox, n), frames[1..])
  }

  /** What is left of `inbox` after that series of exchanges. */
  function InboxAfter(inbox: seq<Reply>, frames: seq<seq<Byte>>): seq<Reply>
    decreases |frames|
  {
    if frames == [] then inbox
    else InboxAfter(Consumed(inbox, Attempts(inbox, RxMax)), frames[1..])
  }

  /** Two exchanges in a row: the second starts from what the first left. */
  lemma ExchangePair(inbox: seq<Reply>, f0: seq<Byte>, f1: seq<Byte>)
    ensures var mid := InboxAfter(inbox, [f0]);
            SentLog(inbox, [f0, f1]) == SentLog(inbox, [f0]) + SentLog(mid, [f1])
            && InboxAfter(inbox, [f0, f1]) == InboxAfter(mid, [f1])
  {
    assert [f0, f1][1..] == [f1];
    assert [f0][1..] == [];
  }

  /** Two exchanges made one after the other on a master's logs add up to the pair's log. */
  lemma ChainPair(s0: seq<seq<Byte>>, s1: seq<seq<Byte>>, s2: seq<seq<Byte>>,
                  i0: seq<Reply>, i1: seq<Reply>, i2: seq<Reply>, f0: seq<Byte>, f1: seq<Byte>)
    requires s1 == s0 + SentLog(i0, [f0]) && i1 == InboxAfter(i0, [f0])
    requires s2 == s1 + SentLog(i1, [f1]) && i2 == InboxAfter(i1, [f1])
    ensures s2 == s0 + SentLog(i0, [f0, f1]) && i2 == InboxAfter(i0, [f0, f1])
  {
    ExchangePair(i0, f0, f1);
    assert s2 == s0 + (SentLog(i0, [f0]) + SentLog(i1, [f1]));
  }

  /** The exchange result is the last receive's, and it is positive exactly when some attempt succeeded. */
  lemma ExchangeOutcome(inbox: seq<Reply>, rxMax: nat)
    ensures var n := Attempts(inbox, rxMax);
            var res := RecvResult(FinalReply(inbox, rxMax), rxMax);
            (res > 0 <==> exists k :: 0 <= k < Retries && RecvResult(ReplyAt(inbox, k), rxMax) > 0)
            && (res > 0 ==> forall k :: 0 <= k < n - 1 ==> RecvResult(ReplyAt(inbox, k), rxMax) <= 0)
            && (res <= 0 ==> n == Retries)
  {
    var n := Attempts(inbox, rxMax);
    var res := RecvResult(FinalReply(inbox, rxMax), rxMax);
    if res <= 0 {
      assert n == Retries;
      forall k | 0 <= k < Retries ensures RecvResult(ReplyAt(inbox, k), rxMax) <= 0 {
        if k < n - 1 {
        } else {
          assert k == n - 1;
        }
      }
    }
  }

  /** A successful last attempt leaves its whole datagram at the front of `rx`. */
  lemma SuccessStored(rx: seq<Byte>, inbox: seq<Reply>, rxMax: nat)
    requires rxMax <= |rx|
    requires RecvResult(FinalReply(inbox, rxMax), rxMax) > 0
    ensures var d := FinalReply(inbox, rxMax).data;
            |d| <= rxMax && RxAfter(rx, inbox, rxMax, Attempts(inbox, rxMax))[..|d|] == d
  {}

  lemma ConsumedStep(inbox: seq<Reply>, n: nat)
    ensures ReplyAt(Consumed(inbox, n), 0) == ReplyAt(inbox, n)
    ensures Consumed(Consumed(inbox, n), 1) == Consumed(inbox, n + 1)
  {}

  lemma CopiesStep(tx: seq<Byte>, n: nat)
    ensures Copies(tx, n) + [tx] == Copies(tx, n + 1)
  {}

  lemma AttemptsSkip(inbox: seq<Reply>, rxMax: nat, i: nat)
    requires i + 1 < Retries
    requires RecvResult(ReplyAt(inbox, i), rxMax) <= 0
    ensures AttemptsFrom(inbox, rxMax, i) == AttemptsFrom(inbox, rxMax, i + 1)
  {}

  /**
   * The 8-byte request both `MODBUS_SendSimple` and `MODBUS_WriteSingle`
   * build in their `tx[8]`: slave, code, two big-endian words, then the CRC
   * of the first six bytes, low byte first.
   */
  method BuildFrame8(slave: Byte, code: Byte, a: Word, b: Word) returns (frame: seq<Byte>)
    ensures frame == WithCrc(Header(slave, code, a, b))
  {
    var tx := new Byte[8][slave, code, Hi(a), Lo(a), Hi(b), Lo(b), 0, 0];
    ghost var head := Header(slave, code, a, b);
    assert tx[..6] == head;
    var crc := ComputeCrc16(tx, 6);
    tx[6] := Lo(crc);
    tx[7] := Hi(crc);
    frame := tx[..];
    assert frame == head + [Lo(crc), Hi(crc)];
  }

  // ---------------------------------------------------------------------
  // The master

  class ModbusMaster {
    /** Every datagram handed to `sendto`, oldest first. */
    var sent: seq<seq<Byte>>
    /** What the coming `recvfrom` calls yield. */
    var inbox: seq<Reply>
    /** Every request issued through the API, oldest first. */
    ghost var requests: seq<Request>

    constructor (replies: seq<Reply>)
      ensures sent == [] && inbox == replies && requests == []
    {
      sent := [];
      inbox := replies;
      requests := [];
    }

    /** `recvfrom(modbus_socket, rx, rxMax)`. */
    method Receive(rx: array<Byte>, rxMax: nat) returns (res: int)
      requires rxMax <= rx.Length
      modifies this`inbox, rx
      ensures res == RecvResult(ReplyAt(old(inbox), 0), rxMax)
      ensures rx[..] == Overlay(old(rx[..]), RecvBytes(ReplyAt(old(inbox), 0), rxMax))
      ensures inbox == Consumed(old(inbox), 1)
    {
      var r := ReplyAt(inbox, 0);
      var data := RecvBytes(r, rxMax);
      forall k | 0 <= k < |data| {
        rx[k] := data[k];
      }
      assert rx[..] == Overlay(old(rx[..]), data);
      res := RecvResult(r, rxMax);
      inbox := Consumed(inbox, 1);
    }

    /**
     * `MODBUS_SendAndRecv`: up to `Retries` attempts, each re-sending `tx`
     * and receiving once; stops at the first positive receive and otherwise
     * returns the last receive's result.
     */
    method SendAndRecv(tx: seq<Byte>, rx: array<Byte>, rxMax: nat) returns (res: int)
      requires rxMax <= rx.Length
      modifies this`sent, this`inbox, rx
      ensures var n := Attempts(old(inbox), rxMax);
              res == RecvResult(FinalReply(old(inbox), rxMax), rxMax)
              && sent == old(sent) + Copies(tx, n)
              && inbox == Consumed(old(inbox), n)
              && rx[..] == RxAfter(old(rx[..]), old(inbox), rxMax, n)
    {
      ghost var inbox0, sent0, rx0 := inbox, sent, rx[..];
      res := -1;
      var attempt := 0;
      while attempt < Retries
        invariant 0 <= attempt <= Retries
        invariant attempt < Retries ==> Attempts(inbox0, rxMax) == AttemptsFrom(inbox0, rxMax, attempt)
        invariant attempt == Retries ==> Attempts(inbox0, rxMax) == Retries
        invariant attempt > 0 ==> res == RecvResult(ReplyAt(inbox0, attempt - 1), rxMax)
        invariant sent == sent0 + Copies(tx, attempt)
        invariant inbox == Consumed(inbox0, attempt)
        invariant rx[..] == RxAfter(rx0, inbox0, rxMax, attempt)
      {
        ghost var before := rx[..];
        CopiesStep(tx, attempt);
        sent := sent + [tx];
        ConsumedStep(inbox0, attempt);
        res := Receive(rx, rxMax);
        assert rx[..] == Overlay(before, RecvBytes(ReplyAt(inbox0, attempt), rxMax));
        if res > 0 {
          attempt := attempt + 1;
          break;
        }
        if attempt + 1 < Retries {
          AttemptsSkip(inbox0, rxMax, attempt);
        }
        attempt := attempt + 1;
      }
    }

    /** `MODBUS_SendSimple`: an 8-byte read request, exchanged with `rx_max` 256. */
    method SendSimple(slave: Byte, code: Byte, addr: Word, count: Word, rx: array<Byte>) returns (res: int)
      requires RxMax <= rx.Length
      modifies this`sent, this`inbox, rx
      ensures var n := Attempts(old(inbox), RxMax);
              res == RecvResult(FinalReply(old(inbox), RxMax), RxMax)
              && sent == old(sent) + Copies(Encode(ReadRegisters(slave, code, addr, count)), n)
              && inbox == Consumed(old(inbox), n)
              && rx[..] == RxAfter(old(rx[..]), old(inbox), RxMax, n)
    {
      var tx := BuildFrame8(slave, code, addr, count);
      res := SendAndRecv(tx, rx, RxMax);
    }

    /** `MODBUS_ReadHolding`: function 0x03. */
    method ReadHolding(slave: Byte, addr: Word, count: Word, rx: array<Byte>) returns (res: int)
      requires RxMax <= rx.Length
      modifies this, rx
      ensures var n := Attempts(old(inbox), RxMax);
              res == RecvResult(FinalReply(old(inbox), RxMax), RxMax)
              && sent == old(sent) + Copies(Encode(ReadRegisters(slave, ReadHoldingCode, addr, count)), n)
              && inbox == Consumed(old(inbox), n)
              && rx[..] == RxAfter(old(rx[..]), old(inbox), RxMax, n)
      ensures requests == old(requests) + [ReadHoldingReq(slave, addr, count)]
    {
      res := SendSimple(slave, ReadHoldingCode, addr, count, rx);
      requests := requests + [ReadHoldingReq(slave, addr, count)];
    }

    /** `MODBUS_ReadInput`: function 0x04. */
    method ReadInput(slave: Byte, addr: Word, count: Word, rx: array<Byte>) returns (res: int)
      requires RxMax <= rx.Length
      modifies this, rx
      ensures var n := Attempts(old(inbox), RxMax);
              res == RecvResult(FinalReply(old(inbox), RxMax), RxMax)
              && sent == old(sent) + Copies(Encode(ReadRegisters(slave, ReadInputCode, addr, count)), n)
              && inbox == Consumed(old(inbox), n)
              && rx[..] == RxAfter(old(rx[..]), old(inbox), RxMax, n)
      ensures requests == old(requests) + [ReadInputReq(slave, addr, count)]
    {
      res := SendSimple(slave, ReadInputCode, addr, count, rx);
      requests := requests + [ReadInputReq(slave, addr, count)];
    }

    /** `MODBUS_WriteSingle`: function 0x06, the reply received into a local 256-byte buffer. */
    method WriteSingle(slave: Byte, addr: Word, value: Word) returns (res: int)
      modifies this
      ensures var n := Attempts(old(inbox), RxMax);
              res == RecvResult(FinalReply(old(inbox), RxMax), RxMax)
              && sent == old(sent) + Copies(Encode(WriteRegister(slave, addr, value)), n)
              && inbox == Consumed(old(inbox), n)
      ensures requests == old(requests) + [WriteSingleReq(slave, addr, value)]
    {
      var tx := BuildFrame8(slave, WriteSingleCode, addr, value);
      var rx := new Byte[RxMax];
      res := SendAndRecv(tx, rx, RxMax);
      requests := requests + [WriteSingleReq(slave, addr, value)];
    }

    /**
     * `MODBUS_WriteHolding`: function 0x10 for 1 to 20 registers; any other
     * count returns -1 before anything is sent.
     */
    method WriteHolding(slave: Byte, addr: Word, values: seq<Word>, rx: array<Byte>) returns (res: int)
      requires |values| < 0x1_0000
      requires RxMax <= rx.Length
      modifies this, rx
      ensures requests == old(requests) + [WriteHoldingReq(slave, addr, values)]
      ensures (|values| == 0 || |values| > MaxHoldingRegs) ==>
                res == -1 && sent == old(sent) && inbox == old(inbox) && rx[..] == old(rx[..])
      ensures 1 <= |values| <= MaxHoldingRegs ==>
                var n := Attempts(old(inbox), RxMax);
                res == RecvResult(FinalReply(old(inbox), RxMax), RxMax)
                && sent == old(sent) + Copies(Encode(WriteRegisters(slave, addr, values)), n)
                && inbox == Consumed(old(inbox), n)
                && rx[..] == RxAfter(old(rx[..]), old(inbox), RxMax, n)
    {
      requests := requests + [WriteHoldingReq(slave, addr, values)];
      if |values| == 0 || |values| > MaxHoldingRegs {
        return -1;
      }
      var tx := new Byte[64];
      var len := FillWriteRegisters(tx, slave, addr, values);
      res := SendAndRecv(tx[..len], rx, RxMax);
    }

    /**
     * `MODBUS_WriteMultiple` as written: function 0x10 with no count check.
     * It transmits `len + 2` bytes of `tx` after `len` already counts the
     * CRC, so the two bytes of `tx` past the frame, never written, go out
     * with it. `transmitted` is the datagram, sent once per attempt; by
     * `TrailingBytesRejected` a receiver that checks the byte count against
     * the length (`Decode`) rejects it.
     */
    method WriteMultipleAsWritten(slave: Byte, addr: Word, values: seq<Word>) returns (res: int, ghost transmitted: seq<Byte>)
      requires 9 + 2 * |values| + 2 <= MultipleTxCapacity
      modifies this
      ensures |transmitted| == |Encode(WriteRegisters(slave, addr, values))| + 2
      ensures transmitted[..|transmitted| - 2] == Encode(WriteRegisters(slave, addr, values))
      ensures var n := Attempts(old(inbox), RxMax);
              res == RecvResult(FinalReply(old(inbox), RxMax), RxMax)
              && sent == old(sent) + Copies(transmitted, n)
              && inbox == Consumed(old(inbox), n)
      ensures requests == old(requests) + [WriteMultipleReq(slave, addr, values)]
    {
      var tx := new Byte[MultipleTxCapacity];
      var rx := new Byte[RxMax];
      var len := FillWriteRegisters(tx, slave, addr, values);
      transmitted := tx[..len + 2];
      assert transmitted[..len] == tx[..len];
      res := SendAndRecv(tx[..len + 2], rx, RxMax);
      requests := requests + [WriteMultipleReq(slave, addr, values)];
    }

    /**
     * `MODBUS_WriteMultiple` transmitting exactly the frame it built; the
     * rest of the model uses this one.
     */
    method WriteMultiple(slave: Byte, addr: Word, values: seq<Word>) returns (res: int)
      requires 9 + 2 * |values| + 2 <= MultipleTxCapacity
      modifies this
      ensures var n := Attempts(old(inbox), RxMax);
              res == RecvResult(FinalReply(old(inbox), RxMax), RxMax)
              && sent == old(sent) + Copies(Encode(WriteRegisters(slave, addr, values)), n)
              && inbox == Consumed(old(inbox), n)
      ensures requests == old(requests) + [WriteMultipleReq(slave, addr, values)]
    {
      var tx := new Byte[MultipleTxCapacity];
      var rx := new Byte[RxMax];
      var len := FillWriteRegisters(tx, slave, addr, values);
      res := SendAndRecv(tx[..len], rx, RxMax);
      requests := requests + [WriteMultipleReq(slave, addr, values)];
    }

    /**
     * `MODBUS_CheckConnection`: reads two holding registers at 230 and
     * returns 0 when the reply has at least 5 bytes and no exception bit in
     * its function code, -1 otherwise. A CRC mismatch on the reply only
     * raises `crcWarning`; it does not change the verdict.
     */
    method CheckConnection(unit: Byte) returns (status: int, crcWarning: bool)
      modifies this
      ensures requests == old(requests) + [ReadHoldingReq(unit, 230, 2)]
      ensures var n := Attempts(old(inbox), RxMax);
              sent == old(sent) + Copies(Encode(ReadRegisters(unit, ReadHoldingCode, 230, 2)), n)
              && inbox == Consumed(old(inbox), n)
      ensures var r := FinalReply(old(inbox), RxMax);
              status == ProbeStatus(RecvResult(r, RxMax), RecvBytes(r, RxMax))
              && crcWarning == (status == 0 && !CrcMatches(RecvBytes(r, RxMax)))
    {
      var rx := new Byte[RxMax];
      ghost var inbox0 := inbox;
      ghost var rx0 := rx[..];
      var res := ReadHolding(unit, 230, 2, rx);
      ghost var r := FinalReply(inbox0, RxMax);
      crcWarning := false;
      if res <= 0 {
        return -1, false;
      }
      if res < 5 {
        return -1, false;
      }
      SuccessStored(rx0, inbox0, RxMax);
      assert rx[..res] == RecvBytes(r, RxMax);
      if rx[1] & ExceptionBit != 0 {
        return -1, false;
      }
      var received := Join(rx[res - 1], rx[res - 2]);
      var calculated := ComputeCrc16(rx, res - 2);
      assert rx[..res - 2] == RecvBytes(r, RxMax)[..res - 2];
      if received != calculated {
        crcWarning := true;
      }
      status := 0;
    }
  }

  /** Bytes followed by the two CRC bytes of their CRC form the `WithCrc` frame. */
  lemma AppendCrc(t: seq<Byte>, body: seq<Byte>, crc: Word)
    requires |t| == |body| + 2 && t[..|body|] == body
    requires t[|body|] == Lo(crc) && t[|body| + 1] == Hi(crc) && crc == Crc16(body)
    ensures t == WithCrc(body)
  {}

  /** The seven header bytes of a function 0x10 request for `n` registers. */
  method PutHeader(tx: array<Byte>, slave: Byte, addr: Word, n: nat) returns (len: nat)
    requires n < 0x1_0000 && 7 <= tx.Length
    modifies tx
    ensures len == 7 && tx[..len] == Header(slave, WriteMultipleCode, addr, U16(n)) + [U8(2 * n)]
  {
    var count := U16(n);
    tx[0] := slave;
    tx[1] := WriteMultipleCode;
    tx[2] := Hi(addr);
    tx[3] := Lo(addr);
    tx[4] := Hi(count);
    tx[5] := Lo(count);
    tx[6] := U8(2 * n);
    len := 7;
  }

  /** Register values, big-endian, written from `start` on. */
  method PutRegisters(tx: array<Byte>, start: nat, values: seq<Word>) returns (len: nat)
    requires start + 2 * |values| <= tx.Length
    modifies tx
    ensures len == start + 2 * |values| && tx[..len] == old(tx[..start]) + RegisterBytes(values)
  {
    ghost var head := tx[..start];
    len := start;
    var i := 0;
    while i < |values|
      invariant 0 <= i <= |values|
      invariant len == start + 2 * i
      invariant tx[..len] == head + RegisterBytes(values[..i])
    {
      RegisterBytesSnoc(values[..i], values[i]);
      assert values[..i + 1] == values[..i] + [values[i]];
      tx[len] := Hi(values[i]);
      tx[len + 1] := Lo(values[i]);
      len := len + 2;
      i := i + 1;
    }
    assert values[..i] == values;
  }

  /** `MODBUS_CRC16` over the first `len` bytes, stored after them low byte first. */
  method PutCrc(tx: array<Byte>, len: nat) returns (len': nat)
    requires len + 2 <= tx.Length
    modifies tx
    ensures len' == len + 2 && tx[..len'] == WithCrc(old(tx[..len]))
  {
    ghost var body := tx[..len];
    var crc := ComputeCrc16(tx, len);
    tx[len] := Lo(crc);
    tx[len + 1] := Hi(crc);
    AppendCrc(tx[..len + 2], body, crc);
    len' := len + 2;
  }

  /** The request frame of function 0x10, built in `tx` as `WriteHolding` and `WriteMultiple` build it. */
  method FillWriteRegisters(tx: array<Byte>, slave: Byte, addr: Word, values: seq<Word>) returns (len: nat)
    requires |values| < 0x1_0000 && 9 + 2 * |values| <= tx.Length
    modifies tx
    ensures len == 9 + 2 * |values| && tx[..len] == Encode(WriteRegisters(slave, addr, values))
  {
    len := PutHeader(tx, slave, addr, |values|);
    len := PutRegisters(tx, len, values);
    len := PutCrc(tx, len);
  }

  /** The verdict of the connection probe on a receive result and the bytes stored. */
  function ProbeStatus(res: int, reply: seq<Byte>): int
    requires res > 0 ==> |reply| == res
  {
    if res <= 0 || res < 5 then -1
    else if reply[1] & ExceptionBit != 0 then -1
    else 0
  }

  lemma {:induction false} RegisterBytesSnoc(values: seq<Word>, v: Word)
    ensures RegisterBytes(values + [v]) == RegisterBytes(values) + [Hi(v), Lo(v)]
    decreases |values|
  {
    if values == [] {
      assert values + [v] == [v];
    } else {
      assert (values + [v])[1..] == values[1..] + [v];
      RegisterBytesSnoc(values[1..], v);
    }
  }

  /** A probe reply shorter than 5 bytes or carrying the exception bit fails; any other succeeds, whatever its CRC. */
  lemma ProbeIgnoresCrc(reply: seq<Byte>)
    requires |reply| >= 5
    ensures ProbeStatus(|reply|, reply) == 0 <==> reply[1] & 0x80 == 0
  {}

  /** A well-formed reply built as the master builds its frames is accepted without a CRC warning. */
  lemma ProbeAcceptsCrcFrame(body: seq<Byte>)
    requires |body| >= 3 && body[1] & 0x80 == 0
    ensures ProbeStatus(|WithCrc(body)|, WithCrc(body)) == 0 && CrcMatches(WithCrc(body))
  {
    WithCrcMatches(body);
  }
}
