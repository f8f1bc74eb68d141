/**
 * `drive_feedback.c`: single-register reads of an axis's input registers
 * (function 0x04), the limit-switch interlock on the I/O status word, and
 * the decoding of the fault word into its flags.
 */
module DriveFeedback {
  import opened Bytes
  import opened Crc
  import opened Config
  import opened Axis
  import opened Modbus
  import opened Wrappers
  import opened DriveCommand
  import Ini

  // ---------------------------------------------------------------------
  // Responses

  /** The drive's normal response to a read: slave, function code, byte count, the registers big-endian, CRC. */
  function ReadReply(slave: Byte, code: Byte, values: seq<Word>): (f: seq<Byte>)
    ensures |f| == 5 + 2 * |values|
  {
    WithCrc([slave, code, U8(2 * |values|)] + RegisterBytes(values))
  }

  /** An exception response: the function code with its high bit set, and an exception code. */
  function ExceptionReply(slave: Byte, code: Byte, exception: Byte): (f: seq<Byte>)
    ensures |f| == 5
  {
    WithCrc([slave, code | ExceptionBit, exception])
  }

  /**
   * `extract_reg16_from_resp`: refuses a response shorter than 7 bytes or
   * one whose byte count is below 2, and otherwise takes the big-endian
   * word at bytes 3 and 4.
   */
  function ExtractReg16(buf: seq<Byte>, len: int): Option<Word>
    requires len >= 7 ==> |buf| >= 5
  {
    if len < 7 then None
    else if buf[2] < 2 then None
    else Some(Join(buf[3], buf[4]))
  }

  /** A normal response to a read of at least one register yields that first register. */
  lemma ExtractFirstRegister(slave: Byte, code: Byte, values: seq<Word>, rest: seq<Byte>)
    requires 1 <= |values| < 0x80
    ensures var f := ReadReply(slave, code, values);
            ExtractReg16(f + rest, |f|) == Some(values[0])
  {
    var f := ReadReply(slave, code, values);
    var body := [slave, code, U8(2 * |values|)] + RegisterBytes(values);
    assert f[..|body|] == body;
    assert (f + rest)[2] == body[2] == U8(2 * |values|);
    U8Value(2 * |values|);
    assert RegisterBytes(values)[0] == Hi(values[0]) && RegisterBytes(values)[1] == Lo(values[0]);
    assert (f + rest)[3] == Hi(values[0]) && (f + rest)[4] == Lo(values[0]);
    JoinSplit(values[0]);
  }

  /** An exception response, or a response whose byte count is below 2, yields nothing. */
  lemma ExtractRefuses(slave: Byte, code: Byte, exception: Byte, buf: seq<Byte>, len: int)
    requires len >= 7 ==> |buf| >= 5
    ensures ExtractReg16(ExceptionReply(slave, code, exception), 5) == None
    ensures len >= 7 && buf[2] < 2 ==> ExtractReg16(buf, len) == None
  {}

  /** What a `Read_*` function reports for the last reply of its exchange. */
  function FeedbackOf(r: Reply): Option<Word> {
    var len := RecvResult(r, RxMax);
    if len <= 0 then None else ExtractReg16(RecvBytes(r, RxMax), len)
  }

  /** Timeouts and over-long datagrams report nothing; a normal response reports its first register. */
  lemma FeedbackOutcomes(slave: Byte, code: Byte, values: seq<Word>)
    requires 1 <= |values| < 0x80
    ensures FeedbackOf(Timeout) == None
    ensures 5 + 2 * |values| <= RxMax ==> FeedbackOf(Datagram(ReadReply(slave, code, values))) == Some(values[0])
    ensures 5 + 2 * |values| > RxMax ==> FeedbackOf(Datagram(ReadReply(slave, code, values))) == None
  {
    var f := ReadReply(slave, code, values);
    ExtractFirstRegister(slave, code, values, []);
    assert f + [] == f;
  }

  // ---------------------------------------------------------------------
  // Single-register reads

  /** The `Read_*` functions that read one input register and report it. */
  datatype Quantity =
    | Version | Revision | ReleaseDate | AbsPositionMm | PositionDeg
    | PositionMm | Rpm | Current | SystemStatus | DcBusVoltage

  /** The configured input register of each quantity. */
  function QuantityRegister(a: AxisConfig, q: Quantity): int {
    match q
    case Version => a.version
    case Revision => a.revision
    case ReleaseDate => a.releaseDate
    case AbsPositionMm => a.absPosition
    case PositionDeg => a.posDeg
    case PositionMm => a.posMm
    case Rpm => a.rpm
    case Current => a.actualCurrent
    case SystemStatus => a.systemStatus
    case DcBusVoltage => a.dcbusVoltCmd
  }

  /** Positions and current are sent scaled by 100; the other quantities as they are. */
  function Scale(q: Quantity): real {
    if q == AbsPositionMm || q == PositionDeg || q == PositionMm || q == Current then 100.0 else 1.0
  }

  /** The reported value of a register word. */
  function Reading(q: Quantity, raw: Word): real {
    Value(raw) as real / Scale(q)
  }

  /** Readings are never negative, and a scaled reading is the register in hundredths. */
  lemma ReadingRange(q: Quantity, raw: Word)
    ensures 0.0 <= Reading(q, raw) < 65536.0
    ensures Scale(q) == 100.0 ==> Reading(q, raw) * 100.0 == Value(raw) as real
    ensures Scale(q) == 1.0 ==> Reading(q, raw) == Value(raw) as real
  {
    ValueRange(raw);
  }

  /**
   * The common body of the `Read_*` functions: two input registers read at
   * `addr`, and the first reported unless the exchange failed or the
   * response is refused.
   */
  method ReadInputWord(m: ModbusMaster, unit: Byte, addr: Word) returns (r: Option<Word>)
    modifies m
    ensures m.requests == old(m.requests) + [ReadInputReq(unit, addr, 2)]
    ensures m.sent == old(m.sent) + SentLog(old(m.inbox), [Encode(ReadRegisters(unit, ReadInputCode, addr, 2))])
    ensures m.inbox == InboxAfter(old(m.inbox), [Encode(ReadRegisters(unit, ReadInputCode, addr, 2))])
    ensures r == FeedbackOf(FinalReply(old(m.inbox), RxMax))
  {
    var rx := new Byte[RxMax];
    ghost var inbox0, rx0 := m.inbox, rx[..];
    var len := m.ReadInput(unit, addr, 2, rx);
    if len <= 0 {
      return None;
    }
    SuccessStored(rx0, inbox0, RxMax);
    ghost var d := RecvBytes(FinalReply(inbox0, RxMax), RxMax);
    assert rx[..len] == d;
    assert len >= 7 ==> rx[2] == d[2] && rx[3] == d[3] && rx[4] == d[4];
    r := ExtractReg16(rx[..], len);
  }

  /**
   * The `Read_*` functions other than `Read_IO_Status`: read two input
   * registers at the quantity's register and report the first, scaled,
   * or fail (-1) when the exchange failed or the response is refused.
   */
  method ReadFeedback(m: ModbusMaster, cfg: Config, axis: AxisId, q: Quantity) returns (r: Option<real>)
    requires IsSingle(axis)
    modifies m
    ensures var addr := U16(QuantityRegister(AxisCfg(cfg, axis), q));
            m.requests == old(m.requests) + [ReadInputReq(U8(cfg.modbus.unitId), addr, 2)]
            && m.sent == old(m.sent) + SentLog(old(m.inbox), [Encode(ReadRegisters(U8(cfg.modbus.unitId), ReadInputCode, addr, 2))])
            && m.inbox == InboxAfter(old(m.inbox), [Encode(ReadRegisters(U8(cfg.modbus.unitId), ReadInputCode, addr, 2))])
    ensures var f := FeedbackOf(FinalReply(old(m.inbox), RxMax));
            r == if f.None? then None else Some(Reading(q, f.value))
  {
    var a := GetAxisCfg(cfg, axis).value;
    var raw := ReadInputWord(m, U8(cfg.modbus.unitId), U16(QuantityRegister(a, q)));
    if raw.None? {
      return None;
    }
    r := Some(Reading(q, raw.value));
  }

  // ---------------------------------------------------------------------
  // The limit-switch interlock

  /** The limit inputs in the low byte of the I/O word: inputs 1 and 2 for TILT, inputs 4 and 5 for any other axis. */
  function LimitMask(axis: AxisId): Byte {
    if axis == Tilt then 0x03 else 0x18
  }

  /** A limit input of the axis is active. */
  predicate LimitHit(axis: AxisId, io: Word) {
    Lo(io) & LimitMask(axis) != 0
  }

  /** The interlock bit by bit; the high byte never trips it. */
  lemma LimitHitBits(axis: AxisId, io: Word)
    ensures axis == Tilt ==> (LimitHit(axis, io) <==> io & 0x01 != 0 || io & 0x02 != 0)
    ensures axis != Tilt ==> (LimitHit(axis, io) <==> io & 0x08 != 0 || io & 0x10 != 0)
    ensures LimitHit(axis, io) == LimitHit(axis, io & 0x00FF)
  {}

  /** The frames `Read_IO_Status` sends: the read of IO_STATUS, then the E-Stop write when a limit is hit. */
  function IoStatusFrames(cfg: Config, axis: AxisId, estop: bool): seq<seq<Byte>>
    requires IsSingle(axis)
  {
    [Encode(ReadRegisters(U8(cfg.modbus.unitId), ReadInputCode, U16(AxisCfg(cfg, axis).ioStatus), 2))]
    + EStopFrames(cfg, axis, estop)
  }

  /** The E-Stop write of the axis, when `estop`. */
  function EStopFrames(cfg: Config, axis: AxisId, estop: bool): seq<seq<Byte>> {
    if estop then [Encode(WriteRegister(U8(cfg.modbus.unitId), U16(Register(cfg.cmdRegs, EStop)), CommandValue(axis)))]
    else []
  }

  /** The interlock of `Read_IO_Status`: one E-Stop for the axis exactly when one of its limit inputs is active in `io`. */
  method EStopOnLimit(m: ModbusMaster, cfg: Config, axis: AxisId, io: Word)
    modifies m
    ensures m.requests == old(m.requests) + (if LimitHit(axis, io) then [CommandRequest(cfg, EStop, axis)] else [])
    ensures m.sent == old(m.sent) + SentLog(old(m.inbox), EStopFrames(cfg, axis, LimitHit(axis, io)))
    ensures m.inbox == InboxAfter(old(m.inbox), EStopFrames(cfg, axis, LimitHit(axis, io)))
  {
    var inputs := Lo(io);
    if axis == Tilt {
      assert LimitHit(axis, io) == (inputs & 0x03 != 0);
      if inputs & 0x03 != 0 {
        IssueCommand(m, cfg, EStop, axis);
      }
    } else {
      assert LimitHit(axis, io) == (inputs & 0x18 != 0);
      if inputs & 0x18 != 0 {
        IssueCommand(m, cfg, EStop, axis);
      }
    }
  }

  /**
   * `Read_IO_Status`: -1 when no output is given, before anything is
   * sent. Otherwise reads two input registers at IO_STATUS into a zeroed
   * buffer; a response shorter than 7 bytes gives -1 with no E-Stop.
   * Otherwise the word at bytes 3 and 4 is reported, its byte count
   * unchecked, and exactly one E-Stop is issued for the axis when one of
   * its limit inputs is active.
   */
  method ReadIoStatus(m: ModbusMaster, cfg: Config, axis: AxisId, outGiven: bool) returns (res: int, io: Word)
    requires outGiven ==> IsSingle(axis)
    modifies m
    ensures !outGiven ==> res == -1 && m.requests == old(m.requests) && m.sent == old(m.sent) && m.inbox == old(m.inbox)
    ensures outGiven ==>
              var read := ReadInputReq(U8(cfg.modbus.unitId), U16(AxisCfg(cfg, axis).ioStatus), 2);
              var r := FinalReply(old(m.inbox), RxMax);
              var len := RecvResult(r, RxMax);
              (len < 7 ==> res == -1 && m.requests == old(m.requests) + [read])
              && (len >= 7 ==>
                    res == 0 && io == Join(r.data[3], r.data[4])
                    && m.requests == old(m.requests) + [read]
                                     + (if LimitHit(axis, io) then [CommandRequest(cfg, EStop, axis)] else []))
              && m.sent == old(m.sent) + SentLog(old(m.inbox), IoStatusFrames(cfg, axis, len >= 7 && LimitHit(axis, io)))
              && m.inbox == InboxAfter(old(m.inbox), IoStatusFrames(cfg, axis, len >= 7 && LimitHit(axis, io)))
  {
    if !outGiven {
      return -1, 0;
    }
    var a := GetAxisCfg(cfg, axis).value;
    var addr := U16(a.ioStatus);
    ghost var inbox0, sent0 := m.inbox, m.sent;
    var len, word := ReadIoWord(m, U8(cfg.modbus.unitId), addr);
    ghost var sent1, inbox1 := m.sent, m.inbox;
    if len < 7 {
      return -1, 0;
    }
    io := word;
    EStopOnLimit(m, cfg, axis, io);
    if LimitHit(axis, io) {
      ChainPair(sent0, sent1, m.sent, inbox0, inbox1, m.inbox,
                Encode(ReadRegisters(U8(cfg.modbus.unitId), ReadInputCode, addr, 2)),
                Encode(WriteRegister(U8(cfg.modbus.unitId), U16(Register(cfg.cmdRegs, EStop)), CommandValue(axis))));
    }
    res := 0;
  }

  /**
   * The read of `Read_IO_Status`: two input registers into a zeroed
   * buffer; the word at bytes 3 and 4 is the reply's when at least 7
   * bytes arrived.
   */
  method ReadIoWord(m: ModbusMaster, unit: Byte, addr: Word) returns (len: int, io: Word)
    modifies m
    ensures var r := FinalReply(old(m.inbox), RxMax);
            len == RecvResult(r, RxMax) && (len >= 7 ==> io == Join(r.data[3], r.data[4]))
    ensures m.requests == old(m.requests) + [ReadInputReq(unit, addr, 2)]
    ensures m.sent == old(m.sent) + SentLog(old(m.inbox), [Encode(ReadRegisters(unit, ReadInputCode, addr, 2))])
    ensures m.inbox == InboxAfter(old(m.inbox), [Encode(ReadRegisters(unit, ReadInputCode, addr, 2))])
  {
    var rx := new Byte[RxMax](_ => 0);
    ghost var inbox0, rx0 := m.inbox, rx[..];
    len := m.ReadInput(unit, addr, 2, rx);
    io := Join(rx[3], rx[4]);
    if len >= 7 {
      SuccessStored(rx0, inbox0, RxMax);
      ghost var d := FinalReply(inbox0, RxMax).data;
      assert rx[3] == d[3] && rx[4] == d[4];
    }
  }

  // ---------------------------------------------------------------------
  // Fault word

  /** `FaultStatus_t`: the raw word and one flag per configured mask. */
  datatype FaultStatus = FaultStatus(
    raw: Word,
    shortCircuit: bool, systemOk: bool, ratedCurrent: bool, overTemp: bool,
    overVolt: bool, underVolt: bool, motionError: bool, driveDisable: bool,
    eepromError: bool, commutationErr: bool, lockRotor: bool, emergencyErr: bool,
    commandError: bool, motionComplete: bool)

  /** `(raw & mask) != 0` for an `int` mask: only its low 16 bits can meet the word. */
  predicate Flag(raw: Word, mask: int) {
    AnySet(raw, U16(mask))
  }

  /**
   * The decoding of `Read_FaultStatus` as written: `command_error` is
   * checked against the commutation mask, like `commutation_err`.
   */
  function DecodeFaultsAsWritten(raw: Word, bits: FaultBits): FaultStatus {
    FaultStatus(raw,
      Flag(raw, bits.shortCkt), Flag(raw, bits.systemHealthy), Flag(raw, bits.ratedCurrentFault),
      Flag(raw, bits.overTemp), Flag(raw, bits.overVolt), Flag(raw, bits.underVolt),
      Flag(raw, bits.motionError), Flag(raw, bits.driveDisable), Flag(raw, bits.eepromError),
      Flag(raw, bits.commutationError), Flag(raw, bits.lockRotor), Flag(raw, bits.emergencyError),
      Flag(raw, bits.commutationError), Flag(raw, bits.motionComplete))
  }

  /** The decoding with each flag checked against its own mask. */
  function DecodeFaults(raw: Word, bits: FaultBits): FaultStatus {
    FaultStatus(raw,
      Flag(raw, bits.shortCkt), Flag(raw, bits.systemHealthy), Flag(raw, bits.ratedCurrentFault),
      Flag(raw, bits.overTemp), Flag(raw, bits.overVolt), Flag(raw, bits.underVolt),
      Flag(raw, bits.motionError), Flag(raw, bits.driveDisable), Flag(raw, bits.eepromError),
      Flag(raw, bits.commutationError), Flag(raw, bits.lockRotor), Flag(raw, bits.emergencyError),
      Flag(raw, bits.commandError), Flag(raw, bits.motionComplete))
  }

  /** As written, `command_error` always equals `commutation_err`; the two decodings differ in that flag only. */
  lemma CommandErrorIsCommutation(raw: Word, bits: FaultBits)
    ensures DecodeFaultsAsWritten(raw, bits).commandError == DecodeFaultsAsWritten(raw, bits).commutationErr
    ensures DecodeFaultsAsWritten(raw, bits) == DecodeFaults(raw, bits).(commandError := Flag(raw, bits.commutationError))
  {}

  /**
   * With the default masks (`COMMAND_ERROR` 16384, `COMMUTATION_ERROR` 512),
   * a fault word with only bit 14 set is a command error, which the decoding
   * as written does not report.
   */
  lemma CommandFaultMissed()
    ensures var bits := Ini.Defaults().faults;
            DecodeFaults(0x4000, bits).commandError && !DecodeFaultsAsWritten(0x4000, bits).commandError
  {
    var bits := Ini.Defaults().faults;
    assert bits.commandError == 16384 && bits.commutationError == 512;
    assert U16(16384) == 0x4000 && U16(512) == 0x200;
  }

  /** A zero word raises no flag, and a flag is raised by any word that shares a bit with its mask. */
  lemma DecodeFaultsFlags(raw: Word, bits: FaultBits)
    ensures var s := DecodeFaults(0, bits);
            !s.shortCircuit && !s.systemOk && !s.ratedCurrent && !s.overTemp && !s.overVolt
            && !s.underVolt && !s.motionError && !s.driveDisable && !s.eepromError
            && !s.commutationErr && !s.lockRotor && !s.emergencyErr && !s.commandError && !s.motionComplete
    ensures DecodeFaults(raw, bits).raw == raw
    ensures DecodeFaults(raw, bits).commandError <==> raw & U16(bits.commandError) != 0
  {}

  /** The frame of the fault-word read. */
  function FaultReadFrame(cfg: Config, axis: AxisId): seq<Byte>
    requires IsSingle(axis)
  {
    Encode(ReadRegisters(U8(cfg.modbus.unitId), ReadInputCode, U16(AxisCfg(cfg, axis).faultStatus), 2))
  }

  /**
   * The read of `Read_FaultStatus`: two input registers at FAULT_STATUS,
   * then bytes 3 and 4 of the buffer whatever the read returned. `rx` is
   * the receive buffer with whatever it held before.
   */
  method ReadFaultWord(m: ModbusMaster, cfg: Config, axis: AxisId, rx: array<Byte>) returns (raw: Word)
    requires IsSingle(axis) && RxMax <= rx.Length
    modifies m, rx
    ensures var b := RxAfter(old(rx[..]), old(m.inbox), RxMax, Attempts(old(m.inbox), RxMax));
            raw == Join(b[3], b[4])
    ensures m.requests == old(m.requests) + [ReadInputReq(U8(cfg.modbus.unitId), U16(AxisCfg(cfg, axis).faultStatus), 2)]
    ensures m.sent == old(m.sent) + SentLog(old(m.inbox), [FaultReadFrame(cfg, axis)])
    ensures m.inbox == InboxAfter(old(m.inbox), [FaultReadFrame(cfg, axis)])
  {
    var a := GetAxisCfg(cfg, axis).value;
    var addr := U16(a.faultStatus);
    var _ := m.ReadInput(U8(cfg.modbus.unitId), addr, 2, rx);
    raw := Join(rx[3], rx[4]);
  }

  /**
   * `Read_FaultStatus` with each flag decoded against its own mask: the
   * word read by `ReadFaultWord`, decoded by `DecodeFaults`.
   */
  method ReadFaultStatus(m: ModbusMaster, cfg: Config, axis: AxisId, rx: array<Byte>) returns (status: FaultStatus)
    requires IsSingle(axis) && RxMax <= rx.Length
    modifies m, rx
    ensures var b := RxAfter(old(rx[..]), old(m.inbox), RxMax, Attempts(old(m.inbox), RxMax));
            status == DecodeFaults(Join(b[3], b[4]), cfg.faults)
    ensures m.requests == old(m.requests) + [ReadInputReq(U8(cfg.modbus.unitId), U16(AxisCfg(cfg, axis).faultStatus), 2)]
    ensures m.sent == old(m.sent) + SentLog(old(m.inbox), [FaultReadFrame(cfg, axis)])
    ensures m.inbox == InboxAfter(old(m.inbox), [FaultReadFrame(cfg, axis)])
  {
    var raw := ReadFaultWord(m, cfg, axis, rx);
    status := DecodeFaults(raw, cfg.faults);
  }

  /**
   * `Read_FaultStatus` as written: the same read, with `command_error`
   * decoded against the commutation mask.
   */
  method ReadFaultStatusAsWritten(m: ModbusMaster, cfg: Config, axis: AxisId, rx: array<Byte>) returns (status: FaultStatus)
    requires IsSingle(axis) && RxMax <= rx.Length
    modifies m, rx
    ensures var b := RxAfter(old(rx[..]), old(m.inbox), RxMax, Attempts(old(m.inbox), RxMax));
            status == DecodeFaultsAsWritten(Join(b[3], b[4]), cfg.faults)
    ensures status.commandError == status.commutationErr
    ensures m.requests == old(m.requests) + [ReadInputReq(U8(cfg.modbus.unitId), U16(AxisCfg(cfg, axis).faultStatus), 2)]
    ensures m.sent == old(m.sent) + SentLog(old(m.inbox), [FaultReadFrame(cfg, axis)])
    ensures m.inbox == InboxAfter(old(m.inbox), [FaultReadFrame(cfg, axis)])
  {
    var raw := ReadFaultWord(m, cfg, axis, rx);
    status := DecodeFaultsAsWritten(raw, cfg.faults);
    CommandErrorIsCommutation(raw, cfg.faults);
  }

  /**
   * Where the decoded word comes from: the response when the exchange
   * received at least 5 bytes, and the buffer's old contents when every
   * attempt timed out.
   */
  lemma FaultWordSource(rx: seq<Byte>, inbox: seq<Reply>)
    requires RxMax <= |rx|
    ensures var r := FinalReply(inbox, RxMax);
            var b := RxAfter(rx, inbox, RxMax, Attempts(inbox, RxMax));
            RecvResult(r, RxMax) >= 5 ==> b[3] == r.data[3] && b[4] == r.data[4]
    ensures (forall k :: 0 <= k < Retries ==> ReplyAt(inbox, k) == Timeout) ==>
              RxAfter(rx, inbox, RxMax, Attempts(inbox, RxMax)) == rx
  {
    var r := FinalReply(inbox, RxMax);
    if RecvResult(r, RxMax) > 0 {
      SuccessStored(rx, inbox, RxMax);
    }
    if forall k :: 0 <= k < Retries ==> ReplyAt(inbox, k) == Timeout {
      var n := Attempts(inbox, RxMax);
      assert n == Retries;
      assert ReplyAt(inbox, 0) == Timeout && ReplyAt(inbox, 1) == Timeout && ReplyAt(inbox, 2) == Timeout;
      assert RxAfter(rx, inbox, RxMax, 1) == rx;
      assert RxAfter(rx, inbox, RxMax, 2) == rx;
    }
  }

  // ---------------------------------------------------------------------
  // Receive buffers

  /** Bytes `recvfrom` with `rx_max` 256 stores past the end of a buffer of `size` bytes. */
  function Overrun(size: nat, r: Reply): nat {
    var stored := |RecvBytes(r, RxMax)|;
    if stored > size then stored - size else 0
  }

  /**
   * `VerifyParameterWrite` and `Read_FaultStatus` as written receive into
   * 8-byte buffers while allowing 256 bytes: the normal response to their
   * two-register read is 9 bytes and overruns the buffer by one. The
   * 16-byte buffer of `Read_IO_Status` and the 64-byte buffers of the other
   * reads hold it.
   */
  lemma EightByteBufferOverrun(slave: Byte, code: Byte, v0: Word, v1: Word)
    ensures var r := Datagram(ReadReply(slave, code, [v0, v1]));
            Overrun(8, r) == 1 && Overrun(16, r) == 0 && Overrun(64, r) == 0
  {}
}
