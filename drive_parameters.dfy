/**
 * `drive_parameters.c`: motion parameters written to an axis's holding
 * registers as two-register blocks (function 0x10), velocity, acceleration,
 * deceleration and home offset each followed by a read-back (function
 * 0x03), and the four-register motion block.
 *
 * Parameters arrive as C `float`s and are held here as reals; the
 * conversion to a register is modelled at integer level (see `FloatToReg`).
 */
module DriveParameters {
  import opened Bytes
  import opened Config
  import opened Axis
  import opened Modbus

  /** `(int16_t)(value * scale)` is defined: the truncated product is an `int16_t`. */
  predicate FitsInt16(value: real, scale: real) {
    -0x8000 <= TruncZero(value * scale) < 0x8000
  }

  /** `FloatToReg`: the product truncated toward zero to an `int16_t`, reinterpreted as `uint16_t`. */
  function FloatToReg(value: real, scale: real): Word
    requires FitsInt16(value, scale)
  {
    U16(TruncZero(value * scale))
  }

  /** The register holds the truncated product in two's complement: read back as `int16_t` it is that product. */
  lemma FloatToRegValue(value: real, scale: real)
    requires FitsInt16(value, scale)
    ensures var t := TruncZero(value * scale);
            AsInt16(FloatToReg(value, scale)) == t
            && Value(FloatToReg(value, scale)) == if t < 0 then t + 0x1_0000 else t
  {
    Int16RoundTrip(TruncZero(value * scale));
  }

  /** The block `[val, 0]` of the positive writers and of the velocity, acceleration, deceleration and home-offset setters. */
  function PositiveBlock(w: Word): seq<Word> {
    [w, 0]
  }

  /**
   * The block `[val & 0xFFFF, (val >> 16) & 0xFFFF]` of the negative
   * writers, for `val` the `int16_t` in `w`. The shift is arithmetic;
   * Euclidean division by 65536 is the same floor.
   */
  function NegativeBlock(w: Word): seq<Word> {
    [w, U16(AsInt16(w) / 0x1_0000)]
  }

  /** The 32-bit value a block holds, low word first. */
  function Block32(block: seq<Word>): nat
    requires |block| == 2
  {
    Value(block[0]) + 0x1_0000 * Value(block[1])
  }

  /** The second word of the negative block is the sign extension: 0xFFFF for a negative value, 0 otherwise. */
  lemma NegativeBlockHigh(w: Word)
    ensures NegativeBlock(w)[1] == if AsInt16(w) < 0 then 0xFFFF else 0
  {
    var v := AsInt16(w);
    if v < 0 {
      assert v / 0x1_0000 == -1;
      ValueU16(-1);
      U16Value(0xFFFF);
    } else {
      assert v / 0x1_0000 == 0;
      ValueU16(0);
      U16Value(0);
    }
  }

  /** The negative block holds the value sign-extended to 32 bits, in two's complement. */
  lemma NegativeBlockSignExtends(w: Word)
    ensures Block32(NegativeBlock(w)) == AsInt16(w) % 0x1_0000_0000
  {
    NegativeBlockHigh(w);
    ValueRange(w);
    var v: int := AsInt16(w);
    var b := NegativeBlock(w);
    if v < 0 {
      assert Value(w) == v + 0x1_0000;
      assert Value(b[1]) == 0xFFFF by {
        JoinValue(0xFF, 0xFF);
        assert Join(0xFF, 0xFF) == 0xFFFF;
      }
      Mod32(v);
    } else {
      assert Value(w) == v;
      assert Value(b[1]) == 0;
      Mod32(v);
    }
  }

  lemma Mod32(v: int)
    requires -0x8000 <= v < 0x8000
    ensures v % 0x1_0000_0000 == if v < 0 then v + 0x1_0000_0000 else v
  {}

  /** The positive block holds the value in 32 bits exactly when it is not negative; both blocks then agree. */
  lemma PositiveBlockNonNegative(w: Word)
    ensures Block32(PositiveBlock(w)) == AsInt16(w) % 0x1_0000_0000 <==> AsInt16(w) >= 0
    ensures AsInt16(w) >= 0 ==> PositiveBlock(w) == NegativeBlock(w)
  {
    NegativeBlockHigh(w);
    ValueRange(w);
    var v: int := AsInt16(w);
    assert Value(0) == 0;
    assert Block32(PositiveBlock(w)) == Value(w);
    Mod32(v);
    if v < 0 {
      assert Value(w) == v + 0x1_0000;
    } else {
      assert Value(w) == v;
    }
  }

  /** The unit id and a register address as the setters pass them, truncated to `uint8_t` and `uint16_t`. */
  function Unit(cfg: Config): Byte {
    U8(cfg.modbus.unitId)
  }

  /** The requests of a block write followed by its read-back. */
  function WriteAndVerify(cfg: Config, addr: Word, block: seq<Word>): seq<Request> {
    [WriteHoldingReq(Unit(cfg), addr, block), ReadHoldingReq(Unit(cfg), addr, 2)]
  }

  /** The frames of a block write followed by its read-back. */
  function WriteAndVerifyFrames(cfg: Config, addr: Word, block: seq<Word>): seq<seq<Byte>> {
    [Encode(WriteRegisters(Unit(cfg), addr, block)), Encode(ReadRegisters(Unit(cfg), ReadHoldingCode, addr, 2))]
  }

  /** `MODBUS_WriteHolding` of a two-register block into a 256-byte receive buffer; the result is ignored. */
  method WriteBlock(m: ModbusMaster, cfg: Config, addr: Word, block: seq<Word>)
    requires |block| == 2
    modifies m
    ensures m.requests == old(m.requests) + [WriteHoldingReq(Unit(cfg), addr, block)]
    ensures m.sent == old(m.sent) + SentLog(old(m.inbox), [Encode(WriteRegisters(Unit(cfg), addr, block))])
    ensures m.inbox == InboxAfter(old(m.inbox), [Encode(WriteRegisters(Unit(cfg), addr, block))])
  {
    var rx := new Byte[RxMax];
    var _ := m.WriteHolding(Unit(cfg), addr, block, rx);
  }

  /**
   * `VerifyParameterWrite`: reads two holding registers at `addr` and
   * yields the first, `rx[3] << 8 | rx[4]`, which is only logged. The
   * buffer is not initialised and the read's result is not checked: the
   * word comes from the reply when one of at least 5 bytes arrived.
   */
  method VerifyParameterWrite(m: ModbusMaster, cfg: Config, addr: Word) returns (raw: Word)
    modifies m
    ensures m.requests == old(m.requests) + [ReadHoldingReq(Unit(cfg), addr, 2)]
    ensures m.sent == old(m.sent) + SentLog(old(m.inbox), [Encode(ReadRegisters(Unit(cfg), ReadHoldingCode, addr, 2))])
    ensures m.inbox == InboxAfter(old(m.inbox), [Encode(ReadRegisters(Unit(cfg), ReadHoldingCode, addr, 2))])
    ensures var r := FinalReply(old(m.inbox), RxMax);
            RecvResult(r, RxMax) >= 5 ==> raw == Join(r.data[3], r.data[4])
  {
    var rx := new Byte[RxMax];
    ghost var inbox0, rx0 := m.inbox, rx[..];
    var _ := m.ReadHolding(Unit(cfg), addr, 2, rx);
    ghost var r := FinalReply(inbox0, RxMax);
    if RecvResult(r, RxMax) > 0 {
      SuccessStored(rx0, inbox0, RxMax);
    }
    raw := Join(rx[3], rx[4]);
  }

  /** A block write and its read-back. */
  method WriteVerified(m: ModbusMaster, cfg: Config, addr: Word, block: seq<Word>)
    requires |block| == 2
    modifies m
    ensures m.requests == old(m.requests) + WriteAndVerify(cfg, addr, block)
    ensures m.sent == old(m.sent) + SentLog(old(m.inbox), WriteAndVerifyFrames(cfg, addr, block))
    ensures m.inbox == InboxAfter(old(m.inbox), WriteAndVerifyFrames(cfg, addr, block))
  {
    ghost var s0, i0 := m.sent, m.inbox;
    WriteBlock(m, cfg, addr, block);
    ghost var s1, i1 := m.sent, m.inbox;
    var _ := VerifyParameterWrite(m, cfg, addr);
    ChainPair(s0, s1, m.sent, i0, i1, m.inbox, Encode(WriteRegisters(Unit(cfg), addr, block)),
              Encode(ReadRegisters(Unit(cfg), ReadHoldingCode, addr, 2)));
  }

  /** `Set_Position_Positive`: `[val, 0]` at the axis's POSITION, millimetres scaled by 100, no soft-limit check. */
  method SetPositionPositive(m: ModbusMaster, cfg: Config, axis: AxisId, mm: real)
    requires IsSingle(axis) && FitsInt16(mm, 100.0)
    modifies m
    ensures var block := PositiveBlock(FloatToReg(mm, 100.0));
            var addr := U16(AxisCfg(cfg, axis).position);
            m.requests == old(m.requests) + [WriteHoldingReq(Unit(cfg), addr, block)]
            && m.sent == old(m.sent) + SentLog(old(m.inbox), [Encode(WriteRegisters(Unit(cfg), addr, block))])
            && m.inbox == InboxAfter(old(m.inbox), [Encode(WriteRegisters(Unit(cfg), addr, block))])
  {
    var a := GetAxisCfg(cfg, axis).value;
    var addr := U16(a.position);
    var val := FloatToReg(mm, 100.0);
    WriteBlock(m, cfg, addr, [val, 0]);
  }

  /** `Set_Position_Negative`: the sign-extended block at the axis's POSITION. */
  method SetPositionNegative(m: ModbusMaster, cfg: Config, axis: AxisId, mm: real)
    requires IsSingle(axis) && FitsInt16(mm, 100.0)
    modifies m
    ensures var block := NegativeBlock(FloatToReg(mm, 100.0));
            var addr := U16(AxisCfg(cfg, axis).position);
            m.requests == old(m.requests) + [WriteHoldingReq(Unit(cfg), addr, block)]
            && m.sent == old(m.sent) + SentLog(old(m.inbox), [Encode(WriteRegisters(Unit(cfg), addr, block))])
            && m.inbox == InboxAfter(old(m.inbox), [Encode(WriteRegisters(Unit(cfg), addr, block))])
  {
    var a := GetAxisCfg(cfg, axis).value;
    var addr := U16(a.position);
    var val := FloatToReg(mm, 100.0);
    WriteBlock(m, cfg, addr, [val, U16(AsInt16(val) / 0x1_0000)]);
  }

  /** `Set_DegPosition_Positive`: `[val, 0]` at the axis's DEG_POS, degrees scaled by 100. */
  method SetDegPositionPositive(m: ModbusMaster, cfg: Config, axis: AxisId, deg: real)
    requires IsSingle(axis) && FitsInt16(deg, 100.0)
    modifies m
    ensures var block := PositiveBlock(FloatToReg(deg, 100.0));
            var addr := U16(AxisCfg(cfg, axis).degPos);
            m.requests == old(m.requests) + [WriteHoldingReq(Unit(cfg), addr, block)]
            && m.sent == old(m.sent) + SentLog(old(m.inbox), [Encode(WriteRegisters(Unit(cfg), addr, block))])
            && m.inbox == InboxAfter(old(m.inbox), [Encode(WriteRegisters(Unit(cfg), addr, block))])
  {
    var a := GetAxisCfg(cfg, axis).value;
    var addr := U16(a.degPos);
    var val := FloatToReg(deg, 100.0);
    WriteBlock(m, cfg, addr, [val, 0]);
  }

  /** `Set_DegPosition_Negative`: the sign-extended block at the axis's DEG_POS. */
  method SetDegPositionNegative(m: ModbusMaster, cfg: Config, axis: AxisId, deg: real)
    requires IsSingle(axis) && FitsInt16(deg, 100.0)
    modifies m
    ensures var block := NegativeBlock(FloatToReg(deg, 100.0));
            var addr := U16(AxisCfg(cfg, axis).degPos);
            m.requests == old(m.requests) + [WriteHoldingReq(Unit(cfg), addr, block)]
            && m.sent == old(m.sent) + SentLog(old(m.inbox), [Encode(WriteRegisters(Unit(cfg), addr, block))])
            && m.inbox == InboxAfter(old(m.inbox), [Encode(WriteRegisters(Unit(cfg), addr, block))])
  {
    var a := GetAxisCfg(cfg, axis).value;
    var addr := U16(a.degPos);
    var val := FloatToReg(deg, 100.0);
    WriteBlock(m, cfg, addr, [val, U16(AsInt16(val) / 0x1_0000)]);
  }

  /** `Set_Velocity`: `[val, 0]` unscaled at the axis's VELOCITY, then the read-back. */
  method SetVelocity(m: ModbusMaster, cfg: Config, axis: AxisId, vel: real)
    requires IsSingle(axis) && FitsInt16(vel, 1.0)
    modifies m
    ensures var block := PositiveBlock(FloatToReg(vel, 1.0));
            var addr := U16(AxisCfg(cfg, axis).velocity);
            m.requests == old(m.requests) + WriteAndVerify(cfg, addr, block)
            && m.sent == old(m.sent) + SentLog(old(m.inbox), WriteAndVerifyFrames(cfg, addr, block))
            && m.inbox == InboxAfter(old(m.inbox), WriteAndVerifyFrames(cfg, addr, block))
  {
    var a := GetAxisCfg(cfg, axis).value;
    WriteVerified(m, cfg, U16(a.velocity), [FloatToReg(vel, 1.0), 0]);
  }

  /** `Set_Acceleration`: `[val, 0]` unscaled at the axis's ACCEL, then the read-back. */
  method SetAcceleration(m: ModbusMaster, cfg: Config, axis: AxisId, accel: real)
    requires IsSingle(axis) && FitsInt16(accel, 1.0)
    modifies m
    ensures var block := PositiveBlock(FloatToReg(accel, 1.0));
            var addr := U16(AxisCfg(cfg, axis).accel);
            m.requests == old(m.requests) + WriteAndVerify(cfg, addr, block)
            && m.sent == old(m.sent) + SentLog(old(m.inbox), WriteAndVerifyFrames(cfg, addr, block))
            && m.inbox == InboxAfter(old(m.inbox), WriteAndVerifyFrames(cfg, addr, block))
  {
    var a := GetAxisCfg(cfg, axis).value;
    WriteVerified(m, cfg, U16(a.accel), [FloatToReg(accel, 1.0), 0]);
  }

  /** `Set_Deceleration`: `[val, 0]` unscaled at the axis's DECEL, then the read-back. */
  method SetDeceleration(m: ModbusMaster, cfg: Config, axis: AxisId, decel: real)
    requires IsSingle(axis) && FitsInt16(decel, 1.0)
    modifies m
    ensures var block := PositiveBlock(FloatToReg(decel, 1.0));
            var addr := U16(AxisCfg(cfg, axis).decel);
            m.requests == old(m.requests) + WriteAndVerify(cfg, addr, block)
            && m.sent == old(m.sent) + SentLog(old(m.inbox), WriteAndVerifyFrames(cfg, addr, block))
            && m.inbox == InboxAfter(old(m.inbox), WriteAndVerifyFrames(cfg, addr, block))
  {
    var a := GetAxisCfg(cfg, axis).value;
    WriteVerified(m, cfg, U16(a.decel), [FloatToReg(decel, 1.0), 0]);
  }

  /** `Set_HomeOffset`: `[val, 0]` scaled by 100 at the axis's HOME_OFFSET, then the read-back. */
  method SetHomeOffset(m: ModbusMaster, cfg: Config, axis: AxisId, offset: real)
    requires IsSingle(axis) && FitsInt16(offset, 100.0)
    modifies m
    ensures var block := PositiveBlock(FloatToReg(offset, 100.0));
            var addr := U16(AxisCfg(cfg, axis).homeOffset);
            m.requests == old(m.requests) + WriteAndVerify(cfg, addr, block)
            && m.sent == old(m.sent) + SentLog(old(m.inbox), WriteAndVerifyFrames(cfg, addr, block))
            && m.inbox == InboxAfter(old(m.inbox), WriteAndVerifyFrames(cfg, addr, block))
  {
    var a := GetAxisCfg(cfg, axis).value;
    WriteVerified(m, cfg, U16(a.homeOffset), [FloatToReg(offset, 100.0), 0]);
  }

  /** The four registers of `Set_MotionParameters`, in order. */
  function MotionBlock(pos: real, vel: real, accel: real, decel: real): (b: seq<Word>)
    requires FitsInt16(pos, 100.0) && FitsInt16(vel, 1.0) && FitsInt16(accel, 1.0) && FitsInt16(decel, 1.0)
    ensures |b| == 4
  {
    [FloatToReg(pos, 100.0), FloatToReg(vel, 1.0), FloatToReg(accel, 1.0), FloatToReg(decel, 1.0)]
  }

  /** The frames of `Set_MotionParameters`: the four-register write and the read-back of its start address. */
  function MotionFrames(cfg: Config, start: Word, block: seq<Word>): seq<seq<Byte>> {
    [Encode(WriteRegisters(Unit(cfg), start, block)), Encode(ReadRegisters(Unit(cfg), ReadHoldingCode, start, 2))]
  }

  /** `MODBUS_WriteMultiple` of a four-register block, sending exactly the frame; the result is ignored. */
  method WriteMotionBlock(m: ModbusMaster, cfg: Config, start: Word, block: seq<Word>)
    requires |block| == 4
    modifies m
    ensures m.requests == old(m.requests) + [WriteMultipleReq(Unit(cfg), start, block)]
    ensures m.sent == old(m.sent) + SentLog(old(m.inbox), [Encode(WriteRegisters(Unit(cfg), start, block))])
    ensures m.inbox == InboxAfter(old(m.inbox), [Encode(WriteRegisters(Unit(cfg), start, block))])
  {
    var _ := m.WriteMultiple(Unit(cfg), start, block);
  }

  /**
   * `Set_MotionParameters` with the corrected `MODBUS_WriteMultiple`: one
   * write of four registers starting at the axis's POSITION, whichever
   * the axis, then the read-back of the start address.
   */
  method SetMotionParameters(m: ModbusMaster, cfg: Config, axis: AxisId, pos: real, vel: real, accel: real, decel: real)
    requires IsSingle(axis)
    requires FitsInt16(pos, 100.0) && FitsInt16(vel, 1.0) && FitsInt16(accel, 1.0) && FitsInt16(decel, 1.0)
    modifies m
    ensures var start := U16(AxisCfg(cfg, axis).position);
            var block := MotionBlock(pos, vel, accel, decel);
            m.requests == old(m.requests) + [WriteMultipleReq(Unit(cfg), start, block), ReadHoldingReq(Unit(cfg), start, 2)]
            && m.sent == old(m.sent) + SentLog(old(m.inbox), MotionFrames(cfg, start, block))
            && m.inbox == InboxAfter(old(m.inbox), MotionFrames(cfg, start, block))
  {
    var a := GetAxisCfg(cfg, axis).value;
    var start := U16(a.position);
    var regData := MotionBlock(pos, vel, accel, decel);
    WriteMotionVerified(m, cfg, start, regData);
  }

  /** The four-register write of `Set_MotionParameters` and the read-back of its start address. */
  method WriteMotionVerified(m: ModbusMaster, cfg: Config, start: Word, block: seq<Word>)
    requires |block| == 4
    modifies m
    ensures m.requests == old(m.requests) + [WriteMultipleReq(Unit(cfg), start, block), ReadHoldingReq(Unit(cfg), start, 2)]
    ensures m.sent == old(m.sent) + SentLog(old(m.inbox), MotionFrames(cfg, start, block))
    ensures m.inbox == InboxAfter(old(m.inbox), MotionFrames(cfg, start, block))
  {
    ghost var s0, i0 := m.sent, m.inbox;
    WriteMotionBlock(m, cfg, start, block);
    ghost var s1, i1 := m.sent, m.inbox;
    var _ := VerifyParameterWrite(m, cfg, start);
    ChainPair(s0, s1, m.sent, i0, i1, m.inbox, Encode(WriteRegisters(Unit(cfg), start, block)),
              Encode(ReadRegisters(Unit(cfg), ReadHoldingCode, start, 2)));
  }

  /** A datagram made of `frame` and two more bytes, as `MODBUS_WriteMultiple` sends it as written. */
  predicate FrameWithTrailer(t: seq<Byte>, frame: seq<Byte>) {
    |t| == |frame| + 2 && t[..|frame|] == frame
  }

  /**
   * `MODBUS_WriteMultiple` as written, of a four-register block: it sends
   * `transmitted`, the frame and two bytes past it, which a receiver that
   * checks the byte count against the length (`Decode`) rejects.
   */
  method WriteMotionBlockAsWritten(m: ModbusMaster, cfg: Config, start: Word, block: seq<Word>)
    returns (ghost transmitted: seq<Byte>)
    requires |block| == 4
    modifies m
    ensures FrameWithTrailer(transmitted, Encode(WriteRegisters(Unit(cfg), start, block)))
    ensures Decode(transmitted).None?
    ensures m.requests == old(m.requests) + [WriteMultipleReq(Unit(cfg), start, block)]
    ensures m.sent == old(m.sent) + SentLog(old(m.inbox), [transmitted])
    ensures m.inbox == InboxAfter(old(m.inbox), [transmitted])
  {
    var res;
    res, transmitted := m.WriteMultipleAsWritten(Unit(cfg), start, block);
    ghost var frame := Encode(WriteRegisters(Unit(cfg), start, block));
    assert transmitted == frame + [transmitted[|frame|], transmitted[|frame| + 1]];
    TrailingBytesRejected(Unit(cfg), start, block, transmitted[|frame|], transmitted[|frame| + 1]);
  }

  /**
   * `Set_MotionParameters` as written: the four-register write goes
   * through `MODBUS_WriteMultiple` as written, which sends the 17-byte
   * frame and two bytes past it; `transmitted` is that 19-byte datagram.
   * The read-back follows as in the corrected one.
   */
  method SetMotionParametersAsWritten(m: ModbusMaster, cfg: Config, axis: AxisId,
                                      pos: real, vel: real, accel: real, decel: real)
    returns (ghost transmitted: seq<Byte>)
    requires IsSingle(axis)
    requires FitsInt16(pos, 100.0) && FitsInt16(vel, 1.0) && FitsInt16(accel, 1.0) && FitsInt16(decel, 1.0)
    modifies m
    ensures var start := U16(AxisCfg(cfg, axis).position);
            var block := MotionBlock(pos, vel, accel, decel);
            var read := Encode(ReadRegisters(Unit(cfg), ReadHoldingCode, start, 2));
            FrameWithTrailer(transmitted, Encode(WriteRegisters(Unit(cfg), start, block)))
            && |transmitted| == 19 && Decode(transmitted).None?
            && m.requests == old(m.requests) + [WriteMultipleReq(Unit(cfg), start, block), ReadHoldingReq(Unit(cfg), start, 2)]
            && m.sent == old(m.sent) + SentLog(old(m.inbox), [transmitted, read])
            && m.inbox == InboxAfter(old(m.inbox), [transmitted, read])
  {
    var a := GetAxisCfg(cfg, axis).value;
    var start := U16(a.position);
    var regData := MotionBlock(pos, vel, accel, decel);
    ghost var s0, i0 := m.sent, m.inbox;
    transmitted := WriteMotionBlockAsWritten(m, cfg, start, regData);
    ghost var s1, i1 := m.sent, m.inbox;
    var _ := VerifyParameterWrite(m, cfg, start);
    ChainPair(s0, s1, m.sent, i0, i1, m.inbox, transmitted, Encode(ReadRegisters(Unit(cfg), ReadHoldingCode, start, 2)));
  }

  /**
   * `Check_SoftwareLimit` (and `Check_SoftwareLimit_MM` with the millimetre
   * limits): both axis branches refuse a target below the minimum or above
   * the maximum. No setter calls it.
   */
  function CheckSoftwareLimit(cfg: Config, axis: AxisId, targetDeg: real): (ok: bool)
    requires IsSingle(axis)
    ensures ok <==> AxisCfg(cfg, axis).limitMinDeg <= targetDeg <= AxisCfg(cfg, axis).limitMaxDeg
  {
    var a := GetAxisCfg(cfg, axis).value;
    if axis == Pan then
      if targetDeg < a.limitMinDeg then false
      else if targetDeg > a.limitMaxDeg then false
      else true
    else
      if targetDeg < a.limitMinDeg then false
      else if targetDeg > a.limitMaxDeg then false
      else true
  }
}
