/**
 * `drive_command.c`: motion and state commands, each a single register
 * write (function 0x06) of the axis code to a configured command register,
 * and the solenoid outputs toggled per axis.
 */
module DriveCommand {
  import opened Bytes
  import opened Config
  import opened Axis
  import opened Modbus
  import opened Wrappers

  /** The value `WriteCommand` writes: the axis code for TILT, PAN and BOTH, 0 for anything else. */
  function CommandValue(axis: AxisId): (v: Word)
    ensures Tilt <= axis <= Both ==> Value(v) == axis
    ensures !(Tilt <= axis <= Both) ==> v == 0
  {
    if axis == Tilt then 1 else if axis == Pan then 2 else if axis == Both then 3 else 0
  }

  /** The `CMD_*` functions that write a command register. */
  datatype Command =
    | Enable | Disable | Reset | Halt | EStop
    | PositionMove | PositionMoveDeg | HomeMove | VelocityFwd | VelocityRev

  /** The command register each `CMD_*` function writes. */
  function Register(regs: CommandRegs, c: Command): int {
    match c
    case Enable => regs.enable
    case Disable => regs.disable
    case Reset => regs.reset
    case Halt => regs.halt
    case EStop => regs.emgStop
    case PositionMove => regs.posMove
    case PositionMoveDeg => regs.posMoveDeg
    case HomeMove => regs.homeMoveDeg
    case VelocityFwd => regs.velFwd
    case VelocityRev => regs.velRev
  }

  /** The request `CMD_X(axis)` issues: unit `UNIT_ID`, register and value truncated to their C types. */
  function CommandRequest(cfg: Config, c: Command, axis: AxisId): Request {
    WriteSingleReq(U8(cfg.modbus.unitId), U16(Register(cfg.cmdRegs, c)), CommandValue(axis))
  }

  /**
   * The frame of a command decodes to a write of the axis code into the
   * command's register: register address in bytes 2-3, value in bytes 4-5.
   */
  lemma CommandFrame(cfg: Config, c: Command, axis: AxisId)
    ensures var f := Encode(WriteRegister(U8(cfg.modbus.unitId), U16(Register(cfg.cmdRegs, c)), CommandValue(axis)));
            Decode(f) == Some(WriteRegister(U8(cfg.modbus.unitId), U16(Register(cfg.cmdRegs, c)), CommandValue(axis)))
            && |f| == 8 && f[1] == WriteSingleCode
            && Value(Join(f[2], f[3])) == Register(cfg.cmdRegs, c) % 0x1_0000
            && Value(Join(f[4], f[5])) == (if Tilt <= axis <= Both then axis else 0)
  {
    var reg := U16(Register(cfg.cmdRegs, c));
    var v := CommandValue(axis);
    DecodeEncode(WriteRegister(U8(cfg.modbus.unitId), reg, v));
    JoinSplit(reg);
    JoinSplit(v);
    ValueU16(Register(cfg.cmdRegs, c));
  }

  /**
   * `WriteCommand` as each `CMD_*` function calls it: exactly one
   * `MODBUS_WriteSingle`, whose result is ignored.
   */
  method IssueCommand(m: ModbusMaster, cfg: Config, c: Command, axis: AxisId)
    modifies m
    ensures m.requests == old(m.requests) + [CommandRequest(cfg, c, axis)]
    ensures var n := Attempts(old(m.inbox), RxMax);
            m.sent == old(m.sent) + Copies(Encode(WriteRegister(U8(cfg.modbus.unitId), U16(Register(cfg.cmdRegs, c)), CommandValue(axis))), n)
            && m.inbox == Consumed(old(m.inbox), n)
  {
    var value: Word;
    if axis == 1 {
      value := 1;
    } else if axis == 2 {
      value := 2;
    } else if axis == 3 {
      value := 3;
    } else {
      value := 0;
    }
    var _ := m.WriteSingle(U8(cfg.modbus.unitId), U16(Register(cfg.cmdRegs, c)), value);
  }

  /** `SOL_OUT_3` and `SOL_OUT_4`. */
  const SolOut3: Word := 0x08
  const SolOut4: Word := 0x10

  /** The word written to the solenoid register: PAN drives outputs 3 and 4, any other axis output 4, shifted into the high byte. */
  function SolenoidValue(axis: AxisId, on: bool): (v: Word)
    ensures !on <==> v == 0
    ensures Lo(v) == 0
    ensures on && axis == Pan ==> Hi(v) == (SolOut3 | SolOut4) as Byte
    ensures on && axis != Pan ==> Hi(v) == SolOut4 as Byte
  {
    if !on then 0
    else if axis == Pan then (SolOut3 | SolOut4) << 8
    else SolOut4 << 8
  }

  /** The two solenoid states, `sol_state_pan` and `sol_state_tilt`. */
  datatype Solenoids = Solenoids(pan: bool, tilt: bool)

  /** The states after one `CMD_Solenoid(axis)`: PAN flips the PAN state, every other axis, BOTH included, the TILT state. */
  function Toggled(s: Solenoids, axis: AxisId): Solenoids {
    if axis == Pan then s.(pan := !s.pan) else s.(tilt := !s.tilt)
  }

  /** A toggle changes exactly one state, and toggling the same axis twice restores both. */
  lemma ToggleProperties(s: Solenoids, axis: AxisId)
    ensures axis == Pan ==> Toggled(s, axis).tilt == s.tilt && Toggled(s, axis).pan != s.pan
    ensures axis != Pan ==> Toggled(s, axis).pan == s.pan && Toggled(s, axis).tilt != s.tilt
    ensures Toggled(Toggled(s, axis), axis) == s
  {}

  /** `CMD_Solenoid`'s persistent state. Both outputs start off. */
  class SolenoidControl {
    var pan: bool
    var tilt: bool

    constructor ()
      ensures !pan && !tilt
    {
      pan := false;
      tilt := false;
    }

    function State(): Solenoids
      reads this
    {
      Solenoids(pan, tilt)
    }

    /**
     * `CMD_Solenoid`: flips the axis's state and writes the outputs of the
     * new state to `CMD_SOLENOID`, whatever the axis (`GetSolenoidReg`).
     */
    method Toggle(m: ModbusMaster, cfg: Config, axis: AxisId) returns (value: Word)
      modifies this, m
      ensures State() == Toggled(old(State()), axis)
      ensures value == SolenoidValue(axis, if axis == Pan then pan else tilt)
      ensures m.requests == old(m.requests) + [WriteSingleReq(U8(cfg.modbus.unitId), U16(cfg.cmdRegs.solenoid), value)]
      ensures var n := Attempts(old(m.inbox), RxMax);
              m.sent == old(m.sent) + Copies(Encode(WriteRegister(U8(cfg.modbus.unitId), U16(cfg.cmdRegs.solenoid), value)), n)
              && m.inbox == Consumed(old(m.inbox), n)
    {
      value := 0;
      if axis == Pan {
        pan := !pan;
        if pan {
          value := (SolOut3 | SolOut4) << 8;
        } else {
          value := 0;
        }
      } else {
        tilt := !tilt;
        if tilt {
          value := SolOut4 << 8;
        } else {
          value := 0;
        }
      }
      var _ := m.WriteSingle(U8(cfg.modbus.unitId), U16(cfg.cmdRegs.solenoid), value);
    }
  }

  /** The written words themselves: 0x1800 for PAN, 0x1000 otherwise, 0 when switched off. */
  lemma SolenoidWords(axis: AxisId)
    ensures SolenoidValue(Pan, true) == 0x1800
    ensures axis != Pan ==> SolenoidValue(axis, true) == 0x1000
    ensures SolenoidValue(axis, false) == 0
  {}
}
