/**
 * `ini.c`: the defaults of the seven configuration records and the INI
 * loader that overrides them, one `fgets` line at a time, from
 * `[SECTION]` headers and `KEY = VALUE` lines.
 *
 * The file is given as its text, `None` when it cannot be opened. `atof`
 * is a parameter: decimal-to-float conversion is not modelled.
 */
module Ini {
  import opened Wrappers
  import opened CStrings
  import opened IniText
  import opened Config
  import CommandParser
  import Axis

  /** The records as `init_defaults` leaves them. `MQTT_CLIENT_ID` and `CMD_DISABLE` keep the zero of the `memset`. */
  function Defaults(): Config {
    Config(
      NetworkConfig(
        "169.254.214.170", 53011, "169.254.214.171", 53010,
        "239.10.10.10", 6000, "169.254.214.171", 6001,
        "169.254.214.100", 1883, "", "server/heartbeat", "server/telemetry"),
      ModbusConfig(1, 3, 4, 6, 16, 260, 1),
      AxisConfig(
        "PAN", 1, 282, 284, 286, 288, 310, 314,
        350, 352, 354, 414, 412, 416, 418, 420, 422, 424, 426, 424,
        -155.0, 155.0, -100.0, 100.0),
      AxisConfig(
        "TILT", 2, 782, 784, 786, 788, 810, 814,
        850, 852, 854, 914, 912, 916, 918, 920, 422, 924, 926, 924,
        -20.0, 70.0, -50.0, 50.0),
      CommandRegs(439, 445, 446, 0, 448, 449, 451, 452, 453, 454, 455),
      FaultBits(1, 2, 4, 8, 16, 32, 64, 128, 256, 512, 1024, 2048, 16384, 32768),
      MotorConfig(3000, 5.0, 1.5, 5.0, 10.0, 10.0))
  }

  /** The records before any load: static storage is zero. */
  function ZeroConfig(): Config {
    var axis := AxisConfig("", 0, 0, 0, 0, 0, 0, 0, 0, 0, 0, 0, 0, 0, 0, 0, 0, 0, 0, 0, 0.0, 0.0, 0.0, 0.0);
    Config(
      NetworkConfig("", 0, "", 0, "", 0, "", 0, "", 0, "", "", ""),
      ModbusConfig(0, 0, 0, 0, 0, 0, 0),
      axis, axis,
      CommandRegs(0, 0, 0, 0, 0, 0, 0, 0, 0, 0, 0),
      FaultBits(0, 0, 0, 0, 0, 0, 0, 0, 0, 0, 0, 0, 0, 0),
      MotorConfig(0, 0.0, 0.0, 0.0, 0.0, 0.0))
  }

  /** The default quirks: both axes read their I/O status from register 422, the fault word shares the system-status register, and `CMD_DISABLE` is 0. */
  lemma DefaultQuirks()
    ensures Defaults().axis1.ioStatus == Defaults().axis2.ioStatus == 422
    ensures Defaults().axis1.faultStatus == Defaults().axis1.systemStatus
    ensures Defaults().axis2.faultStatus == Defaults().axis2.systemStatus
    ensures Defaults().cmdRegs.disable == 0 && Defaults().net.mqttClientId == ""
    ensures Defaults().axis1.name == "PAN" && Defaults().axis2.name == "TILT"
  {}

  /**
   * With the defaults, TILT (1) selects the record named `PAN`, whose
   * `AXIS_ID` is 1 and whose soft limits are ±155 degrees, and PAN (2) the
   * record named `TILT`: the records follow the numbers, not the names.
   */
  lemma DefaultTiltRecordNamedPan()
    ensures Axis.AxisCfg(Defaults(), Axis.Tilt).name == "PAN"
    ensures Axis.AxisCfg(Defaults(), Axis.Tilt).axisId == Axis.Tilt
    ensures Axis.AxisCfg(Defaults(), Axis.Tilt).limitMaxDeg == 155.0
    ensures Axis.AxisCfg(Defaults(), Axis.Pan).name == "TILT"
  {
    Axis.AxisSelection(Defaults());
  }

  // ---------------------------------------------------------------------
  // atoi

  predicate IsDigit(c: char) { '0' <= c <= '9' }

  function DigitValue(c: char): nat
    requires IsDigit(c)
  {
    c as int - '0' as int
  }

  /** The run of decimal digits `s` starts with. */
  function LeadingDigits(s: string): (d: string)
    ensures |d| <= |s| && d == s[..|d|]
    ensures forall i :: 0 <= i < |d| ==> IsDigit(d[i])
    ensures |d| < |s| ==> !IsDigit(s[|d|])
  {
    if s != [] && IsDigit(s[0]) then [s[0]] + LeadingDigits(s[1..]) else []
  }

  /** The number a digit string denotes, accumulated left to right. */
  function DigitsValue(d: string): nat
    requires forall i :: 0 <= i < |d| ==> IsDigit(d[i])
  {
    if d == [] then 0 else DigitsValue(d[..|d| - 1]) * 10 + DigitValue(d[|d| - 1])
  }

  /** The value of an optional sign followed by digits, read up to the first non-digit. */
  function SignedValue(t: string): int {
    var signed := t != [] && (t[0] == '-' || t[0] == '+');
    var m: int := DigitsValue(LeadingDigits(if signed then t[1..] else t));
    if signed && t[0] == '-' then -m else m
  }

  /** Clamping to the range of `int`. */
  function Saturate(x: int): (v: int)
    ensures CommandParser.IntMin <= v <= CommandParser.IntMax
    ensures CommandParser.IntMin <= x <= CommandParser.IntMax ==> v == x
    ensures x > CommandParser.IntMax ==> v == CommandParser.IntMax
    ensures x < CommandParser.IntMin ==> v == CommandParser.IntMin
  {
    if x > CommandParser.IntMax then CommandParser.IntMax
    else if x < CommandParser.IntMin then CommandParser.IntMin
    else x
  }

  /**
   * `atoi` of the Microsoft C runtime: leading whitespace, an optional
   * sign, then digits up to the first non-digit; a value outside `int`
   * saturates to `INT_MAX` or `INT_MIN`.
   */
  function Atoi(s: string): (v: int)
    ensures CommandParser.IntMin <= v <= CommandParser.IntMax
  {
    Saturate(SignedValue(TrimLeft(s)))
  }

  function DigitChar(d: nat): (c: char)
    requires d < 10
    ensures IsDigit(c) && DigitValue(c) == d
  {
    ('0' as int + d) as char
  }

  /** The decimal form of a natural number. */
  function ShowNat(n: nat): (s: string)
    ensures s != [] && forall i :: 0 <= i < |s| ==> IsDigit(s[i])
  {
    if n < 10 then [DigitChar(n)] else ShowNat(n / 10) + [DigitChar(n % 10)]
  }

  /** The decimal form of an integer, with `-` when negative. */
  function ShowInt(n: int): string {
    if n < 0 then "-" + ShowNat(-n) else ShowNat(n)
  }

  lemma {:induction false} DigitsValueShow(n: nat)
    ensures DigitsValue(ShowNat(n)) == n
  {
    if n >= 10 {
      var s := ShowNat(n);
      assert s[..|s| - 1] == ShowNat(n / 10);
      DigitsValueShow(n / 10);
    }
  }

  lemma {:induction false} LeadingDigitsOf(d: string, rest: string)
    requires forall i :: 0 <= i < |d| ==> IsDigit(d[i])
    requires rest == [] || !IsDigit(rest[0])
    ensures LeadingDigits(d + rest) == d
  {
    if d != [] {
      assert (d + rest)[1..] == d[1..] + rest;
      LeadingDigitsOf(d[1..], rest);
    }
  }

  /**
   * `atoi` reads back every `int` written in decimal, whatever non-digit
   * text follows it: the configured numbers are the ones in the file.
   */
  lemma AtoiShowInt(n: int, rest: string)
    requires CommandParser.IntMin <= n <= CommandParser.IntMax
    requires rest == [] || !IsDigit(rest[0])
    ensures Atoi(ShowInt(n) + rest) == n
  {
    var s := ShowInt(n) + rest;
    assert TrimLeft(s) == s by {
      assert s[0] == ShowInt(n)[0];
    }
    SignedValueShow(n, rest);
  }

  lemma SignedValueShow(n: int, rest: string)
    requires rest == [] || !IsDigit(rest[0])
    ensures SignedValue(ShowInt(n) + rest) == n
  {
    if n < 0 {
      var d := ShowNat(-n);
      assert ShowInt(n) + rest == ['-'] + (d + rest);
      DigitsValueShow(-n);
      SignedDigits(d, rest, true);
    } else {
      var d := ShowNat(n);
      assert ShowInt(n) + rest == d + rest;
      DigitsValueShow(n);
      SignedDigits(d, rest, false);
    }
  }

  /** The value of digits with an optional minus sign, followed by a non-digit. */
  lemma SignedDigits(d: string, rest: string, minus: bool)
    requires d != [] && forall i :: 0 <= i < |d| ==> IsDigit(d[i])
    requires rest == [] || !IsDigit(rest[0])
    ensures minus ==> SignedValue(['-'] + (d + rest)) == -(DigitsValue(d) as int)
    ensures !minus ==> SignedValue(d + rest) == DigitsValue(d)
  {
    LeadingDigitsOf(d, rest);
    if minus {
      assert (['-'] + (d + rest))[1..] == d + rest;
    } else {
      assert IsDigit((d + rest)[0]);
    }
  }

  /** A value that does not start with a digit or sign reads as 0. */
  lemma AtoiNonNumeric(s: string)
    requires s != [] && !IsSpace(s[0]) && !IsDigit(s[0]) && s[0] != '-' && s[0] != '+'
    ensures Atoi(s) == 0
  {}

  // ---------------------------------------------------------------------
  // The key table of `ini_load`

  /** `assign_str` into a `char[64]`. */
  function Str63(v: string): string { Prefix(v, 63) }

  function AssignNetwork(n: NetworkConfig, key: string, v: string): NetworkConfig {
    if key == "DRIVE_IP_ADDR" then n.(driveIpAddr := Str63(v))
    else if key == "DRIVE_PORT_UDP" then n.(drivePortUdp := Atoi(v))
    else if key == "LOCAL_BIND_IP" then n.(localBindIp := Str63(v))
    else if key == "LOCAL_BIND_PORT" then n.(localBindPort := Atoi(v))
    else if key == "JSON_WCS_IP" then n.(jsonWcsIp := Str63(v))
    else if key == "JSON_WCS_PORT" then n.(jsonWcsPort := Atoi(v))
    else if key == "JSON_LCU_IP" then n.(jsonLcuIp := Str63(v))
    else if key == "JSON_LCU_PORT" then n.(jsonLcuPort := Atoi(v))
    else n
  }

  function AssignMqtt(n: NetworkConfig, key: string, v: string): NetworkConfig {
    if key == "MQTT_BROKER_IP" then n.(mqttBrokerIp := Str63(v))
    else if key == "MQTT_BROKER_PORT" then n.(mqttBrokerPort := Atoi(v))
    else if key == "MQTT_TOPIC_HEARTBEAT" then n.(mqttTopicHeartbeat := Str63(v))
    else if key == "MQTT_TOPIC_TELEMETRY" then n.(mqttTopicTelemetry := Str63(v))
    else if key == "MQTT_CLIENT_ID" then n.(mqttClientId := Str63(v))
    else n
  }

  function AssignModbus(m: ModbusConfig, key: string, v: string): ModbusConfig {
    if key == "UNIT_ID" then m.(unitId := Atoi(v))
    else if key == "FUNC_READ_HOLDING" then m.(funcReadHolding := Atoi(v))
    else if key == "FUNC_READ_INPUT" then m.(funcReadInput := Atoi(v))
    else if key == "FUNC_WRITE_SINGLE" then m.(funcWriteSingle := Atoi(v))
    else if key == "FUNC_WRITE_MULTIPLE" then m.(funcWriteMultiple := Atoi(v))
    else if key == "MAX_RESPONSE_BYTES" then m.(maxResponseBytes := Atoi(v))
    else if key == "TIMEOUT_SEC" then m.(timeoutSec := Atoi(v))
    else m
  }

  /**
   * The keys of `[AXIS1]` (`second` false) and `[AXIS2]` (`second` true).
   * Only the first accepts `ABS_POSITION`; the first names the bus
   * voltage `DCBUS_VOLT_CMD`, the second `DCBUS_VOLT`.
   */
  function AssignAxis(a: AxisConfig, key: string, v: string, atof: string -> real, second: bool): AxisConfig {
    if key == "NAME" then a.(name := Prefix(v, 31))
    else if key == "AXIS_ID" then a.(axisId := Atoi(v))
    else if key == "POSITION" then a.(position := Atoi(v))
    else if key == "VELOCITY" then a.(velocity := Atoi(v))
    else if key == "ACCEL" then a.(accel := Atoi(v))
    else if key == "DECEL" then a.(decel := Atoi(v))
    else if key == "HOME_OFFSET" then a.(homeOffset := Atoi(v))
    else if key == "DEG_POS" then a.(degPos := Atoi(v))
    else if key == "VERSION" then a.(version := Atoi(v))
    else if key == "REVISION" then a.(revision := Atoi(v))
    else if key == "RELEASE_DATE" then a.(releaseDate := Atoi(v))
    else if key == "ABS_POSITION" && !second then a.(absPosition := Atoi(v))
    else if key == "POS_DEG" then a.(posDeg := Atoi(v))
    else if key == "POS_MM" then a.(posMm := Atoi(v))
    else if key == "RPM" then a.(rpm := Atoi(v))
    else if key == "ACTUAL_CURRENT" then a.(actualCurrent := Atoi(v))
    else if key == "IO_STATUS" then a.(ioStatus := Atoi(v))
    else if key == "SYSTEM_STATUS" then a.(systemStatus := Atoi(v))
    else if key == (if second then "DCBUS_VOLT" else "DCBUS_VOLT_CMD") then a.(dcbusVoltCmd := Atoi(v))
    else if key == "FAULT_STATUS" then a.(faultStatus := Atoi(v))
    else if key == "LIMIT_MIN_DEG" then a.(limitMinDeg := atof(v))
    else if key == "LIMIT_MAX_DEG" then a.(limitMaxDeg := atof(v))
    else if key == "LIMIT_MIN_MM" then a.(limitMinMm := atof(v))
    else if key == "LIMIT_MAX_MM" then a.(limitMaxMm := atof(v))
    else a
  }

  function AssignCommandRegs(r: CommandRegs, key: string, v: string): CommandRegs {
    if key == "CMD_SOLENOID" then r.(solenoid := Atoi(v))
    else if key == "CMD_HALT" then r.(halt := Atoi(v))
    else if key == "CMD_EMG_STOP" then r.(emgStop := Atoi(v))
    else if key == "CMD_ENABLE" then r.(enable := Atoi(v))
    else if key == "CMD_DISABLE" then r.(disable := Atoi(v))
    else if key == "CMD_RESET" then r.(reset := Atoi(v))
    else if key == "CMD_POS_MOVE" then r.(posMove := Atoi(v))
    else if key == "CMD_HOME_MOVE_DEG" then r.(homeMoveDeg := Atoi(v))
    else if key == "CMD_VEL_FWD" then r.(velFwd := Atoi(v))
    else if key == "CMD_VEL_REV" then r.(velRev := Atoi(v))
    else if key == "CMD_POS_MOVE_DEG" then r.(posMoveDeg := Atoi(v))
    else r
  }

  function AssignFaultBits(f: FaultBits, key: string, v: string): FaultBits {
    if key == "SHORT_CKT" then f.(shortCkt := Atoi(v))
    else if key == "SYSTEM_HEALTHY" then f.(systemHealthy := Atoi(v))
    else if key == "RATED_CURRENT_FAULT" then f.(ratedCurrentFault := Atoi(v))
    else if key == "OVER_TEMP" then f.(overTemp := Atoi(v))
    else if key == "OVER_VOLT" then f.(overVolt := Atoi(v))
    else if key == "UNDER_VOLT" then f.(underVolt := Atoi(v))
    else if key == "MOTION_ERROR" then f.(motionError := Atoi(v))
    else if key == "DRIVE_DISABLE" then f.(driveDisable := Atoi(v))
    else if key == "EEPROM_ERROR" then f.(eepromError := Atoi(v))
    else if key == "COMMUTATION_ERROR" then f.(commutationError := Atoi(v))
    else if key == "LOCK_ROTOR" then f.(lockRotor := Atoi(v))
    else if key == "EMERGENCY_ERROR" then f.(emergencyError := Atoi(v))
    else if key == "COMMAND_ERROR" then f.(commandError := Atoi(v))
    else if key == "MOTION_COMPLETE" then f.(motionComplete := Atoi(v))
    else f
  }

  function AssignMotor(m: MotorConfig, key: string, v: string, atof: string -> real): MotorConfig {
    if key == "MAX_RPM" then m.(maxRpm := Atoi(v))
    else if key == "DPMR_MM" then m.(dpmrMm := atof(v))
    else if key == "ACCEL_FACTOR" then m.(accelFactor := atof(v))
    else if key == "RATED_CURRENT" then m.(ratedCurrent := atof(v))
    else if key == "PEAK_CURRENT" then m.(peakCurrent := atof(v))
    else if key == "CURRENT_SHUTDOWN_LIMIT" then m.(currentShutdownLimit := atof(v))
    else m
  }

  /** The sections the key table knows, spelled exactly. */
  const Sections: seq<string> := ["NETWORK", "MQTT", "MODBUS", "AXIS1", "AXIS2", "COMMAND_REGISTERS", "FAULT_BITS", "MOTOR"]

  /** The `match`/`assign_*` chain: the field named by (section, key), compared case-sensitively, takes the value. */
  function Assign(c: Config, section: string, key: string, v: string, atof: string -> real): Config {
    if section == "NETWORK" then c.(net := AssignNetwork(c.net, key, v))
    else if section == "MQTT" then c.(net := AssignMqtt(c.net, key, v))
    else if section == "MODBUS" then c.(modbus := AssignModbus(c.modbus, key, v))
    else if section == "AXIS1" then c.(axis1 := AssignAxis(c.axis1, key, v, atof, false))
    else if section == "AXIS2" then c.(axis2 := AssignAxis(c.axis2, key, v, atof, true))
    else if section == "COMMAND_REGISTERS" then c.(cmdRegs := AssignCommandRegs(c.cmdRegs, key, v))
    else if section == "FAULT_BITS" then c.(faults := AssignFaultBits(c.faults, key, v))
    else if section == "MOTOR" then c.(motor := AssignMotor(c.motor, key, v, atof))
    else c
  }

  /** Pairs outside the table change nothing: an unknown section, or a known one in another case. */
  lemma UnknownSectionIgnored(c: Config, section: string, key: string, v: string, atof: string -> real)
    requires section !in Sections
    ensures Assign(c, section, key, v, atof) == c
    ensures Assign(c, "network", key, v, atof) == c
  {}

  /** The keys each known section reads, spelled exactly. */
  function Keys(section: string): set<string> {
    if section == "NETWORK" then NetworkKeys
    else if section == "MQTT" then MqttKeys
    else if section == "MODBUS" then ModbusKeys
    else if section == "AXIS1" then AxisKeys(false)
    else if section == "AXIS2" then AxisKeys(true)
    else if section == "COMMAND_REGISTERS" then CommandRegKeys
    else if section == "FAULT_BITS" then FaultBitKeys
    else if section == "MOTOR" then MotorKeys
    else {}
  }

  const NetworkKeys: set<string> := {"DRIVE_IP_ADDR", "DRIVE_PORT_UDP", "LOCAL_BIND_IP", "LOCAL_BIND_PORT",
                                     "JSON_WCS_IP", "JSON_WCS_PORT", "JSON_LCU_IP", "JSON_LCU_PORT"}
  const MqttKeys: set<string> := {"MQTT_BROKER_IP", "MQTT_BROKER_PORT", "MQTT_TOPIC_HEARTBEAT",
                                  "MQTT_TOPIC_TELEMETRY", "MQTT_CLIENT_ID"}
  const ModbusKeys: set<string> := {"UNIT_ID", "FUNC_READ_HOLDING", "FUNC_READ_INPUT", "FUNC_WRITE_SINGLE",
                                    "FUNC_WRITE_MULTIPLE", "MAX_RESPONSE_BYTES", "TIMEOUT_SEC"}
  const CommandRegKeys: set<string> := {"CMD_SOLENOID", "CMD_HALT", "CMD_EMG_STOP", "CMD_ENABLE", "CMD_DISABLE",
                                        "CMD_RESET", "CMD_POS_MOVE", "CMD_HOME_MOVE_DEG", "CMD_VEL_FWD",
                                        "CMD_VEL_REV", "CMD_POS_MOVE_DEG"}
  const FaultBitKeys: set<string> := {"SHORT_CKT", "SYSTEM_HEALTHY", "RATED_CURRENT_FAULT", "OVER_TEMP", "OVER_VOLT",
                                      "UNDER_VOLT", "MOTION_ERROR", "DRIVE_DISABLE", "EEPROM_ERROR",
                                      "COMMUTATION_ERROR", "LOCK_ROTOR", "EMERGENCY_ERROR", "COMMAND_ERROR",
                                      "MOTION_COMPLETE"}
  const MotorKeys: set<string> := {"MAX_RPM", "DPMR_MM", "ACCEL_FACTOR", "RATED_CURRENT", "PEAK_CURRENT",
                                   "CURRENT_SHUTDOWN_LIMIT"}

  /** The axis keys: `ABS_POSITION` only in the first axis section, and each axis's own bus-voltage spelling. */
  function AxisKeys(second: bool): set<string> {
    {"NAME", "AXIS_ID", "POSITION", "VELOCITY", "ACCEL", "DECEL", "HOME_OFFSET", "DEG_POS", "VERSION",
     "REVISION", "RELEASE_DATE", "POS_DEG", "POS_MM", "RPM", "ACTUAL_CURRENT", "IO_STATUS", "SYSTEM_STATUS",
     "FAULT_STATUS", "LIMIT_MIN_DEG", "LIMIT_MAX_DEG", "LIMIT_MIN_MM", "LIMIT_MAX_MM"}
    + (if second then {"DCBUS_VOLT"} else {"ABS_POSITION", "DCBUS_VOLT_CMD"})
  }

  /**
   * Matching is exact and case-sensitive on both section and key: a key
   * its section does not read (including a known key in another case)
   * leaves the configuration unchanged.
   */
  lemma UnknownKeyIgnored(c: Config, section: string, key: string, v: string, atof: string -> real)
    requires key !in Keys(section)
    ensures Assign(c, section, key, v, atof) == c
  {
    if section == "NETWORK" {
      assert AssignNetwork(c.net, key, v) == c.net;
    } else if section == "MQTT" {
      assert AssignMqtt(c.net, key, v) == c.net;
    } else if section == "MODBUS" {
      assert AssignModbus(c.modbus, key, v) == c.modbus;
    } else if section == "AXIS1" {
      AxisUnknownKey(c.axis1, key, v, atof, false);
    } else if section == "AXIS2" {
      AxisUnknownKey(c.axis2, key, v, atof, true);
    } else if section == "COMMAND_REGISTERS" {
      assert AssignCommandRegs(c.cmdRegs, key, v) == c.cmdRegs;
    } else if section == "FAULT_BITS" {
      assert AssignFaultBits(c.faults, key, v) == c.faults;
    } else if section == "MOTOR" {
      assert AssignMotor(c.motor, key, v, atof) == c.motor;
    }
  }

  lemma AxisUnknownKey(a: AxisConfig, key: string, v: string, atof: string -> real, second: bool)
    requires key !in AxisKeys(second)
    ensures AssignAxis(a, key, v, atof, second) == a
  {}

  /** Keys are case-sensitive: the lower-case spelling of a network key is ignored. */
  lemma LowerCaseKeyIgnored(c: Config, v: string, atof: string -> real)
    ensures Assign(c, "NETWORK", "drive_ip_addr", v, atof) == c
  {
    assert "drive_ip_addr"[0] == 'd';
    UnknownKeyIgnored(c, "NETWORK", "drive_ip_addr", v, atof);
  }

  /** Likewise for an axis key: `position` in `[AXIS1]` is not `POSITION`. */
  lemma LowerCaseAxisKeyIgnored(c: Config, v: string, atof: string -> real)
    ensures Assign(c, "AXIS1", "position", v, atof) == c
  {
    assert "position"[0] == 'p';
    UnknownKeyIgnored(c, "AXIS1", "position", v, atof);
  }

  /** A later line for the same key overwrites an earlier one. */
  lemma LastWriteWins(c: Config, section: string, key: string, v1: string, v2: string, atof: string -> real)
    ensures Assign(Assign(c, section, key, v1, atof), section, key, v2, atof) == Assign(c, section, key, v2, atof)
  {
    if section == "NETWORK" {
      NetworkLastWriteWins(c.net, key, v1, v2);
    } else if section == "MQTT" {
      MqttLastWriteWins(c.net, key, v1, v2);
    } else if section == "MODBUS" {
      ModbusLastWriteWins(c.modbus, key, v1, v2);
    } else if section == "AXIS1" {
      AxisLastWriteWins(c.axis1, key, v1, v2, atof, false);
    } else if section == "AXIS2" {
      AxisLastWriteWins(c.axis2, key, v1, v2, atof, true);
    } else if section == "COMMAND_REGISTERS" {
      CommandRegsLastWriteWins(c.cmdRegs, key, v1, v2);
    } else if section == "FAULT_BITS" {
      FaultBitsLastWriteWins(c.faults, key, v1, v2);
    } else if section == "MOTOR" {
      MotorLastWriteWins(c.motor, key, v1, v2, atof);
    }
  }

  lemma NetworkLastWriteWins(n: NetworkConfig, key: string, v1: string, v2: string)
    ensures AssignNetwork(AssignNetwork(n, key, v1), key, v2) == AssignNetwork(n, key, v2)
  {}

  lemma MqttLastWriteWins(n: NetworkConfig, key: string, v1: string, v2: string)
    ensures AssignMqtt(AssignMqtt(n, key, v1), key, v2) == AssignMqtt(n, key, v2)
  {}

  lemma ModbusLastWriteWins(m: ModbusConfig, key: string, v1: string, v2: string)
    ensures AssignModbus(AssignModbus(m, key, v1), key, v2) == AssignModbus(m, key, v2)
  {}

  lemma AxisLastWriteWins(a: AxisConfig, key: string, v1: string, v2: string, atof: string -> real, second: bool)
    ensures AssignAxis(AssignAxis(a, key, v1, atof, second), key, v2, atof, second) == AssignAxis(a, key, v2, atof, second)
  {
    if key == "NAME" {
    } else if key == "AXIS_ID" {
    } else if key == "POSITION" {
    } else if key == "VELOCITY" {
    } else if key == "ACCEL" {
    } else if key == "DECEL" {
    } else if key == "HOME_OFFSET" {
    } else if key == "DEG_POS" {
    } else if key == "VERSION" {
    } else if key == "REVISION" {
    } else if key == "RELEASE_DATE" {
    } else if key == "ABS_POSITION" {
    } else if key == "POS_DEG" {
    } else if key == "POS_MM" {
    } else if key == "RPM" {
    } else if key == "ACTUAL_CURRENT" {
    } else if key == "IO_STATUS" {
    } else if key == "SYSTEM_STATUS" {
    } else if key == "DCBUS_VOLT" {
    } else if key == "DCBUS_VOLT_CMD" {
    } else if key == "FAULT_STATUS" {
    } else if key == "LIMIT_MIN_DEG" {
    } else if key == "LIMIT_MAX_DEG" {
    } else if key == "LIMIT_MIN_MM" {
    } else if key == "LIMIT_MAX_MM" {
    }
  }

  lemma CommandRegsLastWriteWins(r: CommandRegs, key: string, v1: string, v2: string)
    ensures AssignCommandRegs(AssignCommandRegs(r, key, v1), key, v2) == AssignCommandRegs(r, key, v2)
  {}

  lemma FaultBitsLastWriteWins(f: FaultBits, key: string, v1: string, v2: string)
    ensures AssignFaultBits(AssignFaultBits(f, key, v1), key, v2) == AssignFaultBits(f, key, v2)
  {
    if key == "SHORT_CKT" {
    } else if key == "SYSTEM_HEALTHY" {
    } else if key == "RATED_CURRENT_FAULT" {
    } else if key == "OVER_TEMP" {
    } else if key == "OVER_VOLT" {
    } else if key == "UNDER_VOLT" {
    } else if key == "MOTION_ERROR" {
    } else if key == "DRIVE_DISABLE" {
    } else if key == "EEPROM_ERROR" {
    } else if key == "COMMUTATION_ERROR" {
    } else if key == "LOCK_ROTOR" {
    } else if key == "EMERGENCY_ERROR" {
    } else if key == "COMMAND_ERROR" {
    } else if key == "MOTION_COMPLETE" {
    }
  }

  lemma MotorLastWriteWins(m: MotorConfig, key: string, v1: string, v2: string, atof: string -> real)
    ensures AssignMotor(AssignMotor(m, key, v1, atof), key, v2, atof) == AssignMotor(m, key, v2, atof)
  {}

  /** `[AXIS2]` has no `ABS_POSITION`; `[AXIS1]` has. */
  lemma AbsPositionOnlyOnAxis1(a: AxisConfig, v: string, atof: string -> real)
    ensures AssignAxis(a, "ABS_POSITION", v, atof, true) == a
    ensures AssignAxis(a, "ABS_POSITION", v, atof, false) == a.(absPosition := Atoi(v))
  {
    AbsPositionOnAxis(a, v, atof, true);
    AbsPositionOnAxis(a, v, atof, false);
  }

  lemma AbsPositionOnAxis(a: AxisConfig, v: string, atof: string -> real, second: bool)
    ensures AssignAxis(a, "ABS_POSITION", v, atof, second) == if second then a else a.(absPosition := Atoi(v))
  {
    if second {
      AxisUnknownKey(a, "ABS_POSITION", v, atof, true);
    } else {
      AbsPositionFirst(a, v, atof);
    }
  }

  /** In the first axis section `ABS_POSITION` is read, after none of the earlier keys matched. */
  lemma AbsPositionFirst(a: AxisConfig, v: string, atof: string -> real)
    ensures AssignAxis(a, "ABS_POSITION", v, atof, false) == a.(absPosition := Atoi(v))
  {
    var k := "ABS_POSITION";
    assert k != "NAME" && k != "AXIS_ID" && k != "POSITION" && k != "VELOCITY" && k != "ACCEL" && k != "DECEL";
    assert k != "HOME_OFFSET" && k != "DEG_POS" && k != "VERSION" && k != "REVISION" && k != "RELEASE_DATE";
  }

  /** The bus voltage is `DCBUS_VOLT_CMD` in `[AXIS1]` and `DCBUS_VOLT` in `[AXIS2]`; each section ignores the other spelling. */
  lemma BusVoltageKeys(a: AxisConfig, v: string, atof: string -> real)
    ensures AssignAxis(a, "DCBUS_VOLT_CMD", v, atof, false) == a.(dcbusVoltCmd := Atoi(v))
    ensures AssignAxis(a, "DCBUS_VOLT", v, atof, true) == a.(dcbusVoltCmd := Atoi(v))
    ensures AssignAxis(a, "DCBUS_VOLT_CMD", v, atof, true) == a
    ensures AssignAxis(a, "DCBUS_VOLT", v, atof, false) == a
  {
    BusVoltageCmd(a, v, atof, false);
    BusVoltageCmd(a, v, atof, true);
    BusVoltagePlain(a, v, atof, false);
    BusVoltagePlain(a, v, atof, true);
  }

  lemma BusVoltageCmd(a: AxisConfig, v: string, atof: string -> real, second: bool)
    ensures AssignAxis(a, "DCBUS_VOLT_CMD", v, atof, second) == if second then a else a.(dcbusVoltCmd := Atoi(v))
  {}

  lemma BusVoltagePlain(a: AxisConfig, v: string, atof: string -> real, second: bool)
    ensures AssignAxis(a, "DCBUS_VOLT", v, atof, second) == if second then a.(dcbusVoltCmd := Atoi(v)) else a
  {}

  // ---------------------------------------------------------------------
  // Lines

  /** `char line[512]`: `fgets` reads at most 511 characters. */
  const LineSize: nat := 512

  /** One `fgets`: up to and including the first newline, at most 511 characters. */
  function NextChunk(t: string): (c: string)
    requires t != []
    ensures 0 < |c| <= |t| && |c| < LineSize && c == t[..|c|]
    ensures '\n' !in c[..|c| - 1]
  {
    var lim := if |t| < LineSize - 1 then |t| else LineSize - 1;
    var i := IndexOf(t[..lim], '\n');
    if i >= 0 then t[..i + 1] else t[..lim]
  }

  /** The successive `fgets` results over a whole file. */
  function Chunks(t: string): (cs: seq<string>)
    decreases |t|
  {
    if t == [] then [] else var c := NextChunk(t); [c] + Chunks(t[|c|..])
  }

  function Concat(cs: seq<string>): string {
    if cs == [] then [] else cs[0] + Concat(cs[1..])
  }

  /** The lines together are the file, each is short enough for the buffer and holds a newline only at its end. */
  lemma {:induction false} ChunksCover(t: string)
    ensures Concat(Chunks(t)) == t
    ensures forall i :: 0 <= i < |Chunks(t)| ==> 0 < |Chunks(t)[i]| < LineSize
    ensures forall i :: 0 <= i < |Chunks(t)| ==> '\n' !in Chunks(t)[i][..|Chunks(t)[i]| - 1]
    decreases |t|
  {
    if t != [] {
      var c := NextChunk(t);
      ChunksCover(t[|c|..]);
      assert t == c + t[|c|..];
      assert Chunks(t) == [c] + Chunks(t[|c|..]);
    }
  }

  /** The loop over a file's lines takes its first line, then the rest. */
  lemma RunFirstLine(st: LoaderState, t: string, atof: string -> real)
    requires t != []
    ensures Run(st, Chunks(t), atof) == Run(LineStep(st, NextChunk(t), atof), Chunks(t[|NextChunk(t)|..]), atof)
  {
    var c := NextChunk(t);
    assert Chunks(t) == [c] + Chunks(t[|c|..]);
    assert ([c] + Chunks(t[|c|..]))[1..] == Chunks(t[|c|..]);
  }

  lemma DropDrop(t: string, i: nat, j: nat)
    requires i + j <= |t|
    ensures t[i..][j..] == t[i + j..]
  {}

  /** What `ini_load` keeps between lines: `current_section` and the records. */
  datatype LoaderState = LoaderState(section: string, cfg: Config)

  /** The key of a `key = value` line split at `eq`: copied into `char[128]`, then trimmed. */
  function KeyText(line: string, eq: nat): string
    requires eq < |line|
  {
    Trim(Prefix(line[..eq], 127))
  }

  /** The value of a `key = value` line split at `eq`: copied into `char[256]`, trimmed, then comment-stripped. */
  function ValueText(line: string, eq: nat): string
    requires eq < |line|
  {
    StripComment(Trim(Prefix(line[eq + 1..], 255)))
  }

  /** A section header line: the scanned name, trimmed and cut to `char[64]`, when the scan matched. */
  function HeaderStep(st: LoaderState, line: string): LoaderState {
    var name := SectionText(line);
    if name == [] then st else st.(section := Prefix(Trim(name), 63))
  }

  /** A `key = value` line, split at its first `=`; without one the line is ignored. */
  function KeyValueStep(st: LoaderState, line: string, atof: string -> real): LoaderState {
    var eq := IndexOf(line, '=');
    if eq < 0 then st
    else st.(cfg := Assign(st.cfg, st.section, KeyText(line, eq), ValueText(line, eq), atof))
  }

  /** A trimmed line: blank and comment lines are skipped, `[` starts a header, anything else is a key line. */
  function TrimmedStep(st: LoaderState, line: string, atof: string -> real): LoaderState {
    if line == [] || line[0] == ';' || line[0] == '#' then st
    else if line[0] == '[' then HeaderStep(st, line)
    else KeyValueStep(st, line, atof)
  }

  /** One iteration of the `fgets` loop of `ini_load`. */
  function LineStep(st: LoaderState, chunk: string, atof: string -> real): LoaderState {
    TrimmedStep(st, Trim(CStr(chunk)), atof)
  }

  /** The loop over all lines. */
  function Run(st: LoaderState, lines: seq<string>, atof: string -> real): LoaderState
    decreases |lines|
  {
    if lines == [] then st else Run(LineStep(st, lines[0], atof), lines[1..], atof)
  }

  /** A line that is a section header after trimming. */
  predicate IsHeader(chunk: string) {
    var line := Trim(CStr(chunk));
    line != [] && line[0] == '['
  }

  /** Only header lines change the section: without one, every key goes to the section that was current before. */
  lemma {:induction false} RunKeepsSection(st: LoaderState, lines: seq<string>, atof: string -> real)
    requires forall i :: 0 <= i < |lines| ==> !IsHeader(lines[i])
    ensures Run(st, lines, atof).section == st.section
    decreases |lines|
  {
    if lines != [] {
      assert LineStep(st, lines[0], atof).section == st.section;
      RunKeepsSection(LineStep(st, lines[0], atof), lines[1..], atof);
    }
  }

  /** A NUL-free string with no whitespace at either end is its own trimmed C string. */
  lemma PlainLine(s: string)
    requires Nul !in s && s != [] && !IsSpace(s[0]) && !IsSpace(s[|s| - 1])
    ensures Trim(CStr(s)) == s
  {
    CStrOfPlain(s);
    TrimKeeps(s);
  }

  /** A bracketed name is its own trimmed line, and the scan reads the name back. */
  lemma HeaderLine(name: string)
    requires Nul !in name && ']' !in name && |name| <= 63
    ensures Trim(CStr("[" + name + "]")) == "[" + name + "]"
    ensures SectionText("[" + name + "]") == name
  {
    var line := "[" + name + "]";
    assert line[1..|name| + 1] == name;
    BracketedPlain(name, line);
    SectionTextIs(line, |name|);
  }

  lemma BracketedPlain(name: string, line: string)
    requires line == "[" + name + "]" && Nul !in name
    ensures Trim(CStr(line)) == line
  {
    assert line == ['['] + (name + [']']);
    assert Nul !in line;
    PlainLine(line);
  }

  /**
   * A header `[name]` with a name that fits selects the section `name`,
   * trimmed: a blank name such as `[ ]` clears the section.
   */
  lemma SectionHeader(st: LoaderState, name: string, atof: string -> real)
    requires name != [] && Nul !in name && ']' !in name && |name| <= 63
    ensures LineStep(st, "[" + name + "]", atof) == st.(section := Trim(name))
  {
    var line := "[" + name + "]";
    HeaderLine(name);
    HeaderLineStep(st, line, atof);
    TrimShape(name);
    assert Prefix(Trim(name), 63) == Trim(name);
  }

  /** `[]` does not match the scan and leaves the section alone. */
  lemma EmptyHeaderIgnored(st: LoaderState, atof: string -> real)
    ensures LineStep(st, "[]", atof) == st
  {
    var empty: string := [];
    HeaderLine(empty);
    assert "[" + empty + "]" == "[]";
    UnmatchedHeader(st, "[]", atof);
  }

  /** A header line whose scan reads no name changes nothing. */
  lemma UnmatchedHeader(st: LoaderState, line: string, atof: string -> real)
    requires Trim(CStr(line)) == line && line != [] && line[0] == '['
    requires SectionText(line) == []
    ensures LineStep(st, line, atof) == st
  {
    HeaderLineStep(st, line, atof);
  }

  /** A line that trims to itself and opens with `[` is handled as a header. */
  lemma HeaderLineStep(st: LoaderState, line: string, atof: string -> real)
    requires Trim(CStr(line)) == line && line != [] && line[0] == '['
    ensures LineStep(st, line, atof) == HeaderStep(st, line)
  {}

  /** The key of `key=value` is `key`, and its value `v`. */
  lemma KeyValueParts(key: string, v: string, line: string)
    requires line == key + "=" + v
    requires key != [] && Nul !in key && '=' !in key && |key| <= 127
    requires !IsSpace(key[0]) && !IsSpace(key[|key| - 1])
    requires v != [] && Nul !in v && ';' !in v && '#' !in v && |v| <= 255
    requires !IsSpace(v[0]) && !IsSpace(v[|v| - 1])
    ensures Trim(CStr(line)) == line
    ensures IndexOf(line, '=') == |key|
    ensures KeyText(line, |key|) == key
    ensures ValueText(line, |key|) == v
  {
    assert line[..|key|] == key && line[|key|] == '=' && line[|key| + 1..] == v;
    KeyLinePlain(key, v, line);
    FirstIndex(line, '=', |key|);
    KeyValueTexts(key, v, line);
  }

  lemma KeyLinePlain(key: string, v: string, line: string)
    requires line == key + "=" + v && key != [] && v != []
    requires Nul !in key && Nul !in v
    requires !IsSpace(key[0]) && !IsSpace(v[|v| - 1])
    ensures Trim(CStr(line)) == line
  {
    assert forall i :: 0 <= i < |line| ==> line[i] == (if i < |key| then key[i] else if i == |key| then '=' else v[i - |key| - 1]);
    PlainLine(line);
  }

  lemma KeyValueTexts(key: string, v: string, line: string)
    requires |key| < |line| && line[..|key|] == key && line[|key| + 1..] == v
    requires |key| <= 127 && |v| <= 255
    requires key != [] ==> !IsSpace(key[0]) && !IsSpace(key[|key| - 1])
    requires v != [] ==> !IsSpace(v[0]) && !IsSpace(v[|v| - 1])
    requires ';' !in v && '#' !in v
    ensures KeyText(line, |key|) == key
    ensures ValueText(line, |key|) == v
  {
    TrimKeeps(key);
    TrimKeeps(v);
    StripCommentProperties(v);
  }

  /**
   * A line `key=value` with a plain key and value assigns the value to
   * the key in the current section.
   */
  lemma KeyValueLine(st: LoaderState, key: string, v: string, atof: string -> real)
    requires key != [] && Nul !in key && '=' !in key && |key| <= 127
    requires key[0] != ';' && key[0] != '#' && key[0] != '['
    requires !IsSpace(key[0]) && !IsSpace(key[|key| - 1])
    requires v != [] && Nul !in v && ';' !in v && '#' !in v && |v| <= 255
    requires !IsSpace(v[0]) && !IsSpace(v[|v| - 1])
    ensures LineStep(st, key + "=" + v, atof) == st.(cfg := Assign(st.cfg, st.section, key, v, atof))
  {
    var line := key + "=" + v;
    KeyValueParts(key, v, line);
    assert line[0] == key[0];
    assert LineStep(st, line, atof) == KeyValueStep(st, line, atof);
  }

  // ---------------------------------------------------------------------
  // The loader

  /** `safe_strcpy` into a fresh zeroed array of `size` characters, then `trim_lr`. */
  method CopyTrimmed(src: seq<char>, size: nat) returns (buf: array<char>)
    requires size > 0
    ensures fresh(buf) && buf.Length == size && Nul in buf[..]
    ensures CStr(buf[..]) == Trim(Prefix(CStr(src), size - 1))
  {
    buf := new char[size](_ => Nul);
    SafeStrcpy(buf, src);
    SafeStrcpyString(Prefix(CStr(src), size - 1), size);
    TrimLR(buf);
  }

  /** Writing a NUL over the `=` at `eq` leaves the key as the buffer's C string and the value as the C string after it. */
  lemma SplitTexts(buf: seq<char>, eq: nat)
    requires Nul in buf && eq < |CStr(buf)|
    ensures CStr(buf[eq := Nul]) == CStr(buf)[..eq]
    ensures CStr(buf[eq := Nul][eq + 1..]) == CStr(buf)[eq + 1..]
  {
    CutAt(buf, eq);
    CStrSuffix(buf, eq + 1);
    assert buf[eq := Nul][eq + 1..] == buf[eq + 1..];
  }

  /**
   * The split of a key line at the `=` found at `eq`: a NUL written over
   * it, the key copied into `char[128]` and the value into `char[256]`,
   * both trimmed, and the value's inline comment stripped.
   */
  method SplitAt(line: array<char>, eq: nat) returns (key: string, value: string)
    requires Nul in line[..] && eq < |CStr(line[..])|
    modifies line
    ensures key == KeyText(CStr(old(line[..])), eq)
    ensures value == ValueText(CStr(old(line[..])), eq)
  {
    ghost var buf := line[..];
    ghost var l := CStr(buf);
    SplitTexts(buf, eq);
    line[eq] := Nul;
    var src := line[..];
    assert src == buf[eq := Nul];
    assert CStr(src) == l[..eq] && CStr(src[eq + 1..]) == l[eq + 1..];
    var keybuf := CopyTrimmed(src, 128);
    key := CStr(keybuf[..]);
    assert key == KeyText(l, eq);
    var valbuf := CopyTrimmed(src[eq + 1..], 256);
    StripInlineComment(valbuf);
    value := CStr(valbuf[..]);
    assert value == ValueText(l, eq);
  }

  /**
   * A `key = value` line: split at the first `=`, the key and the value
   * copied, trimmed, and the value's comment stripped. `found` is false
   * when the line holds no `=`.
   */
  method ReadKeyValue(line: array<char>) returns (found: bool, key: string, value: string)
    requires Nul in line[..]
    modifies line
    ensures var l := CStr(old(line[..]));
            var eq := IndexOf(l, '=');
            (found <==> eq >= 0) && (found ==> key == KeyText(l, eq) && value == ValueText(l, eq))
  {
    var eq := Strchr(line, '=');
    found := eq >= 0;
    key, value := [], [];
    if found {
      key, value := SplitAt(line, eq);
    }
  }

  /** `fgets` into `char line[512]` followed by `trim_lr(line)`. */
  method FillLine(chunk: string) returns (line: array<char>)
    requires |chunk| < LineSize
    ensures fresh(line) && Nul in line[..]
    ensures CStr(line[..]) == Trim(CStr(chunk))
  {
    line := new char[LineSize](i => if 0 <= i < |chunk| then chunk[i] else Nul);
    ghost var pad := seq(LineSize - |chunk|, _ => Nul);
    assert line[..] == chunk + pad;
    CStrPadded(chunk, pad);
    TrimLR(line);
  }

  /** The first character of the buffer: NUL exactly when its C string is empty. */
  method FirstChar(line: array<char>) returns (c: char)
    requires Nul in line[..]
    ensures c == Nul <==> CStr(line[..]) == []
    ensures CStr(line[..]) != [] ==> c == CStr(line[..])[0]
  {
    CStrBound(line[..]);
    c := line[0];
  }

  /** A header line: the `sscanf` scan, then `trim_lr` of the scanned name; `matched` when the scan returned 1. */
  method ReadHeader(line: array<char>) returns (matched: bool, name: string)
    requires Nul in line[..]
    ensures matched <==> SectionText(CStr(line[..])) != []
    ensures matched ==> name == Prefix(Trim(SectionText(CStr(line[..]))), 63)
  {
    var n, secname := ScanSection(line);
    matched := n == 1;
    name := [];
    if matched {
      TrimLR(secname);
      name := Prefix(CStr(secname[..]), 63);
    }
  }

  /** `ini_load` with its static `current_section` and the global records. */
  class IniLoader {
    var section: string
    var config: Config

    /** Static storage: an empty section and zeroed records. */
    constructor ()
      ensures section == [] && config == ZeroConfig()
    {
      section := [];
      config := ZeroConfig();
    }

    function State(): LoaderState
      reads this
    {
      LoaderState(section, config)
    }

    /** One line read by `fgets`, processed in the 512-character line buffer. */
    method ProcessLine(chunk: string, atof: string -> real)
      requires |chunk| < LineSize
      modifies this
      ensures State() == LineStep(old(State()), chunk, atof)
    {
      var line := FillLine(chunk);
      var first := FirstChar(line);
      if first == Nul || first == ';' || first == '#' {
      } else if first == '[' {
        ApplyHeader(line);
      } else {
        ApplyKeyValue(line, atof);
      }
    }

    /** A header line: the scanned, trimmed name becomes the section when the scan matched. */
    method ApplyHeader(line: array<char>)
      requires Nul in line[..]
      modifies this
      ensures State() == HeaderStep(old(State()), CStr(line[..]))
    {
      var matched, name := ReadHeader(line);
      if matched {
        section := name;
      }
    }

    /** A key line: split at its first `=` and assigned in the current section, or ignored without one. */
    method ApplyKeyValue(line: array<char>, atof: string -> real)
      requires Nul in line[..]
      modifies this, line
      ensures State() == KeyValueStep(old(State()), CStr(old(line[..])), atof)
    {
      ghost var l := CStr(line[..]);
      ghost var st := State();
      var found, key, value := ReadKeyValue(line);
      ghost var eq := IndexOf(l, '=');
      if found {
        assert key == KeyText(l, eq) && value == ValueText(l, eq);
        config := Assign(config, section, key, value, atof);
        assert State() == st.(cfg := Assign(st.cfg, st.section, key, value, atof));
      } else {
        assert State() == st;
      }
    }

    /** The `fgets` loop of `ini_load`: every line of the text, in order. */
    method ApplyLines(text: string, atof: string -> real)
      modifies this
      ensures State() == Run(old(State()), Chunks(text), atof)
    {
      ghost var goal := Run(State(), Chunks(text), atof);
      var pos := 0;
      while pos < |text|
        invariant 0 <= pos <= |text|
        invariant Run(State(), Chunks(text[pos..]), atof) == goal
        decreases |text| - pos
      {
        ghost var rest := text[pos..];
        ghost var st := State();
        var chunk := NextChunk(text[pos..]);
        RunFirstLine(st, rest, atof);
        ProcessLine(chunk, atof);
        DropDrop(text, pos, |chunk|);
        pos := pos + |chunk|;
        assert Run(State(), Chunks(text[pos..]), atof) == Run(st, Chunks(rest), atof);
      }
      assert text[pos..] == [];
    }

    /**
     * `ini_load`: -1 and nothing changed when the file cannot be opened;
     * otherwise the records are reset to their defaults and every line is
     * applied in order. The section is not reset: lines before the first
     * header go to the section the previous load ended in.
     */
    method Load(file: Option<string>, atof: string -> real) returns (res: int)
      modifies this
      ensures file.None? ==> res == -1 && State() == old(State())
      ensures file.Some? ==> res == 0 && State() == Run(LoaderState(old(section), Defaults()), Chunks(file.value), atof)
    {
      if file.None? {
        return -1;
      }
      config := Defaults();
      ApplyLines(file.value, atof);
      return 0;
    }
  }

  /** Two loads in a row: the second starts in the section the first ended in. */
  lemma SectionCarriesOver(section: string, lines: seq<string>, atof: string -> real)
    requires forall i :: 0 <= i < |lines| ==> !IsHeader(lines[i])
    ensures Run(LoaderState(section, Defaults()), lines, atof).section == section
  {
    RunKeepsSection(LoaderState(section, Defaults()), lines, atof);
  }
}
