/**
 * The configuration records of `ini.h`, filled by the INI loader and read
 * by the drive modules. Character arrays are held as their C string
 * contents, `int` fields as integers and `float` fields as reals.
 */
module Config {
  /** `NETWORK_CONFIG`. */
  datatype NetworkConfig = NetworkConfig(
    driveIpAddr: string, drivePortUdp: int,
    localBindIp: string, localBindPort: int,
    jsonWcsIp: string, jsonWcsPort: int,
    jsonLcuIp: string, jsonLcuPort: int,
    mqttBrokerIp: string, mqttBrokerPort: int,
    mqttClientId: string,
    mqttTopicHeartbeat: string, mqttTopicTelemetry: string)

  /** `MODBUS_CONFIG`. */
  datatype ModbusConfig = ModbusConfig(
    unitId: int,
    funcReadHolding: int, funcReadInput: int, funcWriteSingle: int, funcWriteMultiple: int,
    maxResponseBytes: int, timeoutSec: int)

  /** `AXIS_CONFIG`: holding registers, input registers and soft limits of one axis. */
  datatype AxisConfig = AxisConfig(
    name: string, axisId: int,
    position: int, velocity: int, accel: int, decel: int, homeOffset: int, degPos: int,
    version: int, revision: int, releaseDate: int, posDeg: int, absPosition: int, posMm: int,
    rpm: int, actualCurrent: int, ioStatus: int, systemStatus: int, dcbusVoltCmd: int, faultStatus: int,
    limitMinDeg: real, limitMaxDeg: real, limitMinMm: real, limitMaxMm: real)

  /** `COMMAND_REGS`. */
  datatype CommandRegs = CommandRegs(
    solenoid: int, halt: int, emgStop: int, disable: int, enable: int, reset: int,
    posMove: int, homeMoveDeg: int, velFwd: int, velRev: int, posMoveDeg: int)

  /** `FAULT_BITS_CONFIG`: the mask of each fault flag in the fault register. */
  datatype FaultBits = FaultBits(
    shortCkt: int, systemHealthy: int, ratedCurrentFault: int, overTemp: int,
    overVolt: int, underVolt: int, motionError: int, driveDisable: int,
    eepromError: int, commutationError: int, lockRotor: int, emergencyError: int,
    commandError: int, motionComplete: int)

  /** `MOTOR_CONFIG`. */
  datatype MotorConfig = MotorConfig(
    maxRpm: int, dpmrMm: real, accelFactor: real,
    ratedCurrent: real, peakCurrent: real, currentShutdownLimit: real)

  /** The seven global configuration objects. */
  datatype Config = Config(
    net: NetworkConfig, modbus: ModbusConfig,
    axis1: AxisConfig, axis2: AxisConfig,
    cmdRegs: CommandRegs, faults: FaultBits, motor: MotorConfig)
}
