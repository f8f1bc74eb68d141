# LCU–WCS connection core, modelled in Dafny

This project models the core of the LCU (local control unit) gateway.
The LCU receives JSON commands from the WCS (work-cell supervisor) over TCP.
It drives two servo axes over a Modbus-RTU-over-UDP link and acknowledges each command.

The project models these parts:

- **Transport** (`modbus.dfy`, `crc.dfy`, `bytes.dfy`). CRC-16 is the Modbus polynomial `0xA001`, preset `0xFFFF`, transmitted low byte first.
  - Frame layout: read holding (0x03), read input (0x04), write single (0x06) and write multiple (0x10).
  - The send-and-receive loop makes three attempts, re-sends on every attempt, and stops at the first positive `recvfrom`.
  - The connection probe.
- **Wire state**. The UDP socket is the class `Modbus.ModbusMaster`, with three fields:
  - `inbox` holds the replies that successive `recvfrom` calls yield. A `Timeout` entry or the end of the inbox is a timeout. A datagram longer than `rx_max` gives -1, as Windows' `WSAEMSGSIZE` does.
  - `sent` logs the datagrams sent.
  - `requests` is a ghost log of the API-level requests.
- **Command channel** (`lcu_comm.dfy`). TCP segments are the field `incoming` of `LcuComm.CommandChannel`.
  - `recv_exact` is modelled with its loop.
  - `LCU_Recv_Command` reads the 4-byte big-endian length prefix, refuses a length of 0 or at least `max_len`, reads the payload, and closes the client on every failure.
- **Command parser** (`command_parser.dfy`).
  - JSON is an abstract `Json` value. `cJSON_Parse` itself is a parameter.
  - `cJSON_GetObjectItem` looks keys up case-insensitively, first match first.
  - `valueint` saturates.
  - `strncpy` truncates to 63, 15, 31 and 7 characters.
  - The command name table is the fixed one.
- **Dispatcher and acknowledgement** (`command_handler.dfy`).
  - `execute_on_axis` is a function that returns the list of drive operations it would make.
  - `send_ack` builds the `Reply` object published on `lcu/ack`.
  - `Receive_Command_From_WCS` receives a frame, parses it and acknowledges it. As the source stands, it never dispatches.
- **Drive modules** (`drive_command.dfy`, `drive_parameters.dfy`, `drive_feedback.dfy`):
  - command-register writes with the axis number as the value;
  - the solenoid toggle state;
  - the parameter writers with their ×100 / ×1 scaling, their two-register blocks and the read-back;
  - the feedback reads with `extract_reg16_from_resp`;
  - the I/O-status read with its limit-switch E-STOP interlock;
  - the fault-word decoding.
- **Configuration** (`config.dfy`, `axis.dfy`, `ini.dfy`, `ini_text.dfy`, `cstrings.dfy`):
  - the configuration records and their defaults;
  - `GetAxisCfg` (TILT selects the record `axis1`, PAN selects `axis2`);
  - the INI loader, modelled in two forms. The in-place string routines (`trim_lr`, `strip_inline_comment`, `safe_strcpy`, the `[%63[^]]` scan) are methods over `array<char>` proved against functions on strings. The loader is a class whose per-line step is proved equal to a pure line-step function.

Floating-point values are exact reals. A C conversion `(int16_t)(x * scale)` truncates toward zero. It is required to land in the `int16_t` range, because outside it the C conversion is undefined.

Where the source disagrees with the design description of the system, the model follows the code:

- the received command is acknowledged but not dispatched (the dispatch is commented out);
- a refused length prefix closes the client connection just like a short read;
- a retry happens only after a `recvfrom` result of at most 0, not after a short reply;
- the code decodes `command_error` with the commutation-error mask. The model keeps that decoding in `DecodeFaultsAsWritten` and `ReadFaultStatusAsWritten`, and `ReadFaultStatus` uses each flag's own mask (see Findings).

## Model

| member | source | states |
|---|---|---|
| Axis.GetAxisCfg | DRIVE_LCU_WCS_MQTT/axis_helper.h:18-31 | a record is returned exactly for TILT (1) and PAN (2); every other selector gets none (NULL) |
| Axis.AxisSelection | DRIVE_LCU_WCS_MQTT/axis_helper.h:20-30 | TILT selects `axis1_cfg` and PAN selects `axis2_cfg`; BOTH selects nothing |
| Bytes.TruncZero | DRIVE_LCU_WCS_MQTT/drive_parameters.c:80 | the float-to-integer conversion truncates toward zero: the result is the integer nearest the value on the zero side, within 1 |
| Bytes.JoinSplit | DRIVE_LCU_WCS_MQTT/modbus_functions.c:169-172 | splitting a word into high and low byte and joining them again gives the word back |
| Bytes.ValueU16 | DRIVE_LCU_WCS_MQTT/drive_parameters.c:81 | the `uint16_t` cast of an integer is its value modulo 65536 |
| Bytes.Int16RoundTrip | DRIVE_LCU_WCS_MQTT/drive_parameters.c:80-81 | an `int16_t` cast to `uint16_t` and read back as `int16_t` is unchanged; a negative one is stored as value + 65536 |
| Crc.UpdateByte | DRIVE_LCU_WCS_MQTT/modbus_functions.c:33-40 | the per-byte loop of eight shift/XOR-0xA001 steps computes the byte update of the CRC specification |
| Crc.ComputeCrc16 | DRIVE_LCU_WCS_MQTT/modbus_functions.c:26-43 | `MODBUS_CRC16` over the first `len` bytes equals the CRC-16 of that sequence, preset 0xFFFF |
| Crc.WithCrc | DRIVE_LCU_WCS_MQTT/modbus_functions.c:175-177 | a framed message is the message followed by two CRC bytes |
| Crc.CrcAppend | DRIVE_LCU_WCS_MQTT/modbus_functions.c:31-41 | the CRC of a concatenation continues from the CRC of the first part |
| Crc.CrcEmpty | DRIVE_LCU_WCS_MQTT/modbus_functions.c:28 | the CRC of no bytes is the preset 0xFFFF |
| Crc.ZeroTrailerPassesCrc | DRIVE_LCU_WCS_MQTT/modbus_functions.c:352-356 | a framed request followed by two zero bytes still passes the receiver's CRC comparison |
| Crc.FrameResidue | DRIVE_LCU_WCS_MQTT/modbus_functions.c:175-177 | the CRC of a frame with its low-byte-first CRC appended is 0 |
| Crc.WithCrcMatches | DRIVE_LCU_WCS_MQTT/modbus_functions.c:352-356 | a frame built with its CRC passes the receiver's CRC comparison |
| Crc.CrcFromInjective | DRIVE_LCU_WCS_MQTT/modbus_functions.c:26-43 | two different starting CRC values stay different after any byte sequence |
| Crc.SingleByteErrorDetected | DRIVE_LCU_WCS_MQTT/modbus_functions.c:26-43 | changing any single byte of a message changes its CRC |
| Modbus.RegisterBytes | DRIVE_LCU_WCS_MQTT/modbus_functions.c:223-227 | each register contributes two bytes, high byte first |
| Modbus.RegistersRoundTrip | DRIVE_LCU_WCS_MQTT/modbus_functions.c:223-227 | decoding the register bytes gives back the registers |
| Modbus.DecodeEncodeRead | DRIVE_LCU_WCS_MQTT/modbus_functions.c:160-177 | an encoded 0x03/0x04 request decodes back to the same slave, function, address and count |
| Modbus.DecodeEncodeWrite | DRIVE_LCU_WCS_MQTT/modbus_functions.c:251-266 | an encoded 0x06 request decodes back to the same slave, address and value |
| Modbus.DecodeEncodeWriteMany | DRIVE_LCU_WCS_MQTT/modbus_functions.c:208-232 | an encoded 0x10 request of 1 to 127 registers decodes back to the same slave, address and registers |
| Modbus.DecodeEncode | DRIVE_LCU_WCS_MQTT/modbus_functions.c:160-307 | every well-formed request decodes back to itself |
| Modbus.TrailingBytesRejected | DRIVE_LCU_WCS_MQTT/modbus_functions.c:309 | a 0x10 frame followed by two extra bytes (what `MODBUS_WriteMultiple` sends) is rejected by a receiver that checks the byte count against the length |
| Modbus.ReadFramesDifferOnlyInCode | DRIVE_LCU_WCS_MQTT/modbus_functions.c:194-198 | holding and input reads of the same registers are 8-byte frames that differ in the function byte (0x03 vs 0x04) and nowhere else before the CRC |
| Modbus.AttemptsFrom | DRIVE_LCU_WCS_MQTT/modbus_functions.c:118-152 | the loop stops at the first attempt whose receive is positive, after at most 3 attempts |
| Modbus.ExchangeOutcome | DRIVE_LCU_WCS_MQTT/modbus_functions.c:117-154 | the exchange succeeds iff one of the three attempts receives a positive count; then all earlier attempts failed; on failure all three attempts were made |
| Modbus.SuccessStored | DRIVE_LCU_WCS_MQTT/modbus_functions.c:132-136 | after a successful exchange the buffer starts with the received datagram (at most `rx_max` bytes) |
| Modbus.ExchangePair | DRIVE_LCU_WCS_MQTT/modbus_functions.c:114-155 | two exchanges in a row send and consume what the first and then the second send and consume |
| Modbus.BuildFrame8 | DRIVE_LCU_WCS_MQTT/modbus_functions.c:164-177 | the eight-byte request is the six header bytes followed by their CRC |
| Modbus.ModbusMaster.Receive | DRIVE_LCU_WCS_MQTT/modbus_functions.c:132 | one `recvfrom` consumes one reply: it returns its length, or -1 on a timeout or an oversize datagram, and stores at most `rx_max` bytes |
| Modbus.ModbusMaster.SendAndRecv | DRIVE_LCU_WCS_MQTT/modbus_functions.c:114-155 | the request is sent once per attempt; the result is the last attempt's receive; the buffer holds what the attempts stored |
| Modbus.ModbusMaster.SendSimple | DRIVE_LCU_WCS_MQTT/modbus_functions.c:160-189 | sends the encoded read request on every attempt, receiving with `rx_max` 256 |
| Modbus.ModbusMaster.ReadHolding | DRIVE_LCU_WCS_MQTT/modbus_functions.c:194-198 | a 0x03 read through the shared exchange |
| Modbus.ModbusMaster.ReadInput | DRIVE_LCU_WCS_MQTT/modbus_functions.c:242-246 | a 0x04 read through the shared exchange |
| Modbus.ModbusMaster.WriteSingle | DRIVE_LCU_WCS_MQTT/modbus_functions.c:251-277 | sends the encoded 0x06 request on every attempt into a local 256-byte buffer |
| Modbus.ModbusMaster.WriteHolding | DRIVE_LCU_WCS_MQTT/modbus_functions.c:202-236 | a count of 0 or more than 20 returns -1 and sends nothing; otherwise the encoded 0x10 frame is exchanged |
| Modbus.ModbusMaster.WriteMultipleAsWritten | DRIVE_LCU_WCS_MQTT/modbus_functions.c:282-318 | transmits the encoded 0x10 frame followed by two more bytes of the transmit buffer |
| Modbus.ModbusMaster.WriteMultiple | DRIVE_LCU_WCS_MQTT/modbus_functions.c:282-318 | transmits exactly the encoded 0x10 frame |
| Modbus.ModbusMaster.CheckConnection | DRIVE_LCU_WCS_MQTT/modbus_functions.c:323-365 | reads two holding registers at 230; the status is 0 iff at least 5 bytes came back without the exception bit; a CRC mismatch only raises a warning |
| Modbus.FillWriteRegisters | DRIVE_LCU_WCS_MQTT/modbus_functions.c:211-232 | the byte-by-byte filling of the transmit buffer produces exactly the encoded 0x10 frame |
| Modbus.PutRegisters | DRIVE_LCU_WCS_MQTT/modbus_functions.c:223-227 | the register loop appends the register bytes and leaves the header untouched |
| Modbus.ProbeIgnoresCrc | DRIVE_LCU_WCS_MQTT/modbus_functions.c:340-364 | a reply of at least 5 bytes is accepted iff its exception bit is clear, whatever its CRC |
| Modbus.ProbeAcceptsCrcFrame | DRIVE_LCU_WCS_MQTT/modbus_functions.c:340-364 | a proper reply with a valid CRC is accepted with no warning |
| LcuComm.Be32RoundTrip | DRIVE_LCU_WCS_MQTT/lcu_comm.c:126-130 | decoding the big-endian length prefix of an encoded length gives the length back |
| LcuComm.ReadFrame | DRIVE_LCU_WCS_MQTT/lcu_comm.c:118-151 | a frame is accepted only with a payload of 1 to `max_len`-1 bytes, all present in the stream |
| LcuComm.FrameAccepted | DRIVE_LCU_WCS_MQTT/lcu_comm.c:118-145 | a framed payload of acceptable length is received back exactly, whatever follows it |
| LcuComm.BadLengthRefused | DRIVE_LCU_WCS_MQTT/lcu_comm.c:132-136 | a length of 0 or at least `max_len` is refused, whatever follows the header |
| LcuComm.AvailableAfterRecv | DRIVE_LCU_WCS_MQTT/lcu_comm.c:103-104 | a `recv` of k bytes removes exactly the first k bytes of the stream |
| LcuComm.CommandChannel.CloseClient | DRIVE_LCU_WCS_MQTT/lcu_comm.c:24-39 | after closing, the client socket is invalid and nothing more can be read |
| LcuComm.CommandChannel.Recv | DRIVE_LCU_WCS_MQTT/lcu_comm.c:103-106 | a `recv` stores a positive number of bytes from the front of the stream, or returns at most 0 when nothing can be delivered |
| LcuComm.CommandChannel.RecvExact | DRIVE_LCU_WCS_MQTT/lcu_comm.c:97-111 | returns `len` with the first `len` stream bytes in the buffer, or -1 exactly when the stream ends first |
| LcuComm.CommandChannel.RecvCommand | DRIVE_LCU_WCS_MQTT/lcu_comm.c:118-151 | on an accepted frame returns the payload length, with the payload in the buffer followed by NUL and the connection open; on any failure returns -1 and closes the client |
| CommandParser.FindMember | DRIVE_LCU_WCS_MQTT/command_parser.c:16-20 | the object lookup finds a member whose name matches ignoring case, and none only when no member matches |
| CommandParser.FindMemberFirst | DRIVE_LCU_WCS_MQTT/command_parser.c:16-20 | the lookup returns the first matching member |
| CommandParser.ValueInt | DRIVE_LCU_WCS_MQTT/command_parser.c:32 | the protocol version is an `int`, saturated at the bounds |
| CommandParser.KindOfRecognises | DRIVE_LCU_WCS_MQTT/command_parser.c:38-58 | a name is recognised iff it is one of the 15 table names |
| CommandParser.KindOfNameOf | DRIVE_LCU_WCS_MQTT/command_parser.c:38-52 | every command kind has a table name that maps back to it |
| CommandParser.Aliases | DRIVE_LCU_WCS_MQTT/command_parser.c:46-52 | `Jog`, `MovePosition` and `MoveToPositionDeg` alias `JogFwd`, `Move` and `MoveDeg`; matching is case-sensitive |
| CommandParser.ParseCommand | DRIVE_LCU_WCS_MQTT/command_parser.c:7-87 | success iff the text parsed, the envelope fields have the right kinds and the name is known; a bad envelope leaves the zeroed record; the strings are within their capacities |
| CommandParser.CopyStringCopies | DRIVE_LCU_WCS_MQTT/command_parser.c:33-35 | a copied string is the source string up to its first NUL, its end or its capacity, whichever comes first, with no NUL in it |
| CommandParser.ParseAccepted | DRIVE_LCU_WCS_MQTT/command_parser.c:32-83 | an accepted command has a recognised kind matching its name; id, type, name and axis are the document's strings cut at NUL or capacity (axis empty when absent); each numeric body field is the number under its key, or 0 when the key is missing or not a number |
| CommandParser.ParseEnvelope | DRIVE_LCU_WCS_MQTT/command_parser.c:22-58 | for a well-formed envelope, success depends only on the truncated name |
| CommandParser.NameTruncatedBeforeLookup | DRIVE_LCU_WCS_MQTT/command_parser.c:35-38 | a name longer than 31 characters is truncated and then not recognised |
| CommandHandler.ExecuteOneCall | command_handler.c:19-83 | every command other than the two parameter commands makes exactly one call: a solenoid toggle for `Solenoid`, otherwise a command-register write |
| CommandHandler.ExecuteDistinguishesKinds | command_handler.c:19-83 | two single-call commands give the same call iff they are the same command |
| CommandHandler.ExecuteParameterWrites | command_handler.c:37-59 | `SetAngleParams` / `SetMotionParams` write velocity, acceleration and deceleration, then the positive or negative target writer by the sign of the target; no command register is written |
| CommandHandler.ZeroTargetIsPositive | command_handler.c:41-42 | a target of 0 uses the positive writer |
| CommandHandler.ExecuteInvalid | command_handler.c:85-86 | an invalid command makes no call |
| CommandHandler.AckFields | command_handler.c:98-115 | the acknowledgement has `v` 1, the echoed id and name, type `Reply`, src `lcu`, and a result whose `ok` holds iff the code is `OK` |
| CommandHandler.AckResultFields | command_handler.c:110-115 | the result object carries `ok`, `code` and `message` |
| CommandHandler.AckBody | command_handler.c:107-110 | the acknowledgement's body holds the result object |
| CommandHandler.AckEnvelopeOk | command_handler.c:98-107 | the acknowledgement has a well-formed command envelope |
| CommandHandler.AckParsesBack | command_handler.c:93-128 | parsing an acknowledgement gives back the command's id and name, type `Reply`, and the same command kind |
| CommandHandler.ParsedFieldsStorable | DRIVE_LCU_WCS_MQTT/command_parser.c:33-38 | the id and name of an accepted command fit their fields |
| CommandHandler.ReceiveCommandFromWcs | command_handler.c:134-179 | an accepted and parsed frame is acknowledged with `OK` / `Command executed` on `lcu/ack`; a refused frame or a failed parse publishes nothing; a refused frame closes the client |
| CommandHandler.ReceivedAckIsOk | command_handler.c:178 | the receive path's acknowledgement always reports ok, with its message unchanged |
| DriveCommand.CommandValue | DRIVE_LCU_WCS_MQTT/drive_command.c:15-26 | the written value is the axis number for axes 1 to 3 and 0 otherwise |
| DriveCommand.CommandFrame | DRIVE_LCU_WCS_MQTT/drive_command.c:15-27 | a command is one 8-byte 0x06 frame to the command register, holding the axis value |
| DriveCommand.IssueCommand | DRIVE_LCU_WCS_MQTT/drive_command.c:33-112 | each `CMD_*` function makes one single-register write of its register with the axis value |
| DriveCommand.SolenoidValue | DRIVE_LCU_WCS_MQTT/drive_command.c:130-149 | the value is 0 when off; when on, outputs 3 and 4 (PAN) or output 4 (other axes) in the high byte |
| DriveCommand.SolenoidWords | DRIVE_LCU_WCS_MQTT/drive_command.c:116-149 | the words are 0x1800 for PAN on, 0x1000 for the other axes on, and 0 when off |
| DriveCommand.ToggleProperties | DRIVE_LCU_WCS_MQTT/drive_command.c:132-143 | a toggle flips the selected axis's state only, and toggling twice restores it |
| DriveCommand.SolenoidControl.constructor | DRIVE_LCU_WCS_MQTT/drive_command.c:122-123 | both solenoids start off |
| DriveCommand.SolenoidControl.Toggle | DRIVE_LCU_WCS_MQTT/drive_command.c:128-169 | toggles the axis's state and writes the new state's value to the solenoid register |
| DriveParameters.FloatToRegValue | DRIVE_LCU_WCS_MQTT/drive_parameters.c:78-82 | the register holds the truncated scaled value in two's complement |
| DriveParameters.NegativeBlockHigh | DRIVE_LCU_WCS_MQTT/drive_parameters.c:181-183 | the negative writers' second register is 0xFFFF for a negative value and 0 otherwise |
| DriveParameters.NegativeBlockSignExtends | DRIVE_LCU_WCS_MQTT/drive_parameters.c:360-361 | read low word first, the negative writers' block is the 32-bit sign extension of the value |
| DriveParameters.PositiveBlockNonNegative | DRIVE_LCU_WCS_MQTT/drive_parameters.c:135-136 | the positive writers' `[val, 0]` block holds the 32-bit value iff the value is not negative |
| DriveParameters.WriteBlock | DRIVE_LCU_WCS_MQTT/drive_parameters.c:139 | a parameter block is one 0x10 write of its two registers |
| DriveParameters.VerifyParameterWrite | DRIVE_LCU_WCS_MQTT/drive_parameters.c:87-94 | reads two holding registers at the address; the word is bytes 3-4 of the reply when at least 5 bytes arrived |
| DriveParameters.WriteVerified | DRIVE_LCU_WCS_MQTT/drive_parameters.c:214-217 | a block write followed by its read-back |
| DriveParameters.SetPositionPositive | DRIVE_LCU_WCS_MQTT/drive_parameters.c:100-143 | writes `[val, 0]` at the axis's POSITION register, with `val` = mm × 100 truncated, and reads nothing back; the master's sent log and inbox afterwards are those of that one exchange |
| DriveParameters.SetPositionNegative | DRIVE_LCU_WCS_MQTT/drive_parameters.c:145-190 | writes the value and its sign extension at the POSITION register; the master's sent log and inbox afterwards are those of that one exchange |
| DriveParameters.SetDegPositionPositive | DRIVE_LCU_WCS_MQTT/drive_parameters.c:295-330 | writes `[val, 0]` at the DEG_POS register, with `val` = degrees × 100 truncated; the master's sent log and inbox afterwards are those of that one exchange |
| DriveParameters.SetDegPositionNegative | DRIVE_LCU_WCS_MQTT/drive_parameters.c:332-367 | writes the value and its sign extension at the DEG_POS register; the master's sent log and inbox afterwards are those of that one exchange |
| DriveParameters.SetVelocity | DRIVE_LCU_WCS_MQTT/drive_parameters.c:194-218 | writes the unscaled value at VELOCITY, then reads it back; the master's sent log and inbox afterwards are those of the two exchanges |
| DriveParameters.SetAcceleration | DRIVE_LCU_WCS_MQTT/drive_parameters.c:222-246 | writes the unscaled value at ACCEL, then reads it back; the master's sent log and inbox afterwards are those of the two exchanges |
| DriveParameters.SetDeceleration | DRIVE_LCU_WCS_MQTT/drive_parameters.c:252-268 | writes the unscaled value at DECEL, then reads it back; the master's sent log and inbox afterwards are those of the two exchanges |
| DriveParameters.SetHomeOffset | DRIVE_LCU_WCS_MQTT/drive_parameters.c:273-289 | writes the value × 100 at HOME_OFFSET, then reads it back; the master's sent log and inbox afterwards are those of the two exchanges |
| DriveParameters.MotionBlock | DRIVE_LCU_WCS_MQTT/drive_parameters.c:387-390 | the motion block is four registers: position × 100, then velocity, acceleration and deceleration |
| DriveParameters.SetMotionParameters | DRIVE_LCU_WCS_MQTT/drive_parameters.c:372-398 | with the corrected multiple write: one 0x10 write of the four registers starting at POSITION, whatever the axis, then a read-back at POSITION; the master's sent log and inbox afterwards are those of the two exchanges |
| DriveParameters.WriteMotionBlockAsWritten | DRIVE_LCU_WCS_MQTT/drive_parameters.c:392 | as written, the four-register write transmits its frame and two bytes past it, a datagram rejected by a receiver that checks the byte count against the length |
| DriveParameters.SetMotionParametersAsWritten | DRIVE_LCU_WCS_MQTT/drive_parameters.c:372-398 | as written: the 19-byte datagram of the four-register frame and two trailing bytes, which `Decode` rejects because its byte count does not match its length, is sent in each attempt, then the read-back at POSITION; requests, sent log and inbox stated |
| DriveParameters.CheckSoftwareLimit | DRIVE_LCU_WCS_MQTT/drive_parameters.c:9-44 | a target is allowed iff it lies within the axis's minimum and maximum degrees |
| DriveFeedback.ExtractFirstRegister | DRIVE_LCU_WCS_MQTT/drive_feedback.c:20-30 | a normal reply of at least one register yields its first register |
| DriveFeedback.ExtractRefuses | DRIVE_LCU_WCS_MQTT/drive_feedback.c:23-26 | a 5-byte exception reply and a byte count under 2 are refused |
| DriveFeedback.FeedbackOutcomes | DRIVE_LCU_WCS_MQTT/drive_feedback.c:43-46 | a timeout fails; a normal reply yields its first register when it is at most the 256 bytes `recvfrom` may store, and fails otherwise |
| DriveFeedback.ReadingRange | DRIVE_LCU_WCS_MQTT/drive_feedback.c:85-178 | readings are the raw word divided by 100 or by 1, between 0 and 65536 |
| DriveFeedback.ReadInputWord | DRIVE_LCU_WCS_MQTT/drive_feedback.c:38-46 | reads two input registers and extracts the first, or fails; the master's sent log and inbox afterwards are those of that one exchange |
| DriveFeedback.ReadFeedback | DRIVE_LCU_WCS_MQTT/drive_feedback.c:36-266 | each `Read_*` reads its quantity's register and reports the scaled first register, or fails (-1); the master's sent log and inbox afterwards are those of that one exchange |
| DriveFeedback.LimitHitBits | DRIVE_LCU_WCS_MQTT/drive_feedback.c:206-224 | TILT's limit is inputs 1-2 (bits 0 and 1) and any other axis's is inputs 4-5 (bits 3 and 4), looking at the low byte only |
| DriveFeedback.ReadIoStatus | DRIVE_LCU_WCS_MQTT/drive_feedback.c:183-228 | no output pointer gives -1 and no read; a reply under 7 bytes gives -1; otherwise returns the I/O word and issues E-STOP on the axis exactly when its limit inputs are set; the sent log and inbox afterwards are those of the read and, when a limit is hit, the E-STOP write |
| DriveFeedback.ReadIoWord | DRIVE_LCU_WCS_MQTT/drive_feedback.c:192-201 | reads two input registers into a zeroed 256-byte buffer (the source's is 16 bytes); the word is bytes 3-4 of the reply when at least 7 bytes arrived; the sent log and inbox afterwards are those of that one exchange |
| DriveFeedback.EStopOnLimit | DRIVE_LCU_WCS_MQTT/drive_feedback.c:206-224 | one E-STOP write for the axis exactly when one of its limit inputs is active, nothing otherwise |
| DriveFeedback.CommandErrorIsCommutation | DRIVE_LCU_WCS_MQTT/drive_feedback.c:291-294 | as written, `command_error` always equals `commutation_err` |
| DriveFeedback.CommandFaultMissed | DRIVE_LCU_WCS_MQTT/drive_feedback.c:294 | with the default masks, a word with only bit 14 set is a command error that the as-written decoding does not report |
| DriveFeedback.DecodeFaultsFlags | DRIVE_LCU_WCS_MQTT/drive_feedback.c:280-295 | a zero word raises no flag; the raw word is kept; the command-error flag follows its own mask |
| DriveFeedback.ReadFaultWord | DRIVE_LCU_WCS_MQTT/drive_feedback.c:270-279 | reads two input registers at FAULT_STATUS and takes bytes 3-4 of the buffer, whatever the read returned; the master's sent log and inbox afterwards are those of that one exchange |
| DriveFeedback.ReadFaultStatus | DRIVE_LCU_WCS_MQTT/drive_feedback.c:270-298 | corrected: the word read at FAULT_STATUS decoded with each flag's own mask; the master's sent log and inbox afterwards are those of that one exchange |
| DriveFeedback.ReadFaultStatusAsWritten | DRIVE_LCU_WCS_MQTT/drive_feedback.c:270-298 | as written: the same word decoded with `command_error` tested against the commutation mask, so it always equals `commutation_err`; the master's sent log and inbox afterwards are those of that one exchange |
| DriveFeedback.FaultWordSource | DRIVE_LCU_WCS_MQTT/drive_feedback.c:277-279 | the decoded word comes from the reply when at least 5 bytes arrived, and is the buffer's old content when every attempt timed out |
| DriveFeedback.EightByteBufferOverrun | DRIVE_LCU_WCS_MQTT/drive_feedback.c:272-277 | the normal 9-byte reply to a two-register read overruns an 8-byte buffer by one byte, but fits the 16- and 64-byte buffers |
| CStrings.CStr | LCU_WCS/ini.c:36-39 | the C string of a buffer is its content up to the first NUL |
| CStrings.Prefix | LCU_WCS/ini.c:56-62 | `strncpy` keeps at most n characters from the front |
| CStrings.TrimLeft | LCU_WCS/ini.c:33-36 | trimming on the left removes exactly the leading whitespace |
| CStrings.TrimRight | LCU_WCS/ini.c:38-40 | trimming on the right removes exactly the trailing whitespace |
| CStrings.TrimShape | LCU_WCS/ini.c:30-41 | the trimmed text is a substring of the original with no whitespace at either end |
| CStrings.TrimIdempotent | LCU_WCS/ini.c:30-41 | trimming twice is trimming once |
| CStrings.IndexOf | LCU_WCS/ini.c:263 | `strchr` finds the first occurrence, or -1 when there is none |
| IniText.Strlen | LCU_WCS/ini.c:36 | `strlen` is the length of the C string, within the buffer |
| IniText.Strchr | LCU_WCS/ini.c:49 | `strchr` in a buffer finds the first occurrence within its C string |
| IniText.ShiftLeft | LCU_WCS/ini.c:36 | `memmove(s, p, strlen(p) + 1)` moves the tail, terminator included, to the front |
| IniText.TrimLeftInPlace | LCU_WCS/ini.c:34-36 | the buffer's string becomes the left-trimmed string |
| IniText.TrimRightInPlace | LCU_WCS/ini.c:38-40 | the buffer's string becomes the right-trimmed string |
| IniText.TrimLR | LCU_WCS/ini.c:30-41 | `trim_lr` leaves the trimmed string in the buffer |
| IniText.StripInlineComment | LCU_WCS/ini.c:44-53 | `strip_inline_comment` leaves the value with its inline comment removed |
| IniText.StripCommentProperties | LCU_WCS/ini.c:44-53 | the stripped value is a substring of the value with no `;`; a `#` is cut only when no `;` is present; a value with neither is unchanged |
| IniText.StripCommentExample | LCU_WCS/ini.c:49-52 | a `;` is looked for before `#`, so `a#b;c` keeps `a#b` |
| IniText.SafeStrcpy | LCU_WCS/ini.c:56-62 | copies at most size-1 characters and pads with NUL; a size of 0 leaves the buffer alone |
| IniText.SafeStrcpyString | LCU_WCS/ini.c:56-62 | a string that fits is copied exactly |
| IniText.SectionText | LCU_WCS/ini.c:254 | the scanned section name has at most 63 characters and no `]` |
| IniText.ScanSection | LCU_WCS/ini.c:253-254 | `sscanf("[%63[^]]")` returns 1 iff the scanned name is non-empty, leaving it NUL-terminated in the 64-byte buffer |
| IniText.CopyName | LCU_WCS/ini.c:254 | the scan copies the characters after `[` up to `]`, the end of the string or 63 characters |
| Ini.DefaultQuirks | LCU_WCS/ini.c:66-201 | the defaults give both axes I/O status 422 and share the fault/system status register; `CMD_DISABLE` and the MQTT client id stay zero |
| Ini.DefaultTiltRecordNamedPan | LCU_WCS/ini.c:107-138 | TILT selects the record named `PAN` (axis id TILT, 155 degrees maximum), and PAN selects the record named `TILT` |
| Ini.Saturate | LCU_WCS/ini.c:213 | out-of-range integers clamp to the bounds of `int` |
| Ini.Atoi | LCU_WCS/ini.c:210-214 | `atoi` returns an `int` |
| Ini.AtoiShowInt | LCU_WCS/ini.c:213 | `atoi` of a decimal `int` numeral, followed by anything that is not a digit, is that `int` |
| Ini.AtoiNonNumeric | LCU_WCS/ini.c:213 | text not starting with a digit, a sign or whitespace reads as 0 |
| Ini.UnknownSectionIgnored | LCU_WCS/ini.c:274-493 | a key in an unknown section changes nothing; section names are case-sensitive |
| Ini.UnknownKeyIgnored | LCU_WCS/ini.c:274-493 | in every section, a key outside that section's recognised set leaves the configuration unchanged |
| Ini.AxisUnknownKey | LCU_WCS/ini.c:321-424 | an axis key outside the 22 common keys and that axis's own extra keys leaves the axis record unchanged |
| Ini.LowerCaseKeyIgnored | LCU_WCS/ini.c:204-207 | keys match case-sensitively: `drive_ip_addr` in `[NETWORK]` changes nothing |
| Ini.LowerCaseAxisKeyIgnored | LCU_WCS/ini.c:204-207 | keys match case-sensitively: `position` in `[AXIS1]` changes nothing |
| Ini.LastWriteWins | LCU_WCS/ini.c:274-491 | assigning the same key twice keeps only the second value |
| Ini.AxisLastWriteWins | LCU_WCS/ini.c:321-424 | an axis key assigned twice keeps the second value |
| Ini.FaultBitsLastWriteWins | LCU_WCS/ini.c:449-477 | a fault-bit key assigned twice keeps the second value |
| Ini.AbsPositionOnlyOnAxis1 | LCU_WCS/ini.c:346-347 | `ABS_POSITION` is read in `[AXIS1]` and ignored in `[AXIS2]` |
| Ini.BusVoltageKeys | LCU_WCS/ini.c:360-361 | `[AXIS1]` reads `DCBUS_VOLT_CMD` and `[AXIS2]` reads `DCBUS_VOLT` into the same field; each ignores the other's key |
| Ini.NextChunk | LCU_WCS/ini.c:239-240 | `fgets` yields at most 511 characters, ending at the first newline |
| Ini.ChunksCover | LCU_WCS/ini.c:240 | the successive `fgets` lines cover the whole file, each non-empty and short enough |
| Ini.RunKeepsSection | LCU_WCS/ini.c:249-260 | lines that are not headers leave the current section unchanged |
| Ini.SectionHeader | LCU_WCS/ini.c:250-259 | a `[NAME]` line makes NAME, trimmed, the current section |
| Ini.EmptyHeaderIgnored | LCU_WCS/ini.c:254-259 | `[]` leaves the state unchanged |
| Ini.KeyValueLine | LCU_WCS/ini.c:262-274 | a plain `KEY=VALUE` line assigns VALUE to KEY in the current section |
| Ini.SplitAt | LCU_WCS/ini.c:263-271 | splitting at the first `=` gives the trimmed key and the trimmed value without comment |
| Ini.ReadKeyValue | LCU_WCS/ini.c:263-272 | a line with no `=` is skipped; otherwise the key and value are as split |
| Ini.ReadHeader | LCU_WCS/ini.c:253-258 | a header is taken iff its scanned name is non-empty, and then the trimmed name becomes the section |
| Ini.IniLoader.constructor | LCU_WCS/ini.c:27 | the current section starts empty |
| Ini.IniLoader.ProcessLine | LCU_WCS/ini.c:241-494 | one loop iteration performs the specified line step |
| Ini.IniLoader.ApplyHeader | LCU_WCS/ini.c:249-259 | a `[` line sets the current section to the scanned, trimmed name when the scan matches, and leaves the state alone otherwise |
| Ini.IniLoader.ApplyKeyValue | LCU_WCS/ini.c:261-494 | a key line without `=` changes nothing; otherwise its key and value are assigned in the current section |
| Ini.IniLoader.ApplyLines | LCU_WCS/ini.c:240-494 | the read loop performs the line step for every `fgets` line in order |
| Ini.IniLoader.Load | LCU_WCS/ini.c:232-498 | a file that cannot be opened gives -1 and changes nothing; otherwise the defaults are reset, every line is applied, and 0 is returned |
| Ini.SectionCarriesOver | LCU_WCS/ini.c:27 | the current section is not reset by a load: keys before the first header go to the previous load's last section |

## Left out

- Socket set-up and tear-down (`MODBUS_Init`, `MODBUS_Close`, `LCU_Comm_Init`, `LCU_Comm_Close`, `accept`, keep-alive): the sockets are the transport fields of the two classes.
- `Sleep`, the receive timeout value and `WSAGetLastError`: timing is left out. A timeout is a `Timeout` reply.
- `printf` logging: output only.
- The MQTT client, heartbeat, telemetry and `main`: outside the core. `mqtt_publish` is the returned `Publication`.
- The cJSON text parser and printer: `cJSON_Parse` is a parameter, and JSON is an abstract value.
- `atof` and `float` rounding: decimal-to-float conversion is a parameter, and floats are exact reals.
- `Compute_MaxVelocity` and `Compute_MaxAcceleration`: only commented-out code uses them.
- The commented-out soft-limit checks, the commented-out axis dispatch and the old parser: dead code.
- `Check_SoftwareLimit_MM`: it has the same shape as `Check_SoftwareLimit` with the millimetre limits, and no caller.
- The Python tools and the other context files: not part of this model.
- DriveParameters.SetPositionPositive, DriveParameters.SetPositionNegative, DriveParameters.SetDegPositionPositive, DriveParameters.SetDegPositionNegative, DriveParameters.SetVelocity, DriveParameters.SetAcceleration, DriveParameters.SetDeceleration, DriveParameters.SetHomeOffset, DriveParameters.SetMotionParameters and DriveParameters.SetMotionParametersAsWritten require the truncated scaled value to be an `int16_t`, because the C conversion is undefined outside that range.
- DriveParameters.CheckSoftwareLimit, DriveFeedback.ReadFeedback, DriveFeedback.ReadFaultWord, DriveFeedback.ReadFaultStatus, DriveFeedback.ReadFaultStatusAsWritten, DriveFeedback.ReadIoStatus (when an output pointer is given) and the setters require PAN or TILT, because for any other selector `GetAxisCfg` returns NULL and the source dereferences it.
- DriveFeedback.ReadInputWord, DriveFeedback.ReadFeedback, DriveFeedback.ReadIoWord and DriveFeedback.ReadIoStatus: receive into a 256-byte buffer. The source's buffers are 64 bytes (16 for `Read_IO_Status`), and `recvfrom` may store up to 256 bytes, so a reply of 65 to 256 bytes (17 to 256) overruns them. The model reads such a reply normally and does not capture the overrun. The normal 9-byte reply fits.
- DriveFeedback.ReadIoStatus: leaves the output word unstated when it returns -1, because the source does not write it then.
- DriveParameters.VerifyParameterWrite: leaves the read-back word unstated when fewer than 5 bytes arrived, because the source reads an uninitialised buffer then.
- Modbus.ModbusMaster.WriteMultiple and Modbus.ModbusMaster.WriteMultipleAsWritten require at most 124 registers, because a longer frame overruns the 260-byte transmit buffer. Every caller writes 4.
- Modbus.ModbusMaster.WriteHolding requires fewer than 65536 registers, because `reg_count` is a `uint16_t`.
- Ini.Atoi: saturates on overflow as the Microsoft C runtime does; the C standard leaves overflow undefined.
- Modbus.ModbusMaster.SendAndRecv: a short `sendto` is not modelled, because the source only logs it and carries on.
- NULL-pointer guards of the INI helpers (`trim_lr`, `assign_*`, `match`) are left out, because no call in the loader passes NULL.

## Findings

| source | as written | input that shows it | evidently intended | confidence | as-written member | corrected member |
|---|---|---|---|---|---|---|
| DRIVE_LCU_WCS_MQTT/modbus_functions.c:309 | `MODBUS_SendAndRecv(tx, len+2, ...)` runs after `len` already counts the two CRC bytes, so two bytes past the frame are sent | the 4-register write of `Set_MotionParameters`: a 17-byte frame is sent as 19 bytes, which a receiver that checks the byte count against the length rejects (one that checks only the CRC accepts it when the two bytes are zero) | send the `len` bytes of the frame | high; not executed | Modbus.ModbusMaster.WriteMultipleAsWritten, Modbus.TrailingBytesRejected, DriveParameters.SetMotionParametersAsWritten | Modbus.ModbusMaster.WriteMultiple, DriveParameters.SetMotionParameters |
| DRIVE_LCU_WCS_MQTT/drive_feedback.c:272-277 | `VerifyParameterWrite` (drive_parameters.c:89-90) and `Read_FaultStatus` receive into an 8-byte buffer, but `MODBUS_SendSimple` lets `recvfrom` store up to 256 bytes | the normal reply to their two-register read: 9 bytes, one past the buffer | a receive buffer of at least the `rx_max` of 256 bytes | high; not executed | DriveFeedback.EightByteBufferOverrun | DriveFeedback.ReadFaultStatus, DriveParameters.VerifyParameterWrite |
| DRIVE_LCU_WCS_MQTT/drive_feedback.c:294 | `command_error` is decoded with the `COMMUTATION_ERROR` mask | fault word 0x4000 with the default masks (`COMMAND_ERROR` 16384, `COMMUTATION_ERROR` 512): the command error is not reported | decode `command_error` with `COMMAND_ERROR` | high; not executed | DriveFeedback.CommandErrorIsCommutation, DriveFeedback.CommandFaultMissed, DriveFeedback.ReadFaultStatusAsWritten | DriveFeedback.DecodeFaultsFlags, DriveFeedback.ReadFaultStatus |
