/**
 * `command_handler.c`: the per-axis dispatcher `execute_on_axis`, the
 * MQTT acknowledgement `send_ack` and the receive path
 * `Receive_Command_From_WCS` (TCP frame, JSON parse, acknowledgement).
 *
 * The dispatcher is a switch of calls into the drive modules; it is
 * modelled as the list of calls it makes, one `DriveOp` per call.
 */
module CommandHandler {
  import opened Wrappers
  import opened Bytes
  import opened CStrings
  import opened CommandParser
  import opened LcuComm
  import DriveCommand

  /** One call `execute_on_axis` makes on the selected axis. */
  datatype DriveOp =
    | Issue(command: DriveCommand.Command)   // a `CMD_*` register write
    | ToggleSolenoid                         // `CMD_Solenoid`
    | Velocity(value: real)                  // `Set_Velocity`
    | Acceleration(value: real)              // `Set_Acceleration`
    | Deceleration(value: real)              // `Set_Deceleration`
    | DegPositive(target: real)              // `Set_DegPosition_Positive`
    | DegNegative(target: real)              // `Set_DegPosition_Negative`
    | PosPositive(target: real)              // `Set_Position_Positive`
    | PosNegative(target: real)              // `Set_Position_Negative`

  /** The three profile writes both parameter commands start with. */
  function Profile(cmd: ParsedCommand): seq<DriveOp> {
    [Velocity(cmd.velocity), Acceleration(cmd.accel), Deceleration(cmd.decel)]
  }

  /** `execute_on_axis`: the calls made for the parsed command, in order. */
  function ExecuteOnAxis(cmd: ParsedCommand): seq<DriveOp> {
    match cmd.cmd
    case Enable => [Issue(DriveCommand.Enable)]
    case Disable => [Issue(DriveCommand.Disable)]
    case Reset => [Issue(DriveCommand.Reset)]
    case EStop => [Issue(DriveCommand.EStop)]
    case SetAngle =>
      Profile(cmd) + [if cmd.targetDeg >= 0.0 then DegPositive(cmd.targetDeg) else DegNegative(cmd.targetDeg)]
    case SetPos =>
      Profile(cmd) + [if cmd.targetPos >= 0.0 then PosPositive(cmd.targetPos) else PosNegative(cmd.targetPos)]
    case Move => [Issue(DriveCommand.PositionMove)]
    case MoveDeg => [Issue(DriveCommand.PositionMoveDeg)]
    case VelocityFwd => [Issue(DriveCommand.VelocityFwd)]
    case VelocityRev => [Issue(DriveCommand.VelocityRev)]
    case Halt => [Issue(DriveCommand.Halt)]
    case Solenoid => [ToggleSolenoid]
    case Invalid => []
  }

  /** The kinds that make exactly one call. */
  predicate SingleCall(k: CommandKind) {
    k != Invalid && k != SetAngle && k != SetPos
  }

  /**
   * Every kind but the two parameter commands and `Invalid` makes exactly
   * one call: the solenoid toggle for `Solenoid`, a command write otherwise,
   * and never the homing move.
   */
  lemma ExecuteOneCall(cmd: ParsedCommand)
    requires SingleCall(cmd.cmd)
    ensures var ops := ExecuteOnAxis(cmd);
            |ops| == 1
            && (ops[0] == ToggleSolenoid <==> cmd.cmd == Solenoid)
            && (ops[0].Issue? <==> cmd.cmd != Solenoid)
            && (ops[0].Issue? ==> ops[0].command != DriveCommand.HomeMove)
  {}

  /** Different single-call kinds make different calls: no two kinds share a command register. */
  lemma ExecuteDistinguishesKinds(a: ParsedCommand, b: ParsedCommand)
    requires SingleCall(a.cmd) && SingleCall(b.cmd)
    ensures ExecuteOnAxis(a) == ExecuteOnAxis(b) <==> a.cmd == b.cmd
  {}

  /**
   * `SetAngleParams` and `SetMotionParams`: velocity, acceleration and
   * deceleration in that order, then one target write whose positive form
   * is chosen exactly when the target is at least zero. No move command
   * follows the writes.
   */
  lemma ExecuteParameterWrites(cmd: ParsedCommand)
    requires cmd.cmd == SetAngle || cmd.cmd == SetPos
    ensures var ops := ExecuteOnAxis(cmd);
            var t := if cmd.cmd == SetAngle then cmd.targetDeg else cmd.targetPos;
            |ops| == 4 && ops[..3] == Profile(cmd)
            && ops[3].target == t
            && (ops[3].DegPositive? || ops[3].PosPositive? <==> t >= 0.0)
            && (ops[3].DegPositive? || ops[3].DegNegative? <==> cmd.cmd == SetAngle)
            && forall i :: 0 <= i < |ops| ==> !ops[i].Issue?
  {
    var ops := ExecuteOnAxis(cmd);
    assert ops == Profile(cmd) + [ops[3]];
  }

  /** A zero target counts as positive. */
  lemma ZeroTargetIsPositive(cmd: ParsedCommand)
    requires cmd.cmd == SetAngle && cmd.targetDeg == 0.0
    ensures ExecuteOnAxis(cmd)[3] == DegPositive(0.0)
  {}

  /** `CMD_INVALID` makes no call at all. */
  lemma ExecuteInvalid(cmd: ParsedCommand)
    requires cmd.cmd == Invalid
    ensures ExecuteOnAxis(cmd) == []
  {}

  /** A message handed to `mqtt_publish`. */
  datatype Publication = Publication(topic: string, payload: Json)

  const AckTopic: string := "lcu/ack"

  /** The `result` object of `send_ack`: `ok` is `strcmp(code, "OK") == 0`. */
  function AckResultObject(code: string, msg: string): Json {
    JObject([
      ("ok", JBool(CStr(code) == "OK")),
      ("code", JString(CStr(code))),
      ("message", JString(CStr(msg)))])
  }

  /**
   * `send_ack`: the acknowledgement object, members in the order they are
   * added. `code` and `msg` are C strings.
   */
  function MakeAck(cmd: ParsedCommand, code: string, msg: string): Json {
    JObject([
      ("v", JNumber(1.0)),
      ("id", JString(cmd.id)),
      ("type", JString("Reply")),
      ("name", JString(cmd.name)),
      ("src", JString("lcu")),
      ("body", JObject([("result", AckResultObject(code, msg))]))])
  }

  /** The result object inside an acknowledgement's body. */
  function AckResult(ack: Json): Option<Json> {
    var body := GetObjectItem(ack, "body");
    if body.Some? then GetObjectItem(body.value, "result") else None
  }

  /** The three members of the result object. */
  lemma AckResultFields(code: string, msg: string)
    ensures var r := AckResultObject(code, msg);
            GetObjectItem(r, "ok") == Some(JBool(CStr(code) == "OK"))
            && GetObjectItem(r, "code") == Some(JString(CStr(code)))
            && GetObjectItem(r, "message") == Some(JString(CStr(msg)))
  {
    var m := AckResultObject(code, msg).members;
    FindMemberFirst(m, "ok", 0);
    assert !SameName(m[0].0, "code");
    FindMemberFirst(m, "code", 1);
    assert !SameName(m[0].0, "message") && !SameName(m[1].0, "message");
    FindMemberFirst(m, "message", 2);
  }

  /** The first three members of an acknowledgement. */
  lemma AckHeader(cmd: ParsedCommand, code: string, msg: string)
    ensures var ack := MakeAck(cmd, code, msg);
            GetObjectItem(ack, "v") == Some(JNumber(1.0))
            && GetObjectItem(ack, "id") == Some(JString(cmd.id))
            && GetObjectItem(ack, "type") == Some(JString("Reply"))
  {
    var m := MakeAck(cmd, code, msg).members;
    FindMemberFirst(m, "v", 0);
    assert !SameName(m[0].0, "id");
    FindMemberFirst(m, "id", 1);
    assert !SameName(m[0].0, "type") && !SameName(m[1].0, "type");
    FindMemberFirst(m, "type", 2);
  }

  /** The echoed name and the source of an acknowledgement. */
  lemma AckEcho(cmd: ParsedCommand, code: string, msg: string)
    ensures var ack := MakeAck(cmd, code, msg);
            GetObjectItem(ack, "name") == Some(JString(cmd.name))
            && GetObjectItem(ack, "src") == Some(JString("lcu"))
  {
    var m := MakeAck(cmd, code, msg).members;
    AckName(m);
    AckSrc(m);
  }

  /** The member names of an acknowledgement, in order. */
  predicate AckNames(m: seq<(string, Json)>) {
    |m| == 6 && m[0].0 == "v" && m[1].0 == "id" && m[2].0 == "type"
    && m[3].0 == "name" && m[4].0 == "src" && m[5].0 == "body"
  }

  lemma AckName(m: seq<(string, Json)>)
    requires AckNames(m)
    ensures FindMember(m, "name") == Some(m[3].1)
  {
    assert !SameName("type", "name") by { assert Lower("type"[0]) != Lower("name"[0]); }
    assert !SameName(m[0].0, "name") && !SameName(m[1].0, "name") && !SameName(m[2].0, "name");
    FindMemberFirst(m, "name", 3);
  }

  lemma AckSrc(m: seq<(string, Json)>)
    requires AckNames(m)
    ensures FindMember(m, "src") == Some(m[4].1)
  {
    assert !SameName(m[0].0, "src") && !SameName(m[1].0, "src") && !SameName(m[2].0, "src") && !SameName(m[3].0, "src");
    FindMemberFirst(m, "src", 4);
  }

  /** The body of an acknowledgement holds the result object. */
  lemma AckBody(cmd: ParsedCommand, code: string, msg: string)
    ensures AckResult(MakeAck(cmd, code, msg)) == Some(AckResultObject(code, msg))
  {
    var m := MakeAck(cmd, code, msg).members;
    assert SameName(m[5].0, "body");
    assert forall j :: 0 <= j < 5 ==> !SameName(m[j].0, "body") by {
      forall j | 0 <= j < 5
        ensures !SameName(m[j].0, "body")
      {
        assert m[j].0 in ["v", "id", "type", "name", "src"];
        assert !SameName("type", "body") by { assert Lower("type"[0]) != Lower("body"[0]); }
        assert !SameName("name", "body") by { assert Lower("name"[0]) != Lower("body"[0]); }
      }
    }
    FindMemberFirst(m, "body", 5);
    FindMemberFirst(m[5].1.members, "result", 0);
  }

  /**
   * What a receiver finds in an acknowledgement: version 1, the command's
   * id and name echoed, type `Reply`, source `lcu`, and a result whose `ok`
   * is true exactly when the code is `OK`.
   */
  lemma AckFields(cmd: ParsedCommand, code: string, msg: string)
    ensures var ack := MakeAck(cmd, code, msg);
            GetObjectItem(ack, "v") == Some(JNumber(1.0))
            && GetObjectItem(ack, "id") == Some(JString(cmd.id))
            && GetObjectItem(ack, "type") == Some(JString("Reply"))
            && GetObjectItem(ack, "name") == Some(JString(cmd.name))
            && GetObjectItem(ack, "src") == Some(JString("lcu"))
            && AckResult(ack).Some?
            && GetObjectItem(AckResult(ack).value, "ok") == Some(JBool(CStr(code) == "OK"))
            && GetObjectItem(AckResult(ack).value, "code") == Some(JString(CStr(code)))
            && GetObjectItem(AckResult(ack).value, "message") == Some(JString(CStr(msg)))
  {
    AckHeader(cmd, code, msg);
    AckEcho(cmd, code, msg);
    AckBody(cmd, code, msg);
    AckResultFields(code, msg);
  }

  /** A string a C array of `n + 1` characters can hold, terminator included. */
  predicate Storable(s: string, n: nat) {
    Nul !in s && |s| <= n
  }

  /** What `Parse_Command_JSON` stores in the id and name is storable, and the kind matches the name. */
  lemma ParsedFieldsStorable(root: Json)
    requires ParseCommand(Some(root)).0
    ensures var c := ParseCommand(Some(root)).1;
            Storable(c.id, IdLen) && Storable(c.name, NameLen)
            && c.cmd != Invalid && c.cmd == KindOf(c.name)
  {
    ParseAccepted(root);
  }

  /** A storable string is its own copy. */
  lemma CopyStorable(s: string, n: nat)
    requires Storable(s, n)
    ensures CopyString(s, n) == s
  {
    CStrOfPlain(s);
  }

  /** An acknowledgement passes the envelope checks of `Parse_Command_JSON`. */
  lemma AckEnvelopeOk(cmd: ParsedCommand, code: string, msg: string)
    ensures EnvelopeOk(MakeAck(cmd, code, msg))
  {
    AckHeader(cmd, code, msg);
    AckEcho(cmd, code, msg);
    AckBody(cmd, code, msg);
  }

  /**
   * An acknowledgement of a parsed command parses back to it: same id,
   * same name, same kind, type `Reply`.
   */
  lemma AckParsesBack(c: ParsedCommand, code: string, msg: string)
    requires Storable(c.id, IdLen) && Storable(c.name, NameLen)
    requires c.cmd != Invalid && c.cmd == KindOf(c.name)
    ensures var back := ParseCommand(Some(MakeAck(c, code, msg)));
            back.0 && back.1.id == c.id && back.1.name == c.name
            && back.1.cmd == c.cmd && back.1.typ == "Reply"
  {
    AckEnvelopeOk(c, code, msg);
    AckHeader(c, code, msg);
    AckEcho(c, code, msg);
    ParseStorableFields(MakeAck(c, code, msg), c.id, c.name);
  }

  /** An envelope whose id, type `Reply` and name are storable parses to exactly those. */
  lemma ParseStorableFields(root: Json, id: string, name: string)
    requires EnvelopeOk(root)
    requires GetObjectItem(root, "id") == Some(JString(id)) && Storable(id, IdLen)
    requires GetObjectItem(root, "type") == Some(JString("Reply"))
    requires GetObjectItem(root, "name") == Some(JString(name)) && Storable(name, NameLen)
    requires KindOf(name) != Invalid
    ensures var r := ParseCommand(Some(root));
            r.0 && r.1.id == id && r.1.name == name && r.1.cmd == KindOf(name) && r.1.typ == "Reply"
  {
    ParseEnvelope(root);
    CopyStorable(id, IdLen);
    CopyStorable(name, NameLen);
    CopyStorable("Reply", TypeLen);
  }

  /** `json_buf`: 1024 characters, so at most 1023 payload bytes. */
  const JsonBufSize: nat := 1024

  /**
   * `Receive_Command_From_WCS`: receive one frame into `json_buf`, parse
   * it, and acknowledge with `OK` / `Command executed`. Nothing is
   * published when the frame is refused or the parse fails. The axis
   * dispatch is commented out in the source, so no drive operation is
   * made on any path: the method has no Modbus master to make one with.
   *
   * `parse` stands for `cJSON_Parse` applied to the NUL-terminated text
   * the payload leaves in `json_buf`; `None` is its NULL.
   */
  method ReceiveCommandFromWcs(ch: CommandChannel, parse: seq<Byte> -> Option<Json>) returns (ack: Option<Publication>)
    modifies ch
    ensures var s := old(ch.Readable());
            match ReadFrame(s, JsonBufSize)
            case Accepted(p) =>
              var r := ParseCommand(parse(p));
              ack == (if r.0 then Some(Publication(AckTopic, MakeAck(r.1, "OK", "Command executed"))) else None)
              && ch.clientOpen && ch.Readable() == s[4 + |p|..]
            case _ =>
              ack == None && !ch.clientOpen
  {
    var jsonBuf := new Byte[JsonBufSize];
    var jsonLen := ch.RecvCommand(jsonBuf, JsonBufSize);
    if jsonLen <= 0 {
      return None;
    }
    var parsed, cmd := ParseCommand(parse(jsonBuf[..jsonLen])).0, ParseCommand(parse(jsonBuf[..jsonLen])).1;
    if !parsed {
      return None;
    }
    ack := Some(Publication(AckTopic, MakeAck(cmd, "OK", "Command executed")));
  }

  /**
   * Every acknowledgement the receive path publishes says `ok`, and carries
   * its message unchanged (the receive path's is `Command executed`).
   */
  lemma ReceivedAckIsOk(cmd: ParsedCommand, msg: string)
    requires Nul !in msg
    ensures var a := MakeAck(cmd, "OK", msg);
            AckResult(a).Some? && GetObjectItem(AckResult(a).value, "ok") == Some(JBool(true))
            && GetObjectItem(AckResult(a).value, "message") == Some(JString(msg))
  {
    AckBody(cmd, "OK", msg);
    AckResultFields("OK", msg);
    assert CStr("OK") == "OK" by {
      CStrOfPlain("OK");
    }
    CStrOfPlain(msg);
  }
}
