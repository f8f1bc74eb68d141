/**
 * `Parse_Command_JSON`: the command envelope sent by the WCS, read from a
 * parsed JSON document into a `ParsedCommand_t`.
 *
 * cJSON's text parser is not part of this model: the parser receives the
 * document cJSON would build, or `None` where `cJSON_Parse` returns NULL.
 */
module CommandParser {
  import opened Wrappers
  import opened CStrings
  import opened Bytes

  /** A cJSON item. Object members keep their order and may repeat a name. */
  datatype Json =
    | JNull
    | JBool(b: bool)
    | JNumber(n: real)
    | JString(s: string)
    | JArray(items: seq<Json>)
    | JObject(members: seq<(string, Json)>)

  /** ASCII lower case, as cJSON compares member names. */
  function Lower(c: char): char {
    if 'A' <= c <= 'Z' then (c as int + 32) as char else c
  }

  /** Member names are compared ignoring ASCII case. */
  predicate SameName(a: string, b: string) {
    |a| == |b| && forall i :: 0 <= i < |a| ==> Lower(a[i]) == Lower(b[i])
  }

  /** The first member of `members` whose name matches `key`. */
  function FindMember(members: seq<(string, Json)>, key: string): (r: Option<Json>)
    ensures r.Some? ==> exists i :: 0 <= i < |members| && SameName(members[i].0, key) && members[i].1 == r.value
    ensures r.None? ==> forall i :: 0 <= i < |members| ==> !SameName(members[i].0, key)
  {
    if members == [] then None
    else if SameName(members[0].0, key) then Some(members[0].1)
    else
      var r := FindMember(members[1..], key);
      assert forall i :: 1 <= i < |members| ==> members[i] == members[1..][i - 1];
      r
  }

  /** The member found is the first one so named: a match at `i` with none before it is the result. */
  lemma {:induction false} FindMemberFirst(members: seq<(string, Json)>, key: string, i: nat)
    requires i < |members| && SameName(members[i].0, key)
    requires forall j :: 0 <= j < i ==> !SameName(members[j].0, key)
    ensures FindMember(members, key) == Some(members[i].1)
  {
    if i > 0 {
      assert !SameName(members[0].0, key);
      assert forall j :: 0 <= j < i - 1 ==> members[1..][j] == members[j + 1];
      FindMemberFirst(members[1..], key, i - 1);
    }
  }

  /** `cJSON_GetObjectItem`: NULL unless `item` is an object with a member so named. */
  function GetObjectItem(item: Json, key: string): Option<Json> {
    if item.JObject? then FindMember(item.members, key) else None
  }

  predicate IsNumber(j: Option<Json>) { j.Some? && j.value.JNumber? }
  predicate IsString(j: Option<Json>) { j.Some? && j.value.JString? }
  predicate IsObject(j: Option<Json>) { j.Some? && j.value.JObject? }

  const IntMax: int := 0x7FFF_FFFF
  const IntMin: int := -0x8000_0000

  /** cJSON's `valueint`: the number saturated to the `int` range, otherwise truncated toward zero. */
  function ValueInt(x: real): (v: int)
    ensures IntMin <= v <= IntMax
  {
    if x >= IntMax as real then IntMax
    else if x <= IntMin as real then IntMin
    else TruncZero(x)
  }

  /** `CommandType_t`. */
  datatype CommandKind =
    | Invalid | Enable | Disable | Halt | Reset | EStop | SetPos | SetAngle
    | Move | MoveDeg | VelocityFwd | VelocityRev | Solenoid

  /** The command-name chain of `Parse_Command_JSON`: exact, case-sensitive, with aliases. */
  function KindOf(name: string): CommandKind {
    if name == "EnableDrive" then Enable
    else if name == "DisableDrive" then Disable
    else if name == "ResetDrive" then Reset
    else if name == "EStop" then EStop
    else if name == "SetAngleParams" then SetAngle
    else if name == "SetMotionParams" then SetPos
    else if name == "Move" then Move
    else if name == "MoveDeg" then MoveDeg
    else if name == "JogFwd" then VelocityFwd
    else if name == "JogRev" then VelocityRev
    else if name == "Halt" then Halt
    else if name == "Solenoid" then Solenoid
    else if name == "Jog" then VelocityFwd
    else if name == "MovePosition" then Move
    else if name == "MoveToPositionDeg" then MoveDeg
    else Invalid
  }

  /** The fifteen names the chain accepts. */
  const CommandNames: seq<string> := [
    "EnableDrive", "DisableDrive", "ResetDrive", "EStop", "SetAngleParams",
    "SetMotionParams", "Move", "MoveDeg", "JogFwd", "JogRev", "Halt",
    "Solenoid", "Jog", "MovePosition", "MoveToPositionDeg"]

  /** The primary name of each kind. */
  function NameOf(k: CommandKind): string {
    match k
    case Invalid => ""
    case Enable => "EnableDrive"
    case Disable => "DisableDrive"
    case Halt => "Halt"
    case Reset => "ResetDrive"
    case EStop => "EStop"
    case SetPos => "SetMotionParams"
    case SetAngle => "SetAngleParams"
    case Move => "Move"
    case MoveDeg => "MoveDeg"
    case VelocityFwd => "JogFwd"
    case VelocityRev => "JogRev"
    case Solenoid => "Solenoid"
  }

  /** A name is recognised exactly when it is one of the fifteen. */
  lemma KindOfRecognises(name: string)
    ensures KindOf(name) != Invalid <==> name in CommandNames
  {}

  /** Every kind but `Invalid` has a name that maps back to it. */
  lemma KindOfNameOf(k: CommandKind)
    requires k != Invalid
    ensures NameOf(k) in CommandNames && KindOf(NameOf(k)) == k
  {}

  /** The aliases: `Jog`, `MovePosition` and `MoveToPositionDeg`. */
  lemma Aliases()
    ensures KindOf("Jog") == KindOf("JogFwd") == VelocityFwd
    ensures KindOf("MovePosition") == KindOf("Move") == Move
    ensures KindOf("MoveToPositionDeg") == KindOf("MoveDeg") == MoveDeg
    ensures KindOf("enabledrive") == Invalid
  {
    JogAlias();
    MoveAliases();
    EnableDriveCase();
  }

  lemma JogAlias()
    ensures KindOf("Jog") == KindOf("JogFwd") == VelocityFwd
  {}

  lemma MoveAliases()
    ensures KindOf("MovePosition") == KindOf("Move") == Move
    ensures KindOf("MoveToPositionDeg") == KindOf("MoveDeg") == MoveDeg
  {}

  lemma EnableDriveCase()
    ensures KindOf("enabledrive") == Invalid
  {}

  /** Capacities of the character arrays of `ParsedCommand_t`, terminator excluded. */
  const IdLen: nat := 63
  const TypeLen: nat := 15
  const NameLen: nat := 31
  const AxisLen: nat := 7

  /** `ParsedCommand_t`; the `float` fields are held as reals. */
  datatype ParsedCommand = ParsedCommand(
    v: int, id: string, typ: string, name: string,
    cmd: CommandKind, axis: string,
    targetDeg: real, targetPos: real, velocity: real, accel: real, decel: real)

  /** The struct after `memset(out, 0, sizeof *out)`. */
  const Zeroed: ParsedCommand := ParsedCommand(0, "", "", "", Invalid, "", 0.0, 0.0, 0.0, 0.0, 0.0)

  /** `strncpy(dst, s, n)` of a cJSON string into an array of `n + 1` zeroed characters. */
  function CopyString(s: string, n: nat): string {
    Prefix(CStr(s), n)
  }

  /** A numeric body field: its value if present and a number, otherwise the zero left by `memset`. */
  function NumberField(body: Json, key: string): real {
    var f := GetObjectItem(body, key);
    if IsNumber(f) then f.value.n else 0.0
  }

  /** The envelope checks of `Parse_Command_JSON`. */
  predicate EnvelopeOk(root: Json) {
    IsNumber(GetObjectItem(root, "v")) && IsString(GetObjectItem(root, "id"))
    && IsString(GetObjectItem(root, "type")) && IsString(GetObjectItem(root, "name"))
    && IsObject(GetObjectItem(root, "body"))
  }

  /**
   * `Parse_Command_JSON`: whether it returns true, and what it leaves in
   * `*out`. A document that fails the envelope checks leaves the zeroed
   * struct; an unknown name leaves the envelope fields filled in and the
   * kind `Invalid`; otherwise the body fields are read as well.
   */
  function ParseCommand(root: Option<Json>): (r: (bool, ParsedCommand))
    ensures !r.0 && (root.None? || !EnvelopeOk(root.value)) ==> r.1 == Zeroed
    ensures r.0 <==> root.Some? && EnvelopeOk(root.value) && KindOf(r.1.name) != Invalid
    ensures r.1.cmd == KindOf(r.1.name) || r.1 == Zeroed
    ensures |r.1.id| <= IdLen && |r.1.typ| <= TypeLen && |r.1.name| <= NameLen && |r.1.axis| <= AxisLen
  {
    if root.None? || !EnvelopeOk(root.value) then (false, Zeroed)
    else
      var j := root.value;
      var out := Zeroed.(
        v := ValueInt(GetObjectItem(j, "v").value.n),
        id := CopyString(GetObjectItem(j, "id").value.s, IdLen),
        typ := CopyString(GetObjectItem(j, "type").value.s, TypeLen),
        name := CopyString(GetObjectItem(j, "name").value.s, NameLen));
      var kind := KindOf(out.name);
      if kind == Invalid then (false, out.(cmd := Invalid))
      else
        var body := GetObjectItem(j, "body").value;
        var axis := GetObjectItem(body, "axis");
        (true, out.(
          cmd := kind,
          axis := if IsString(axis) then CopyString(axis.value.s, AxisLen) else "",
          targetDeg := NumberField(body, "target_deg"),
          targetPos := NumberField(body, "target_pos"),
          velocity := NumberField(body, "velocity"),
          accel := NumberField(body, "accel"),
          decel := NumberField(body, "decel")))
  }

  /**
   * `dst` is what `strncpy` leaves of `src` in an array of `n + 1` zeroed
   * characters: the characters of `src` up to its first NUL, its end or
   * the `n`th, whichever comes first.
   */
  predicate CopiedFrom(dst: string, src: string, n: nat) {
    |dst| <= n && dst <= src && Nul !in dst
    && (|dst| < n ==> |dst| == |src| || src[|dst|] == Nul)
  }

  /** `CopyString` is exactly that copy. */
  lemma CopyStringCopies(s: string, n: nat)
    ensures CopiedFrom(CopyString(s, n), s, n)
  {
    var c := CStr(s);
    var r := CopyString(s, n);
    assert r == c[..|r|] && c == s[..|c|];
    assert r == s[..|r|];
    assert forall k :: 0 <= k < |r| ==> r[k] == c[k];
  }

  /** `f` is a body field as the parser reads it: the number present under the key, or zero. */
  predicate ReadsNumber(f: real, j: Option<Json>) {
    (j.Some? && j.value.JNumber? ==> f == j.value.n)
    && (j.None? || !j.value.JNumber? ==> f == 0.0)
  }

  /**
   * A successful parse: the kind is the name's, the strings are the
   * document's strings cut at NUL or at their capacity, the axis is empty
   * when the body has no string under "axis", and each numeric body field
   * is the number under its key or zero.
   */
  lemma ParseAccepted(root: Json)
    requires ParseCommand(Some(root)).0
    ensures var c := ParseCommand(Some(root)).1;
            var body := GetObjectItem(root, "body").value;
            var axis := GetObjectItem(body, "axis");
            c.cmd != Invalid && c.cmd == KindOf(c.name)
            && c.v == ValueInt(GetObjectItem(root, "v").value.n)
            && CopiedFrom(c.id, GetObjectItem(root, "id").value.s, IdLen)
            && CopiedFrom(c.typ, GetObjectItem(root, "type").value.s, TypeLen)
            && CopiedFrom(c.name, GetObjectItem(root, "name").value.s, NameLen)
            && (IsString(axis) ==> CopiedFrom(c.axis, axis.value.s, AxisLen))
            && (!IsString(axis) ==> c.axis == "")
            && ReadsNumber(c.targetDeg, GetObjectItem(body, "target_deg"))
            && ReadsNumber(c.targetPos, GetObjectItem(body, "target_pos"))
            && ReadsNumber(c.velocity, GetObjectItem(body, "velocity"))
            && ReadsNumber(c.accel, GetObjectItem(body, "accel"))
            && ReadsNumber(c.decel, GetObjectItem(body, "decel"))
  {
    CopyStringCopies(GetObjectItem(root, "id").value.s, IdLen);
    CopyStringCopies(GetObjectItem(root, "type").value.s, TypeLen);
    CopyStringCopies(GetObjectItem(root, "name").value.s, NameLen);
    var axis := GetObjectItem(GetObjectItem(root, "body").value, "axis");
    if IsString(axis) {
      CopyStringCopies(axis.value.s, AxisLen);
    }
  }

  /**
   * Past the envelope checks, the id, type and name are copied whether or
   * not the name is recognised, and the result is true exactly when it is.
   */
  lemma ParseEnvelope(root: Json)
    requires EnvelopeOk(root)
    ensures var r := ParseCommand(Some(root));
            r.1.id == CopyString(GetObjectItem(root, "id").value.s, IdLen)
            && r.1.typ == CopyString(GetObjectItem(root, "type").value.s, TypeLen)
            && r.1.name == CopyString(GetObjectItem(root, "name").value.s, NameLen)
            && r.1.cmd == KindOf(r.1.name)
            && (r.0 <==> KindOf(r.1.name) != Invalid)
  {}

  /** The name is looked up after truncation: a name that only matches beyond 31 characters is not recognised. */
  lemma NameTruncatedBeforeLookup(s: string)
    requires Nul !in s && |s| > NameLen
    ensures CopyString(s, NameLen) == s[..NameLen]
    ensures KindOf(CopyString(s, NameLen)) == Invalid
  {
    CStrOfPlain(s);
  }
}
