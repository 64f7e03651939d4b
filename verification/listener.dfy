/**
 * The remote-listener test's decoding of raw command events: four event shapes
 * tried in a fixed order, extraction of a button code from <User Control
 * Pressed>, the detected-button set, and the fixture's narrower filter.
 */
module Listener {
  import opened Wrappers
  import opened PyValues

  /** The shapes a raw command event can take, in the order they are tried. */
  datatype Shape =
    | DictShape        // `cmd` is a dict holding "opcode"
    | ObjectShape      // `cmd` has an `opcode` attribute
    | SentinelShape    // `cmd` is the integer 4 and `args[0]` is a dict
    | PositionalShape  // `args` is (source, destination, opcode[, parameters])

  /** The four fields of a CEC message, as untyped values; a missing field is None. */
  datatype Message = Message(opcode: Value, parameters: Value, source: Value, destination: Value)

  datatype Decoded = Decoded(shape: Shape, message: Message)

  /** The integer that announces a dict-in-first-argument event. */
  const Sentinel: int := 4

  /** <User Control Pressed>, as the listener spells it literally. */
  const UserControlPressedOpcode: int := 0x44

  predicate IsDictWithOpcode(cmd: Value) {
    cmd.Dict? && "opcode" in cmd.entries
  }

  predicate IsSentinel(cmd: Value, args: seq<Value>) {
    cmd == Int(Sentinel) && |args| > 0 && args[0].Dict?
  }

  /** The first shape, in priority order, that the event matches. */
  function ShapeOf(cmd: Value, args: seq<Value>): (r: Option<Shape>)
    ensures r == Some(DictShape) <==> IsDictWithOpcode(cmd)
    ensures r == Some(ObjectShape) <==> !IsDictWithOpcode(cmd) && HasAttr(cmd, "opcode")
    ensures r == Some(SentinelShape) <==> !IsDictWithOpcode(cmd) && !HasAttr(cmd, "opcode") && IsSentinel(cmd, args)
    ensures r.None? <==> !IsDictWithOpcode(cmd) && !HasAttr(cmd, "opcode") && !IsSentinel(cmd, args) && |args| < 3
  {
    if IsDictWithOpcode(cmd) then Some(DictShape)
    else if HasAttr(cmd, "opcode") then Some(ObjectShape)
    else if IsSentinel(cmd, args) then Some(SentinelShape)
    else if |args| >= 3 then Some(PositionalShape)
    else None
  }

  /** A message read from a dict by key, None where a key is missing. */
  function FromEntries(entries: map<string, Value>): Message {
    Message(Get(entries, "opcode", PyNone), Get(entries, "parameters", PyNone),
            Get(entries, "initiator", PyNone), Get(entries, "destination", PyNone))
  }

  /**
   * `command_callback`'s decoding: the message of the first matching shape, or
   * None when no shape matches (the callback then returns).
   */
  function Classify(cmd: Value, args: seq<Value>): (r: Option<Decoded>)
    ensures r.None? <==> ShapeOf(cmd, args).None?
    ensures r.Some? ==> r.value.shape == ShapeOf(cmd, args).value
    ensures r.Some? && r.value.shape == DictShape ==>
              r.value.message == Message(cmd.entries["opcode"], Get(cmd.entries, "parameters", PyNone),
                                         Get(cmd.entries, "initiator", PyNone), Get(cmd.entries, "destination", PyNone))
    ensures r.Some? && r.value.shape == ObjectShape ==>
              r.value.message == Message(cmd.attrs["opcode"], GetAttr(cmd, "parameters"), GetAttr(cmd, "initiator"), GetAttr(cmd, "destination"))
    ensures r.Some? && r.value.shape == SentinelShape ==>
              r.value.message == Message(Get(args[0].entries, "opcode", PyNone), Get(args[0].entries, "parameters", PyNone),
                                         Get(args[0].entries, "initiator", PyNone), Get(args[0].entries, "destination", PyNone))
    ensures r.Some? && r.value.shape == PositionalShape ==>
              && r.value.message.source == args[0]
              && r.value.message.destination == args[1]
              && r.value.message.opcode == args[2]
              && r.value.message.parameters == (if |args| > 3 then args[3] else PyNone)
  {
    match ShapeOf(cmd, args)
    case None => None
    case Some(DictShape) => Some(Decoded(DictShape, FromEntries(cmd.entries)))
    case Some(ObjectShape) =>
      Some(Decoded(ObjectShape, Message(GetAttr(cmd, "opcode"), GetAttr(cmd, "parameters"),
                                        GetAttr(cmd, "initiator"), GetAttr(cmd, "destination"))))
    case Some(SentinelShape) => Some(Decoded(SentinelShape, FromEntries(args[0].entries)))
    case Some(PositionalShape) =>
      Some(Decoded(PositionalShape, Message(args[2], if |args| > 3 then args[3] else PyNone, args[0], args[1])))
  }

  /** The fields of a message as dict entries or object attributes. */
  function Fields(m: Message): map<string, Value> {
    map["opcode" := m.opcode, "parameters" := m.parameters, "initiator" := m.source, "destination" := m.destination]
  }

  /** How a sender would present a message in each shape. */
  function Encode(shape: Shape, m: Message): (Value, seq<Value>) {
    match shape
    case DictShape => (Dict(Fields(m)), [])
    case ObjectShape => (Obj(Fields(m)), [])
    case SentinelShape => (Int(Sentinel), [Dict(Fields(m))])
    case PositionalShape => (PyNone, [m.source, m.destination, m.opcode, m.parameters])
  }

  /** Every shape carries a whole message: decoding an encoded message recovers it and its shape. */
  lemma DecodeEncode(shape: Shape, m: Message)
    ensures Classify(Encode(shape, m).0, Encode(shape, m).1) == Some(Decoded(shape, m))
  {
    var f := Fields(m);
    assert "opcode" in f && f["opcode"] == m.opcode;
    assert FromEntries(f) == m;
  }

  /** In the dict shapes a message with only an opcode decodes with None for the other fields. */
  lemma MissingFieldsAreNone(opcode: Value, args: seq<Value>)
    ensures Classify(Dict(map["opcode" := opcode]), args) == Some(Decoded(DictShape, Message(opcode, PyNone, PyNone, PyNone)))
    ensures Classify(Int(Sentinel), [Dict(map["opcode" := opcode])] + args) == Some(Decoded(SentinelShape, Message(opcode, PyNone, PyNone, PyNone)))
  {
  }

  /** A dict holding "opcode" is a dict event even when it also looks positional. */
  lemma DictShapeFirst(entries: map<string, Value>, args: seq<Value>)
    requires "opcode" in entries
    ensures ShapeOf(Dict(entries), args) == Some(DictShape)
  {
  }

  /** The sentinel beats the positional reading of the same arguments. */
  lemma SentinelBeatsPositional(args: seq<Value>)
    requires |args| >= 3 && args[0].Dict?
    ensures ShapeOf(Int(Sentinel), args) == Some(SentinelShape)
  {
  }

  /**
   * The button code a decoded message carries: the first parameter byte of a
   * <User Control Pressed> (68, or the current `USER_CONTROL_PRESSED`), when the
   * parameters are a non-empty byte string. Other values either have no first
   * item or raise on indexing, which the callback catches.
   */
  function ButtonOf(m: Message, pressedOpcode: int): (r: Option<int>)
    ensures r.Some? <==> (m.opcode == Int(UserControlPressedOpcode) || m.opcode == Int(pressedOpcode))
                         && m.parameters.Bytes? && |m.parameters.items| > 0
    ensures r.Some? ==> r.value == m.parameters.items[0] && 0 <= r.value < 256
  {
    if (m.opcode == Int(UserControlPressedOpcode) || m.opcode == Int(pressedOpcode))
       && m.parameters.Bytes? && |m.parameters.items| > 0
    then Some(m.parameters.items[0])
    else None
  }

  /** `button_callback`: the code joins the detected set. */
  function ButtonCallback(detected: set<int>, code: int): (r: set<int>)
    ensures code in r
    ensures detected <= r && r - {code} <= detected
  {
    detected + {code}
  }

  /** Pressing the same button again leaves the detected set as it is. */
  lemma ButtonCallbackIdempotent(detected: set<int>, code: int)
    ensures ButtonCallback(ButtonCallback(detected, code), code) == ButtonCallback(detected, code)
  {
  }

  /**
   * `command_callback(cmd, *args)`'s effect on the detected set: the button code
   * of a decoded <User Control Pressed>, if any, is recorded.
   */
  function CommandCallback(detected: set<int>, cmd: Value, args: seq<Value>, pressedOpcode: int): (r: set<int>)
    ensures Classify(cmd, args).None? ==> r == detected
    ensures Classify(cmd, args).Some? && ButtonOf(Classify(cmd, args).value.message, pressedOpcode).Some? ==>
              r == detected + {ButtonOf(Classify(cmd, args).value.message, pressedOpcode).value}
    ensures Classify(cmd, args).Some? && ButtonOf(Classify(cmd, args).value.message, pressedOpcode).None? ==> r == detected
    ensures detected <= r && |r - detected| <= 1
  {
    match Classify(cmd, args)
    case None => detected
    case Some(d) =>
      match ButtonOf(d.message, pressedOpcode)
      case None => detected
      case Some(code) =>
        assert ButtonCallback(detected, code) - detected <= {code};
        ButtonCallback(detected, code)
  }

  /** A <User Control Pressed> in any shape records exactly its first parameter byte. */
  lemma PressRecordedInEveryShape(shape: Shape, code: byte, rest: seq<byte>, source: Value, destination: Value, detected: set<int>, pressedOpcode: int)
    ensures var m := Message(Int(UserControlPressedOpcode), Bytes([code] + rest), source, destination);
            CommandCallback(detected, Encode(shape, m).0, Encode(shape, m).1, pressedOpcode) == detected + {code}
  {
    DecodeEncode(shape, Message(Int(UserControlPressedOpcode), Bytes([code] + rest), source, destination));
  }

  /**
   * The fixture's own `handle_command`: only a sentinel event whose dict has
   * opcode 68 and non-empty byte-string parameters (defaulting to empty bytes)
   * records a button.
   */
  function FixtureHandleCommand(detected: set<int>, cmd: Value, args: seq<Value>): (r: set<int>)
    ensures !IsSentinel(cmd, args) ==> r == detected
    ensures detected <= r && |r - detected| <= 1
    ensures forall code :: code in r - detected ==>
              && IsSentinel(cmd, args)
              && Get(args[0].entries, "opcode", PyNone) == Int(UserControlPressedOpcode)
              && Get(args[0].entries, "parameters", Bytes([])).Bytes?
              && 0 < |Get(args[0].entries, "parameters", Bytes([])).items|
              && code == Get(args[0].entries, "parameters", Bytes([])).items[0]
  {
    if IsSentinel(cmd, args) then
      var opcode := Get(args[0].entries, "opcode", PyNone);
      var parameters := Get(args[0].entries, "parameters", Bytes([]));
      if opcode == Int(UserControlPressedOpcode) && parameters.Bytes? && |parameters.items| > 0 then
        assert detected + {parameters.items[0]} - detected <= {parameters.items[0]};
        detected + {parameters.items[0]}
      else detected
    else detected
  }

  /**
   * On sentinel events the fixture filter records no more than `command_callback`,
   * and exactly the same buttons while `USER_CONTROL_PRESSED` still holds 68.
   */
  lemma FixtureAgreesOnSentinel(detected: set<int>, cmd: Value, args: seq<Value>, pressedOpcode: int)
    requires IsSentinel(cmd, args)
    ensures FixtureHandleCommand(detected, cmd, args) <= CommandCallback(detected, cmd, args, pressedOpcode)
    ensures pressedOpcode == UserControlPressedOpcode ==>
              FixtureHandleCommand(detected, cmd, args) == CommandCallback(detected, cmd, args, pressedOpcode)
  {
  }

  /**
   * Once `USER_CONTROL_PRESSED` has been resolved to another value, a sentinel
   * press with that opcode is recorded by `command_callback` but not by the fixture.
   */
  lemma FixtureMissesResolvedPress(code: byte, pressedOpcode: int)
    requires pressedOpcode != UserControlPressedOpcode
    ensures var m := Message(Int(pressedOpcode), Bytes([code]), PyNone, PyNone);
            && FixtureHandleCommand({}, Encode(SentinelShape, m).0, Encode(SentinelShape, m).1) == {}
            && CommandCallback({}, Encode(SentinelShape, m).0, Encode(SentinelShape, m).1, pressedOpcode) == {code}
  {
    var m := Message(Int(pressedOpcode), Bytes([code]), PyNone, PyNone);
    DecodeEncode(SentinelShape, m);
    assert Fields(m)["opcode"] == Int(pressedOpcode);
  }

  /** Outside the sentinel shape the fixture filter misses presses that `command_callback` records. */
  lemma FixtureMissesDictPress(code: byte)
    ensures var m := Message(Int(UserControlPressedOpcode), Bytes([code]), PyNone, PyNone);
            && FixtureHandleCommand({}, Encode(DictShape, m).0, Encode(DictShape, m).1) == {}
            && CommandCallback({}, Encode(DictShape, m).0, Encode(DictShape, m).1, UserControlPressedOpcode) == {code}
  {
    DecodeEncode(DictShape, Message(Int(UserControlPressedOpcode), Bytes([code]), PyNone, PyNone));
  }
}
