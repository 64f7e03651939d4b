/**
 * Inbound events: the two callback registries of an adapter and the two entry
 * points the transport calls, `handle_keypress` and `handle_command`.
 */
module Inbound {
  import opened Wrappers
  import opened PyValues
  import opened Registry
  import opened Transport
  import opened AdapterState

  /** The arguments a button callback receives: `(key_code, duration)`. */
  datatype KeyEvent = KeyEvent(code: int, duration: int)

  /** The arguments a command callback receives: the raw `(cmd, *args)`, unchanged. */
  datatype RawEvent = RawEvent(cmd: Value, args: seq<Value>)

  /** `add_button_callback`: only the button registry changes. */
  function AddButtonCallback<H>(a: Adapter<H>, code: int, h: H): (r: Adapter<H>)
    ensures r.(buttonCallbacks := a.buttonCallbacks) == a
    ensures Handlers(r.buttonCallbacks, code) == Handlers(a.buttonCallbacks, code) + [h]
    ensures forall k :: k != code ==> Handlers(r.buttonCallbacks, k) == Handlers(a.buttonCallbacks, k)
  {
    a.(buttonCallbacks := Add(a.buttonCallbacks, code, h))
  }

  /** `remove_button_callback`: the first equal handler goes; a missing key or handler changes nothing. */
  function RemoveButtonCallback<H(==)>(a: Adapter<H>, code: int, h: H): (r: Adapter<H>)
    ensures r.(buttonCallbacks := a.buttonCallbacks) == a
    ensures Handlers(r.buttonCallbacks, code) == RemoveFirst(Handlers(a.buttonCallbacks, code), h)
    ensures forall k :: k != code ==> Handlers(r.buttonCallbacks, k) == Handlers(a.buttonCallbacks, k)
    ensures h !in Handlers(a.buttonCallbacks, code) ==> r == a
  {
    a.(buttonCallbacks := Remove(a.buttonCallbacks, code, h))
  }

  /** `add_command_callback`: only the command registry changes. */
  function AddCommandCallback<H>(a: Adapter<H>, opcode: int, h: H): (r: Adapter<H>)
    ensures r.(commandCallbacks := a.commandCallbacks) == a
    ensures Handlers(r.commandCallbacks, opcode) == Handlers(a.commandCallbacks, opcode) + [h]
    ensures forall k :: k != opcode ==> Handlers(r.commandCallbacks, k) == Handlers(a.commandCallbacks, k)
  {
    a.(commandCallbacks := Add(a.commandCallbacks, opcode, h))
  }

  /** `remove_command_callback`: the first equal handler goes; a missing key or handler changes nothing. */
  function RemoveCommandCallback<H(==)>(a: Adapter<H>, opcode: int, h: H): (r: Adapter<H>)
    ensures r.(commandCallbacks := a.commandCallbacks) == a
    ensures Handlers(r.commandCallbacks, opcode) == RemoveFirst(Handlers(a.commandCallbacks, opcode), h)
    ensures forall k :: k != opcode ==> Handlers(r.commandCallbacks, k) == Handlers(a.commandCallbacks, k)
    ensures h !in Handlers(a.commandCallbacks, opcode) ==> r == a
  {
    a.(commandCallbacks := Remove(a.commandCallbacks, opcode, h))
  }

  /**
   * `handle_keypress(code, duration)`: every button callback under `code`, in
   * registration order, each with `(code, duration)`; one that raises is logged
   * and the rest still run.
   */
  function HandleKeypress<H>(a: Adapter<H>, code: int, duration: int, faults: (H, KeyEvent) -> bool): (r: seq<Attempt<H, KeyEvent>>)
    ensures Called(r) == Handlers(a.buttonCallbacks, code)
    ensures forall i :: 0 <= i < |r| ==> r[i].event == KeyEvent(code, duration)
    ensures code !in a.buttonCallbacks ==> r == []
  {
    Dispatch(a.buttonCallbacks, code, KeyEvent(code, duration), faults)
  }

  /**
   * The opcode `handle_command` reads: `cmd.opcode` when `cmd` has that
   * attribute, else the third positional argument when there are at least three;
   * None for any other shape (the event is dropped).
   */
  function CommandOpcode(cmd: Value, args: seq<Value>): (r: Option<Value>)
    ensures HasAttr(cmd, "opcode") ==> r == Some(cmd.attrs["opcode"])
    ensures !HasAttr(cmd, "opcode") && |args| >= 3 ==> r == Some(args[2])
    ensures r.None? <==> !HasAttr(cmd, "opcode") && |args| < 3
  {
    if HasAttr(cmd, "opcode") then Some(GetAttr(cmd, "opcode"))
    else if |args| >= 3 then Some(args[2])
    else None
  }

  /**
   * `handle_command(cmd, *args)`: the command callbacks under the decoded opcode,
   * in order, each with the raw event. Only an integer opcode can equal a key of
   * the registry; anything else dispatches to nobody.
   */
  function HandleCommand<H>(a: Adapter<H>, cmd: Value, args: seq<Value>, faults: (H, RawEvent) -> bool): (r: seq<Attempt<H, RawEvent>>)
    ensures CommandOpcode(cmd, args).None? ==> r == []
    ensures forall k :: CommandOpcode(cmd, args) == Some(Int(k)) ==> Called(r) == Handlers(a.commandCallbacks, k)
    ensures (forall k :: CommandOpcode(cmd, args) != Some(Int(k))) ==> r == []
    ensures forall i :: 0 <= i < |r| ==> r[i].event == RawEvent(cmd, args)
  {
    match CommandOpcode(cmd, args)
    case Some(Int(k)) => Dispatch(a.commandCallbacks, k, RawEvent(cmd, args), faults)
    case _ => []
  }

  /** A new adapter has no callbacks: every event it receives reaches nobody. */
  lemma FreshAdapterIgnoresEvents<H>(config: Option<Config>, transport: Capability, code: int, duration: int, cmd: Value, args: seq<Value>,
                                     keyFaults: (H, KeyEvent) -> bool, commandFaults: (H, RawEvent) -> bool)
    ensures HandleKeypress(FirstAdapter<H>(config, transport), code, duration, keyFaults) == []
    ensures HandleCommand(FirstAdapter<H>(config, transport), cmd, args, commandFaults) == []
  {
  }

  /** The two registries are independent: a button callback never receives commands, whatever its key. */
  lemma ButtonCallbacksIgnoreCommands<H>(a: Adapter<H>, code: int, h: H, cmd: Value, args: seq<Value>, faults: (H, RawEvent) -> bool)
    ensures HandleCommand(AddButtonCallback(a, code, h), cmd, args, faults) == HandleCommand(a, cmd, args, faults)
  {
  }

  /** A newly added command callback runs last for its opcode, after every earlier one. */
  lemma AddedCommandCallbackRunsLast<H>(a: Adapter<H>, opcode: int, h: H, cmd: Value, args: seq<Value>, faults: (H, RawEvent) -> bool)
    requires CommandOpcode(cmd, args) == Some(Int(opcode))
    ensures Called(HandleCommand(AddCommandCallback(a, opcode, h), cmd, args, faults)) ==
            Called(HandleCommand(a, cmd, args, faults)) + [h]
  {
  }

  /** Adding then removing a fresh button callback restores the keypress dispatch for every key. */
  lemma ButtonAddThenRemove<H>(a: Adapter<H>, code: int, h: H, key: int, duration: int, faults: (H, KeyEvent) -> bool)
    requires h !in Handlers(a.buttonCallbacks, code)
    ensures HandleKeypress(RemoveButtonCallback(AddButtonCallback(a, code, h), code, h), key, duration, faults) ==
            HandleKeypress(a, key, duration, faults)
  {
    DispatchAfterAddThenRemove(a.buttonCallbacks, code, h, KeyEvent(key, duration), faults);
  }

  /** An object with an `opcode` attribute is decoded from that attribute, whatever the positional arguments say. */
  lemma AttributeBeatsPositional(cmd: Value, args: seq<Value>, k: int)
    requires cmd.Obj? && "opcode" in cmd.attrs && cmd.attrs["opcode"] == Int(k)
    ensures CommandOpcode(cmd, args) == Some(Int(k))
  {
  }
}
