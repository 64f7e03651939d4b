# pi-tv-remote CEC adapter, modelled in Dafny

This project models the HDMI-CEC adapter of pi-tv-remote. The adapter lets a
Raspberry Pi act as a CEC device. It turns the TV on and off, becomes the active
source, sends remote-control key presses, and dispatches incoming key presses and
CEC commands to registered callbacks. The project also models two pure helpers of
the transport wrapper and the raw-command decoder of the remote-listener test.

The model is functional. The adapter is an immutable record (`AdapterState.Adapter`)
holding:

- its configuration;
- the transport's capability descriptor: its numeric constants and which optional
  primitives it has;
- the resolved button and opcode tables;
- the `initialized` flag;
- two callback registries.

The transport module (python-cec) is foreign code. The model represents it as an
*oracle* `nat -> bool`, which says whether the n-th transport call made by one
adapter operation returns or raises. Every operation returns the calls it made, in
order. Callbacks are an opaque type parameter. A second oracle says which callbacks
raise, and dispatch returns the list of attempted calls.

Modules, following the source's structure:

- `Wrappers`: the `Option` type.
- `PyValues`: the dynamic Python values that raw CEC events carry. It also defines
  truthiness, `dict.get`, `hasattr` and `getattr`.
- `Hex`: `bytes.fromhex`, including its whitespace rule, and `bytes.hex`. It also
  covers the dotted physical address "1.0.0.0".
- `Constants`: the `RemoteButton` and `CECCommand` class tables with their HDMI-CEC
  defaults, and `update_from_module`'s first-present-candidate resolution.
- `CecUtils`: `import_cec_constants`, and the fill-missing-constants step of
  `get_cec_module`.
- `Registry`: ordered handler lists per key, first-occurrence removal, and
  fault-isolated multicast.
- `Transport`: the capability record, the call trace, and the outcome oracle.
- `AdapterState`: `CECConfig`, the adapter record and `CECAdapter.__init__`.
- `Sender`: `send_command` and the intents built on it.
- `Lifecycle`: `init`, `cleanup` and the guard of `run`.
- `Inbound`: the callback add and remove methods, `handle_keypress` and `handle_command`.
- `Listener`: the four-shape decoder `command_callback`, `button_callback`, and the
  fixture's own `handle_command` in tests/test_remote_listener.py.
- `Session`: end-to-end facts about the first adapter on a transport that has no
  constants of its own.

Points where the code behaves differently from what its names suggest:

- `handle_command` in the adapter decodes only two event shapes: an object with
  `.opcode`, or at least three positional arguments. The four-shape decoder exists
  only in the listener test, and there the dict shape is tried before the object
  shape.
- In the listener's decoder, a dict event without a `parameters` key decodes its
  parameters as None.
- A failed `init` leaves the flag as it was. The flag is false afterwards only when
  it was false before, which is always the case for a fresh adapter.
- The `remove_callback` calls in `cleanup` are outside any `try`, so an exception
  there propagates out of `cleanup`.
- The convenience path of `set_active_source` does not check `initialized`.
- `get_cec_module` discards the result of `import_cec_constants`. The merge is
  modelled on its own.

## Model

| member | source | states |
|---|---|---|
| Hex.FromHex | pi_tv_remote/cec_adapter.py:515 | `bytes.fromhex`: a character that is neither a hex digit nor whitespace makes decoding fail |
| Hex.FromHexDigits | pi_tv_remote/cec_adapter.py:515 | text of hex digits only decodes exactly when its length is even, into one byte per pair of digits, high nibble first |
| Hex.FromHexPair | pi_tv_remote/cec_adapter.py:515 | a leading pair of hex digits becomes the first byte, and the rest decodes or fails on its own |
| Hex.ToHex | pi_tv_remote/cec_adapter.py:515 | the encoder `bytes.hex`, modelled only as the inverse partner of the `bytes.fromhex` decoding on this line: two hex digits per byte |
| Hex.FromHexToHex | pi_tv_remote/cec_adapter.py:515 | decoding the hex text of any byte string gives that byte string back |
| Hex.StripDots | pi_tv_remote/cec_adapter.py:515 | `replace(".", "")` leaves no dot and never lengthens the text |
| Hex.StripDotsNoDot | pi_tv_remote/cec_adapter.py:515 | text without a dot is returned unchanged |
| Hex.StripDotsAppend | pi_tv_remote/cec_adapter.py:515 | stripping a concatenation is the concatenation of the stripped parts, so the kept characters stay in order |
| Hex.StripDotsKeepsOthers | pi_tv_remote/cec_adapter.py:515 | exactly the dots are removed: every other character occurs as often as before |
| Hex.DottedAddressBytes | pi_tv_remote/cec_adapter.py:515 | a dotted address of four hex nibbles a.b.c.d decodes to the two bytes ab and cd |
| Hex.DefaultAddressBytes | pi_tv_remote/cec_adapter.py:228 | the default physical address "1.0.0.0" becomes the parameter bytes 0x10 0x00 |
| Constants.BuiltInButtons | pi_tv_remote/cec_adapter.py:36-73 | before resolution the button table holds exactly the declared names, with colour keys F1-F4 at 0x71-0x74 |
| Constants.BuiltInCommands | pi_tv_remote/cec_adapter.py:159-189 | before resolution the opcode table holds exactly the declared names, with <Image View On> 0x04, <Standby> 0x36, <Active Source> 0x82, <User Control Pressed> 0x44 and <User Control Released> 0x45 |
| Constants.NamesListed | pi_tv_remote/cec_adapter.py:38-73 | the tables of built-in values list every button and every command name |
| Constants.FirstPresent | pi_tv_remote/cec_adapter.py:147-150 | there is no value exactly when no candidate is defined; otherwise the value is that of a defined candidate, and every earlier candidate is undefined |
| Constants.UpdateFromModule | pi_tv_remote/cec_adapter.py:145-150 | the same names stay; a name none of whose candidates the module defines keeps its previous value; otherwise the first defined candidate in list order wins |
| Constants.UpdateIdempotent | pi_tv_remote/cec_adapter.py:216-221 | resolving a second time against the same module changes nothing |
| CecUtils.ImportCecConstants | pi_tv_remote/cec_utils.py:21-135 | the key set is exactly the defaults plus the module's prefixed attributes; prefixed attributes override, and every other key keeps its default |
| CecUtils.ImportKeepsDefaultNames | pi_tv_remote/cec_utils.py:25-123 | all 16 device, 4 event and 15 user-control defaults are always in the result |
| CecUtils.ImportOnlyPrefixed | pi_tv_remote/cec_utils.py:125-133 | every key of the result starts with one of the four prefixes |
| CecUtils.DefaultNamesPrefixed | pi_tv_remote/cec_utils.py:26-120 | every default name carries one of the four prefixes |
| CecUtils.DeviceNamesPrefixed | pi_tv_remote/cec_utils.py:26-43 | every device default is named `CECDEVICE_…` |
| CecUtils.EventNamesPrefixed | pi_tv_remote/cec_utils.py:93-98 | every event default is named `EVENT_…` |
| CecUtils.UserControlNamesPrefixed | pi_tv_remote/cec_utils.py:104-120 | every user-control default is named `CEC_USER_CONTROL_…` |
| CecUtils.ImportOpcodesOnlyFromModule | pi_tv_remote/cec_utils.py:49-133 | a `CEC_OPCODE_…` name is in the result exactly when the module defines it; the opcode list is never used |
| CecUtils.OpcodeNameNotDefault | pi_tv_remote/cec_utils.py:49-90 | no `CEC_OPCODE_…` name has a default |
| CecUtils.PrefixLetter | pi_tv_remote/cec_utils.py:125-133 | a name with a prefix agrees with the prefix letter by letter |
| CecUtils.FillMissing | pi_tv_remote/cec_utils.py:173-191 | only missing device and event constants are added, with their default values, and existing values are never overwritten |
| CecUtils.FillDefinesAdapterNames | pi_tv_remote/cec_utils.py:153-191 | after filling, the TV and broadcast addresses and the keypress and command event classes the adapter reads are always defined |
| CecUtils.OpcodeNameNotFilled | pi_tv_remote/cec_utils.py:153-191 | filling never adds a `CEC_OPCODE_…` name the module lacks |
| CecUtils.NoOpcodesFilled | pi_tv_remote/cec_utils.py:153-191 | a module without opcode constants still has none after filling |
| CecUtils.FillMissingIdempotent | pi_tv_remote/cec_utils.py:173-191 | filling twice is the same as filling once |
| CecUtils.FilledAddresses | pi_tv_remote/cec_utils.py:154-176 | a module without its own TV or broadcast constant gets 0 and 15 |
| Registry.RemoveFirst | pi_tv_remote/cec_adapter.py:327 | `list.remove` of a missing element changes nothing; otherwise the list is one element shorter |
| Registry.RemoveFirstSplit | pi_tv_remote/cec_adapter.py:327 | exactly the first equal occurrence is deleted, and everything before and after it keeps its order |
| Registry.RemoveFirstMultiset | pi_tv_remote/cec_adapter.py:327 | removal takes exactly one copy of the handler out of the multiset of handlers |
| Registry.Add | pi_tv_remote/cec_adapter.py:318-322 | the handler is appended at the end of its key's list, which is created if missing; every other key is unchanged |
| Registry.Remove | pi_tv_remote/cec_adapter.py:324-327 | only the key's list changes, by first-occurrence removal; a missing key or handler changes nothing |
| Registry.AddThenRemove | pi_tv_remote/cec_adapter.py:318-327 | adding a handler that is not registered and then removing it restores every key's list, and the whole map when the key existed |
| Registry.AddThenRemoveSameHandlers | pi_tv_remote/cec_adapter.py:318-327 | adding then removing keeps the multiset of the key's handlers, even when the handler was already there |
| Registry.Multicast | pi_tv_remote/cec_adapter.py:369-373 | one attempt per handler, in list order, each with the same event, whether or not earlier ones raised |
| Registry.FaultsDoNotSkipHandlers | pi_tv_remote/cec_adapter.py:369-373 | the handlers called do not depend on which handlers raise |
| Registry.SecondOfThreeFaults | pi_tv_remote/cec_adapter.py:369-373 | when the middle of three handlers raises, the third is still called |
| Registry.MulticastAppend | pi_tv_remote/cec_adapter.py:369-373 | the attempts for a list with one handler appended are the old attempts followed by that handler's attempt |
| Registry.Dispatch | pi_tv_remote/cec_adapter.py:368-373 | an unregistered key calls nothing; otherwise exactly the key's handlers are called, in order, with the event |
| Registry.DispatchAfterAdd | pi_tv_remote/cec_adapter.py:318-373 | after adding, dispatch under the key is the old dispatch plus one attempt for the new handler |
| Registry.DispatchAfterAddThenRemove | pi_tv_remote/cec_adapter.py:318-373 | adding then removing a new handler leaves dispatch unchanged for every key |
| Transport.TransmitCount | pi_tv_remote/cec_adapter.py:487 | counts transmits; the count is zero exactly when the trace has no transmit |
| Transport.TransmitCountAppend | pi_tv_remote/cec_adapter.py:549-557 | transmits of consecutive traces add up |
| Transport.FirstRaise | pi_tv_remote/cec_adapter.py:440-453 | the position of the first raising call: every earlier call returned |
| Transport.Issue | pi_tv_remote/cec_adapter.py:440-453 | calls outside a `try` stop at the first raise, which is itself made; they complete exactly when none raises |
| AdapterState.DefaultConfigAnnounces | pi_tv_remote/cec_adapter.py:225-226 | without a configuration the device name is "RaspberryPi" and the physical address 1.0.0.0 decodes to the bytes 0x10 0x00 |
| AdapterState.New | pi_tv_remote/cec_adapter.py:237-263 | a new adapter is uninitialised, has empty registries and the given configuration or the default one, and every name it reads is defined; the transport keeps its constants and gains only the missing ones; the class tables are resolved against the filled-in transport |
| AdapterState.SecondConstructionSameTables | pi_tv_remote/cec_adapter.py:259-263 | a second adapter on the same transport re-resolves the shared class tables to the same values |
| AdapterState.FirstAdapter | pi_tv_remote/cec_adapter.py:245-248 | the first adapter of a process starts valid and uninitialised |
| AdapterState.FirstAdapterOnBare | pi_tv_remote/cec_adapter.py:255-263 | on a transport with no constants, the first adapter has TV 0, broadcast 15 and every default opcode |
| AdapterState.DefaultOpcodesKept | pi_tv_remote/cec_adapter.py:194-221 | resolving the default opcodes against a module that defines no `CEC_OPCODE_…` constant changes none of them |
| AdapterState.OpcodeCandidatePrefixed | pi_tv_remote/cec_adapter.py:195-214 | each opcode has exactly one candidate, a `CEC_OPCODE_…` name |
| Sender.SendCommand | pi_tv_remote/cec_adapter.py:475-491 | uninitialised: false and no call; otherwise exactly one transmit of (destination, opcode, parameters), succeeding exactly when it does not raise |
| Sender.PowerOnTv | pi_tv_remote/cec_adapter.py:493-496 | one guarded transmit of the current `IMAGE_VIEW_ON` opcode to address 0 with no parameters |
| Sender.StandbyTv | pi_tv_remote/cec_adapter.py:498-501 | one guarded transmit of `STANDBY` to address 0 |
| Sender.RequestPowerStatus | pi_tv_remote/cec_adapter.py:569-577 | one guarded transmit of `GIVE_DEVICE_POWER_STATUS` to address 0 |
| Sender.RequestVendorId | pi_tv_remote/cec_adapter.py:579-587 | one guarded transmit of `GIVE_DEVICE_VENDOR_ID` to address 0 |
| Sender.AnnounceAddress | pi_tv_remote/cec_adapter.py:514-520 | an undecodable address fails with no call; a decodable one is one guarded broadcast of the current `ACTIVE_SOURCE` opcode with the decoded bytes |
| Sender.SetActiveSource | pi_tv_remote/cec_adapter.py:503-523 | a truthy convenience call succeeds without a transmit, and a raising one fails; a falsy one is followed by the manual announcement; without the primitive only the manual announcement happens; at most one transmit |
| Sender.UndecodableAddressNeverSent | pi_tv_remote/cec_adapter.py:507-523 | an undecodable address is never transmitted, and the call succeeds exactly when the convenience primitive exists and returns truthy |
| Sender.SendRemoteButton | pi_tv_remote/cec_adapter.py:539-567 | uninitialised: no call; a release alone when not pressed; a failed press stops after one call; a press with positive hold is followed by the release, and the result is the release's |
| Sender.ButtonSendShape | pi_tv_remote/cec_adapter.py:544-559 | at most two calls, the press first, and two only after a successful press with a positive hold |
| Lifecycle.Init | pi_tv_remote/cec_adapter.py:265-291 | transport init, then both callback registrations when available; true and initialised exactly when all of them return; otherwise false, the adapter unchanged, and the calls stop at the raising one |
| Lifecycle.Cleanup | pi_tv_remote/cec_adapter.py:293-316 | a no-op when uninitialised; a raise while unregistering propagates; close is preferred over shutdown; only the flag can change, and it is cleared only when the close call raises |
| Lifecycle.CleanupIntended | pi_tv_remote/cec_adapter.py:293-316 | the same calls, but the flag is cleared after every cleanup that gets past unregistering |
| Lifecycle.CleanupKeepsAdapterLive | pi_tv_remote/cec_adapter.py:313-316 | with a transport that never raises, `cleanup` as written leaves the adapter initialised, and `power_on_tv` still transmits |
| Lifecycle.CleanupIntendedSilencesSends | pi_tv_remote/cec_adapter.py:475-477 | after the intended cleanup, every send fails without a call |
| Lifecycle.CleanupIntendedIdempotent | pi_tv_remote/cec_adapter.py:295-296 | a second intended cleanup makes no call |
| Lifecycle.FailedInitStaysOff | pi_tv_remote/cec_adapter.py:289-291 | a fresh adapter whose `init` fails stays uninitialised |
| Lifecycle.RunAfterInit | pi_tv_remote/cec_adapter.py:597-599 | from a fresh adapter, `run` enters its loop exactly when `init` succeeded |
| Lifecycle.RunAfterCleanup | pi_tv_remote/cec_adapter.py:293-316 | after `cleanup` as written with a clean close, `run` still enters its loop; after the intended cleanup it returns at once |
| Inbound.AddButtonCallback | pi_tv_remote/cec_adapter.py:318-322 | appends to the key's button list; nothing else in the adapter changes |
| Inbound.RemoveButtonCallback | pi_tv_remote/cec_adapter.py:324-327 | first-occurrence removal from the key's button list; a no-op when absent; nothing else changes |
| Inbound.AddCommandCallback | pi_tv_remote/cec_adapter.py:329-339 | appends to the opcode's command list; nothing else in the adapter changes |
| Inbound.RemoveCommandCallback | pi_tv_remote/cec_adapter.py:341-353 | first-occurrence removal from the opcode's command list; a no-op when absent; nothing else changes |
| Inbound.HandleKeypress | pi_tv_remote/cec_adapter.py:355-373 | exactly the key's button callbacks, in order, each with (key, duration); nothing for an unregistered key |
| Inbound.CommandOpcode | pi_tv_remote/cec_adapter.py:415-425 | the opcode comes from the `opcode` attribute when present, else from the third positional argument when there are at least three; no opcode otherwise |
| Inbound.HandleCommand | pi_tv_remote/cec_adapter.py:400-436 | an undecodable or non-integer opcode calls nothing; an integer opcode calls exactly its command callbacks, in order, each with the raw (cmd, args) |
| Inbound.FreshAdapterIgnoresEvents | pi_tv_remote/cec_adapter.py:247-248 | a new adapter dispatches no key press and no command to anybody |
| Inbound.ButtonCallbacksIgnoreCommands | pi_tv_remote/cec_adapter.py:247-248 | the two registries are independent: adding a button callback never changes command dispatch |
| Inbound.AddedCommandCallbackRunsLast | pi_tv_remote/cec_adapter.py:337-339 | a newly added command callback runs after all earlier ones for its opcode |
| Inbound.ButtonAddThenRemove | pi_tv_remote/cec_adapter.py:318-327 | adding then removing a new button callback restores key-press dispatch for every key |
| Inbound.AttributeBeatsPositional | pi_tv_remote/cec_adapter.py:415-422 | an `opcode` attribute is used whatever the positional arguments say |
| Listener.ShapeOf | tests/test_remote_listener.py:96-133 | the first matching shape in the fixed order dict, object, sentinel 4, positional; none otherwise |
| Listener.Classify | tests/test_remote_listener.py:96-133 | the decoded message has the matched shape; dict and sentinel events read opcode, parameters, initiator and destination by key with None for a missing key, objects read the attributes, and the positional shape reads `args[0..3]` with parameters None for exactly three arguments |
| Listener.DecodeEncode | tests/test_remote_listener.py:96-128 | each of the four shapes carries a whole message: decoding an encoded message gives back the message and its shape |
| Listener.MissingFieldsAreNone | tests/test_remote_listener.py:97-121 | in the dict shapes, missing parameters, initiator and destination are None |
| Listener.DictShapeFirst | tests/test_remote_listener.py:96-101 | a dict holding "opcode" is decoded as a dict whatever the arguments |
| Listener.SentinelBeatsPositional | tests/test_remote_listener.py:110-128 | the sentinel 4 with a dict first argument wins over the positional reading |
| Listener.ButtonOf | tests/test_remote_listener.py:135-143 | a button exactly for opcode 68, or the current `USER_CONTROL_PRESSED`, with non-empty byte parameters; the button is the first byte |
| Listener.ButtonCallback | tests/test_remote_listener.py:52-57 | the code is added to the detected set, and nothing else is |
| Listener.ButtonCallbackIdempotent | tests/test_remote_listener.py:52-57 | repeating a press leaves the detected set unchanged |
| Listener.CommandCallback | tests/test_remote_listener.py:79-158 | an undecodable event or a non-press adds nothing; a decoded press adds exactly its button |
| Listener.PressRecordedInEveryShape | tests/test_remote_listener.py:135-143 | a <User Control Pressed> in any of the four shapes records exactly its first parameter byte |
| Listener.FixtureHandleCommand | tests/test_remote_listener.py:237-279 | records at most one button, and only for a sentinel event whose dict has opcode 68 and non-empty byte parameters (default empty) |
| Listener.FixtureAgreesOnSentinel | tests/test_remote_listener.py:136-258 | on sentinel events the fixture records no more than `command_callback`, and exactly the same buttons while `USER_CONTROL_PRESSED` is 68 |
| Listener.FixtureMissesResolvedPress | tests/test_remote_listener.py:136-258 | when `USER_CONTROL_PRESSED` has been resolved to another value, a sentinel press with that opcode is recorded by `command_callback` and dropped by the fixture, which tests only 68 |
| Listener.FixtureMissesDictPress | tests/test_remote_listener.py:244-256 | a dict-shaped press that `command_callback` records is ignored by the fixture filter |
| Session.InitOnBareTransport | pi_tv_remote/cec_adapter.py:255-291 | on a transport with no constants, construction then a successful `init` gives an initialised adapter with default opcodes |
| Session.PowerOnSendsImageViewOn | pi_tv_remote/cec_adapter.py:493-496 | `power_on_tv` transmits <Image View On> 0x04 to address 0 with no parameters |
| Session.StandbySendsStandby | pi_tv_remote/cec_adapter.py:498-501 | `standby_tv` transmits <Standby> 0x36 to address 0 |
| Session.PowerStatusSendsGiveDevicePowerStatus | pi_tv_remote/cec_adapter.py:569-577 | `request_power_status` transmits 0x8F to address 0 |
| Session.VendorIdSendsGiveDeviceVendorId | pi_tv_remote/cec_adapter.py:579-587 | `request_vendor_id` transmits 0x8C to address 0 |
| Session.ButtonSendsPressThenRelease | pi_tv_remote/cec_adapter.py:544-567 | a held button is 0x44 with the code, then 0x45 with no parameters, both to the TV |
| Session.ActiveSourceBroadcastsDefaultAddress | pi_tv_remote/cec_adapter.py:514-520 | without a convenience primitive, the default configuration broadcasts <Active Source> 0x82 to 15 with bytes 0x10 0x00 |

## Left out

- Logging, the global `debug_mode` and the timing of `init` (pi_tv_remote/cec_adapter.py:19-27, 270-286). These only produce output.
- The button-name tables of `handle_keypress`, `button_callback` and the fixture are used only for messages. This includes the fixture's table with key 113 written twice.
- `time.sleep` in `send_remote_button` and the polling loop of `run`. Only `run`'s early return is modelled. The hold time is a real number that is only compared with zero.
- The `timeout` parameter of `send_command`. The source accepts it but never uses it.
- The `params` value that `handle_command` computes. The source never uses it after decoding.
- `__del__`, which calls `cleanup`. Finalisation timing belongs to the Python runtime.
- Module import, the Raspberry Pi detection, the fallback messages and `sys.exit` of `get_cec_module` and `is_raspberry_pi`. These are I/O; only the fill-missing step is modelled.
- Pydantic validation of `CECConfig`. The configuration is a plain record with the source's defaults.
- The transport's own behaviour. Each call only returns or raises, as the oracle says, and non-integer module attributes are not represented.
- What a callback does. Only whether it raises is modelled.
- Python values other than None, integers, byte strings, dicts with string keys, and plain objects. Booleans and floats could compare equal to an integer opcode, and they are not represented.
- Listener.ButtonOf: a dict used as parameters raises `KeyError` on `params[0]`, and the callback catches it. A plain object is taken to have no `__getitem__`. Both record nothing, as the model states.
- Threads, signals, `threading.Event`, the fixture's power-up sequence, and its direct transport registrations (tests/test_remote_listener.py:161-369).
- Sender.SendRemoteButton: a code outside 0..255 makes `bytes([code])` raise out of the method before any `try`. The model requires the code to be a byte instead of modelling that exception.

## Findings

| source | as written | input that shows it | evidently intended | confidence | as-written member | corrected member |
|---|---|---|---|---|---|---|
| pi_tv_remote/cec_adapter.py:316 | `self.initialized = False` is indented inside the `except` of the close call, so the flag is cleared only when `close`/`shutdown` raises | an initialised adapter whose transport closes normally: after `cleanup()` the adapter is still initialised, and `power_on_tv()` still transmits | the flag is cleared once cleanup has released the transport, so later sends fail without touching it and a second cleanup is a no-op | high (not executed) | Lifecycle.Cleanup, Lifecycle.CleanupKeepsAdapterLive | Lifecycle.CleanupIntended, Lifecycle.CleanupIntendedSilencesSends |
