/**
 * The adapter's symbolic button codes and command opcodes (`RemoteButton`,
 * `CECCommand`) and how they are resolved against the transport module.
 *
 * Each symbolic name has a built-in default (the HDMI-CEC values: [UI Command]
 * codes for buttons, opcodes for commands) and an ordered list of candidate
 * constant names. Resolution gives each name the value of the first candidate
 * the module defines; a name with no defined candidate keeps its previous value.
 * The tables are class attributes shared by the whole process, so "previous"
 * is whatever an earlier resolution left there, the defaults the first time.
 */
module Constants {
  import opened Wrappers

  /** The numeric constants a module exposes, by attribute name. */
  type Table = map<string, int>

  /** The attributes of `RemoteButton`. */
  datatype Button =
    | Select | Up | Down | Left | Right | Back | VolumeUp | VolumeDown | Mute | Play | Stop
    | Pause | Rewind | FastForward | Blue | Red | Green | Yellow | Number0 | Number1 | Number2
    | Number3 | Number4 | Number5 | Number6 | Number7 | Number8 | Number9

  /** The attributes of `CECCommand`. */
  datatype Command =
    | ImageViewOn | Standby | GiveDevicePowerStatus | ReportPowerStatus | ActiveSource
    | SetStreamPath | RoutingChange | GivePhysicalAddr | ReportPhysicalAddr | GiveOsdName
    | SetOsdName | GiveDeviceVendorId | DeviceVendorId | GiveDeckStatus | DeckStatus
    | UserControlPressed | UserControlReleased | VendorCommand

  const AllButtons := {
    Select, Up, Down, Left, Right, Back, VolumeUp, VolumeDown, Mute, Play, Stop, Pause, Rewind,
    FastForward, Blue, Red, Green, Yellow, Number0, Number1, Number2, Number3, Number4,
    Number5, Number6, Number7, Number8, Number9
  }

  const AllCommands := {
    ImageViewOn, Standby, GiveDevicePowerStatus, ReportPowerStatus, ActiveSource,
    SetStreamPath, RoutingChange, GivePhysicalAddr, ReportPhysicalAddr, GiveOsdName,
    SetOsdName, GiveDeviceVendorId, DeviceVendorId, GiveDeckStatus, DeckStatus,
    UserControlPressed, UserControlReleased, VendorCommand
  }

  /** The name tables list every symbolic name. */
  lemma NamesListed()
    ensures forall x: Button :: x in AllButtons
    ensures forall x: Command :: x in AllCommands
  {
    forall x: Button
      ensures x in AllButtons
    {
      match x
      case Select =>
      case Up =>
      case Down =>
      case Left =>
      case Right =>
      case Back =>
      case VolumeUp =>
      case VolumeDown =>
      case Mute =>
      case Play =>
      case Stop =>
      case Pause =>
      case Rewind =>
      case FastForward =>
      case Blue =>
      case Red =>
      case Green =>
      case Yellow =>
      case Number0 =>
      case Number1 =>
      case Number2 =>
      case Number3 =>
      case Number4 =>
      case Number5 =>
      case Number6 =>
      case Number7 =>
      case Number8 =>
      case Number9 =>
    }
    forall x: Command
      ensures x in AllCommands
    {
      match x
      case ImageViewOn =>
      case Standby =>
      case GiveDevicePowerStatus =>
      case ReportPowerStatus =>
      case ActiveSource =>
      case SetStreamPath =>
      case RoutingChange =>
      case GivePhysicalAddr =>
      case ReportPhysicalAddr =>
      case GiveOsdName =>
      case SetOsdName =>
      case GiveDeviceVendorId =>
      case DeviceVendorId =>
      case GiveDeckStatus =>
      case DeckStatus =>
      case UserControlPressed =>
      case UserControlReleased =>
      case VendorCommand =>
    }
  }

  /** Built-in [UI Command] codes of HDMI-CEC (HDMI 1.4b Supplement 1). */
  function ButtonDefault(x: Button): int {
    match x
    case Select => 0x00
    case Up => 0x01
    case Down => 0x02
    case Left => 0x03
    case Right => 0x04
    case Back => 0x0D
    case VolumeUp => 0x41
    case VolumeDown => 0x42
    case Mute => 0x43
    case Play => 0x44
    case Stop => 0x45
    case Pause => 0x46
    case Rewind => 0x48
    case FastForward => 0x49
    case Blue => 0x71
    case Red => 0x72
    case Green => 0x73
    case Yellow => 0x74
    case Number0 => 0x20
    case Number1 => 0x21
    case Number2 => 0x22
    case Number3 => 0x23
    case Number4 => 0x24
    case Number5 => 0x25
    case Number6 => 0x26
    case Number7 => 0x27
    case Number8 => 0x28
    case Number9 => 0x29
  }

  /** The module constants that may replace a button code, in preference order. */
  function ButtonCandidates(x: Button): seq<string> {
    match x
    case Select => ["CEC_USER_CONTROL_CODE_SELECT", "CEC_USER_CONTROL_SELECT"]
    case Up => ["CEC_USER_CONTROL_CODE_UP", "CEC_USER_CONTROL_UP"]
    case Down => ["CEC_USER_CONTROL_CODE_DOWN", "CEC_USER_CONTROL_DOWN"]
    case Left => ["CEC_USER_CONTROL_CODE_LEFT", "CEC_USER_CONTROL_LEFT"]
    case Right => ["CEC_USER_CONTROL_CODE_RIGHT", "CEC_USER_CONTROL_RIGHT"]
    case Back => ["CEC_USER_CONTROL_CODE_EXIT", "CEC_USER_CONTROL_EXIT", "CEC_USER_CONTROL_BACK"]
    case VolumeUp => ["CEC_USER_CONTROL_CODE_VOLUME_UP", "CEC_USER_CONTROL_VOLUME_UP"]
    case VolumeDown => ["CEC_USER_CONTROL_CODE_VOLUME_DOWN", "CEC_USER_CONTROL_VOLUME_DOWN"]
    case Mute => ["CEC_USER_CONTROL_CODE_MUTE", "CEC_USER_CONTROL_MUTE", "CEC_USER_CONTROL_MUTE_TOGGLE"]
    case Play => ["CEC_USER_CONTROL_CODE_PLAY", "CEC_USER_CONTROL_PLAY"]
    case Stop => ["CEC_USER_CONTROL_CODE_STOP", "CEC_USER_CONTROL_STOP"]
    case Pause => ["CEC_USER_CONTROL_CODE_PAUSE", "CEC_USER_CONTROL_PAUSE"]
    case Rewind => ["CEC_USER_CONTROL_CODE_REWIND", "CEC_USER_CONTROL_REWIND"]
    case FastForward => ["CEC_USER_CONTROL_CODE_FAST_FORWARD", "CEC_USER_CONTROL_FAST_FORWARD"]
    case Blue => ["CEC_USER_CONTROL_CODE_F1_BLUE", "CEC_USER_CONTROL_F1_BLUE", "CEC_USER_CONTROL_BLUE"]
    case Red => ["CEC_USER_CONTROL_CODE_F2_RED", "CEC_USER_CONTROL_F2_RED", "CEC_USER_CONTROL_RED"]
    case Green => ["CEC_USER_CONTROL_CODE_F3_GREEN", "CEC_USER_CONTROL_F3_GREEN", "CEC_USER_CONTROL_GREEN"]
    case Yellow => ["CEC_USER_CONTROL_CODE_F4_YELLOW", "CEC_USER_CONTROL_F4_YELLOW", "CEC_USER_CONTROL_YELLOW"]
    case Number0 => ["CEC_USER_CONTROL_CODE_NUMBER0", "CEC_USER_CONTROL_NUMBER_0"]
    case Number1 => ["CEC_USER_CONTROL_CODE_NUMBER1", "CEC_USER_CONTROL_NUMBER_1"]
    case Number2 => ["CEC_USER_CONTROL_CODE_NUMBER2", "CEC_USER_CONTROL_NUMBER_2"]
    case Number3 => ["CEC_USER_CONTROL_CODE_NUMBER3", "CEC_USER_CONTROL_NUMBER_3"]
    case Number4 => ["CEC_USER_CONTROL_CODE_NUMBER4", "CEC_USER_CONTROL_NUMBER_4"]
    case Number5 => ["CEC_USER_CONTROL_CODE_NUMBER5", "CEC_USER_CONTROL_NUMBER_5"]
    case Number6 => ["CEC_USER_CONTROL_CODE_NUMBER6", "CEC_USER_CONTROL_NUMBER_6"]
    case Number7 => ["CEC_USER_CONTROL_CODE_NUMBER7", "CEC_USER_CONTROL_NUMBER_7"]
    case Number8 => ["CEC_USER_CONTROL_CODE_NUMBER8", "CEC_USER_CONTROL_NUMBER_8"]
    case Number9 => ["CEC_USER_CONTROL_CODE_NUMBER9", "CEC_USER_CONTROL_NUMBER_9"]
  }

  /** Built-in HDMI-CEC opcodes. */
  function CommandDefault(x: Command): int {
    match x
    case ImageViewOn => 0x04
    case Standby => 0x36
    case GiveDevicePowerStatus => 0x8F
    case ReportPowerStatus => 0x90
    case ActiveSource => 0x82
    case SetStreamPath => 0x86
    case RoutingChange => 0x80
    case GivePhysicalAddr => 0x83
    case ReportPhysicalAddr => 0x84
    case GiveOsdName => 0x46
    case SetOsdName => 0x47
    case GiveDeviceVendorId => 0x8C
    case DeviceVendorId => 0x87
    case GiveDeckStatus => 0x1A
    case DeckStatus => 0x1B
    case UserControlPressed => 0x44
    case UserControlReleased => 0x45
    case VendorCommand => 0x89
  }

  /** The class attribute name of an opcode. */
  function CommandName(x: Command): string {
    match x
    case ImageViewOn => "IMAGE_VIEW_ON"
    case Standby => "STANDBY"
    case GiveDevicePowerStatus => "GIVE_DEVICE_POWER_STATUS"
    case ReportPowerStatus => "REPORT_POWER_STATUS"
    case ActiveSource => "ACTIVE_SOURCE"
    case SetStreamPath => "SET_STREAM_PATH"
    case RoutingChange => "ROUTING_CHANGE"
    case GivePhysicalAddr => "GIVE_PHYSICAL_ADDR"
    case ReportPhysicalAddr => "REPORT_PHYSICAL_ADDR"
    case GiveOsdName => "GIVE_OSD_NAME"
    case SetOsdName => "SET_OSD_NAME"
    case GiveDeviceVendorId => "GIVE_DEVICE_VENDOR_ID"
    case DeviceVendorId => "DEVICE_VENDOR_ID"
    case GiveDeckStatus => "GIVE_DECK_STATUS"
    case DeckStatus => "DECK_STATUS"
    case UserControlPressed => "USER_CONTROL_PRESSED"
    case UserControlReleased => "USER_CONTROL_RELEASED"
    case VendorCommand => "VENDOR_COMMAND"
  }

  /** The module constant that may replace an opcode: its name under the `CEC_OPCODE_` prefix. */
  function CommandCandidates(x: Command): seq<string> {
    ["CEC_OPCODE_" + CommandName(x)]
  }

  /** The class attributes before any resolution. */
  function Defaults<N>(names: set<N>, default: N -> int): map<N, int>
  {
    map n | n in names :: default(n)
  }

  /**
   * The button table before any resolution holds exactly the declared names,
   * with the HDMI-CEC [UI Command] codes; the colour keys F1-F4 are 0x71-0x74.
   */
  lemma BuiltInButtons()
    ensures var b := Defaults(AllButtons, ButtonDefault);
            b.Keys == AllButtons && b[Blue] == 0x71 && b[Red] == 0x72 && b[Green] == 0x73 && b[Yellow] == 0x74
  {
    assert Blue in AllButtons && Red in AllButtons && Green in AllButtons && Yellow in AllButtons;
  }

  /**
   * The opcode table before any resolution holds exactly the declared names,
   * with the opcodes of the HDMI-CEC message table.
   */
  lemma BuiltInCommands()
    ensures var c := Defaults(AllCommands, CommandDefault);
            && c.Keys == AllCommands
            && c[ImageViewOn] == 0x04 && c[Standby] == 0x36 && c[ActiveSource] == 0x82
            && c[UserControlPressed] == 0x44 && c[UserControlReleased] == 0x45
  {
    assert ImageViewOn in AllCommands && Standby in AllCommands && ActiveSource in AllCommands;
    assert UserControlPressed in AllCommands && UserControlReleased in AllCommands;
  }

  /** The value of the first candidate the module defines, if any. */
  function FirstPresent(candidates: seq<string>, source: Table): (r: Option<int>)
    ensures r.None? <==> forall i :: 0 <= i < |candidates| ==> candidates[i] !in source
    ensures r.Some? ==>
              exists i :: 0 <= i < |candidates| && candidates[i] in source
                && source[candidates[i]] == r.value
                && forall j :: 0 <= j < i ==> candidates[j] !in source
  {
    if |candidates| == 0 then None
    else if candidates[0] in source then Some(source[candidates[0]])
    else FirstPresent(candidates[1..], source)
  }

  /**
   * `update_from_module`: every symbolic name takes the value of its first
   * candidate that the module defines; a name none of whose candidates is
   * defined keeps its previous value.
   */
  function UpdateFromModule<N>(prior: map<N, int>, candidates: N -> seq<string>, source: Table): (r: map<N, int>)
    ensures r.Keys == prior.Keys
    // no candidate defined: the previous value stays
    ensures forall n :: n in prior && (forall c :: c in candidates(n) ==> c !in source) ==>
              r[n] == prior[n]
    // otherwise the first defined candidate, in list order, wins
    ensures forall n, i ::
              && n in prior && 0 <= i < |candidates(n)|
              && candidates(n)[i] in source
              && (forall j :: 0 <= j < i ==> candidates(n)[j] !in source)
              ==> r[n] == source[candidates(n)[i]]
  {
    map n | n in prior :: FirstPresent(candidates(n), source).GetOr(prior[n])
  }

  /** Resolving twice against the same module changes nothing more. */
  lemma UpdateIdempotent<N>(prior: map<N, int>, candidates: N -> seq<string>, source: Table)
    ensures UpdateFromModule(UpdateFromModule(prior, candidates, source), candidates, source) ==
            UpdateFromModule(prior, candidates, source)
  {
  }
}
