/**
 * The adapter's configuration and state, and its construction (`CECAdapter.__init__`).
 */
module AdapterState {
  import opened Wrappers
  import opened Constants
  import opened CecUtils
  import opened Registry
  import opened Transport
  import opened Hex

  /** `CECConfig`, without validation. */
  datatype Config = Config(
    deviceName: string,
    physicalAddress: string,
    port: int,
    autoPowerOn: bool,
    deviceType: int
  )

  const DefaultConfig: Config := Config("RaspberryPi", "1.0.0.0", 1, true, 1)

  /** `config or CECConfig()`: the given configuration, or the default one when None. */
  function ConfigOrDefault(config: Option<Config>): Config
  {
    if config.Some? then config.value else DefaultConfig
  }

  /**
   * Without a configuration the adapter calls itself "RaspberryPi" and announces
   * physical address 1.0.0.0, which goes on the wire as the bytes 0x10 0x00.
   */
  lemma DefaultConfigAnnounces(config: Option<Config>)
    requires config.None?
    ensures ConfigOrDefault(config).deviceName == "RaspberryPi"
    ensures PhysicalAddressBytes(ConfigOrDefault(config).physicalAddress) == Some([0x10, 0x00])
  {
    DefaultAddressBytes();
  }

  /**
   * One adapter. `buttons` and `commands` are the values of the `RemoteButton`
   * and `CECCommand` class attributes after this adapter's construction; `cec`
   * is the transport module after its missing constants were filled in.
   */
  datatype Adapter<H> = Adapter(
    config: Config,
    cec: Capability,
    buttons: map<Button, int>,
    commands: map<Command, int>,
    initialized: bool,
    buttonCallbacks: Registry<H>,
    commandCallbacks: Registry<H>
  )

  /**
   * Every symbolic name the adapter reads is defined: the class attributes
   * always exist, and the transport's device and event constants were filled in.
   */
  predicate Valid<H>(a: Adapter<H>) {
    && (forall x: Button :: x in a.buttons)
    && (forall x: Command :: x in a.commands)
    && AdapterNamesDefined(a.cec.consts)
  }

  /**
   * `CECAdapter(config)`: store the configuration (the default one when None),
   * fill in the transport's missing constants, resolve the button and command
   * tables against it, and start uninitialised with empty registries.
   * `priorButtons` and `priorCommands` are the class attributes before the call.
   */
  function New<H>(config: Option<Config>, transport: Capability, priorButtons: map<Button, int>, priorCommands: map<Command, int>): (a: Adapter<H>)
    requires forall x: Button :: x in priorButtons
    requires forall x: Command :: x in priorCommands
    ensures Valid(a)
    ensures !a.initialized
    ensures a.buttonCallbacks == map[] && a.commandCallbacks == map[]
    ensures a.config == ConfigOrDefault(config)
    // the transport keeps its own constants and gains only the missing ones
    ensures a.cec == transport.(consts := FillMissing(transport.consts))
    // the shared tables are resolved against the filled-in transport
    ensures a.buttons == UpdateFromModule(priorButtons, ButtonCandidates, a.cec.consts)
    ensures a.commands == UpdateFromModule(priorCommands, CommandCandidates, a.cec.consts)
  {
    FillDefinesAdapterNames(transport.consts);
    var cec := transport.(consts := FillMissing(transport.consts));
    Adapter(
      ConfigOrDefault(config),
      cec,
      UpdateFromModule(priorButtons, ButtonCandidates, cec.consts),
      UpdateFromModule(priorCommands, CommandCandidates, cec.consts),
      false,
      map[],
      map[]
    )
  }

  /**
   * The class attributes are shared, so a second adapter built on the same
   * transport re-resolves them; it ends up with exactly the same tables.
   */
  lemma SecondConstructionSameTables<H>(config: Option<Config>, transport: Capability, priorButtons: map<Button, int>, priorCommands: map<Command, int>)
    requires forall x: Button :: x in priorButtons
    requires forall x: Command :: x in priorCommands
    ensures var first := New<H>(config, transport, priorButtons, priorCommands);
            var second := New<H>(config, transport, first.buttons, first.commands);
            second.buttons == first.buttons && second.commands == first.commands
  {
    var cec := FillMissing(transport.consts);
    UpdateIdempotent(priorButtons, ButtonCandidates, cec);
    UpdateIdempotent(priorCommands, CommandCandidates, cec);
  }

  /** The first adapter of the process: the class attributes still hold their defaults. */
  function FirstAdapter<H>(config: Option<Config>, transport: Capability): (a: Adapter<H>)
    ensures Valid(a) && !a.initialized
  {
    NamesListed();
    New<H>(config, transport, Defaults(AllButtons, ButtonDefault), Defaults(AllCommands, CommandDefault))
  }

  /**
   * The adapter was built on a transport without constants of its own: the
   * filled-in addresses put the TV at 0 and broadcast at 15, and every opcode
   * keeps its HDMI-CEC default (section CEC 13 of HDMI 1.4b).
   */
  predicate OnBareTransport<H>(a: Adapter<H>) {
    && Valid(a)
    && a.cec.consts["CECDEVICE_TV"] == 0
    && a.cec.consts["CECDEVICE_BROADCAST"] == 15
    && forall x: Command :: a.commands[x] == CommandDefault(x)
  }

  /**
   * The first adapter on a bare transport: filling adds only device and event
   * constants, and no opcode name is among them, so every opcode keeps its default.
   */
  lemma FirstAdapterOnBare<H>(config: Option<Config>, transport: Capability)
    requires transport.consts == map[]
    ensures OnBareTransport(FirstAdapter<H>(config, transport))
  {
    var prior := Defaults(AllCommands, CommandDefault);
    NamesListed();
    var a := FirstAdapter<H>(config, transport);
    assert a == New<H>(config, transport, Defaults(AllButtons, ButtonDefault), prior);
    FilledAddresses(map[]);
    NoOpcodesFilled(map[]);
    DefaultOpcodesKept(prior, a.cec.consts);
  }

  /**
   * Resolving the default opcodes against a module that defines no
   * `CEC_OPCODE_…` constant changes none of them.
   */
  lemma DefaultOpcodesKept(prior: map<Command, int>, source: Table)
    requires forall x: Command :: x in prior && prior[x] == CommandDefault(x)
    requires forall k :: k in source ==> !StartsWith(k, "CEC_OPCODE_")
    ensures var r := UpdateFromModule(prior, CommandCandidates, source);
            forall x: Command :: x in r && r[x] == CommandDefault(x)
  {
    var r := UpdateFromModule(prior, CommandCandidates, source);
    forall x: Command
      ensures x in r && r[x] == CommandDefault(x)
    {
      OpcodeCandidatePrefixed(x);
      assert CommandCandidates(x)[0] !in source;
      assert FirstPresent(CommandCandidates(x), source) == None;
    }
  }

  lemma OpcodeCandidatePrefixed(x: Command)
    ensures |CommandCandidates(x)| == 1 && StartsWith(CommandCandidates(x)[0], "CEC_OPCODE_")
  {
    var k := CommandCandidates(x)[0];
    assert k[..|"CEC_OPCODE_"|] == "CEC_OPCODE_";
  }
}
