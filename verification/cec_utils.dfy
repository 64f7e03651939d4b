/**
 * Constant tables of the transport helper module: `import_cec_constants`, a
 * merge of built-in defaults with the module's own prefixed constants, and the
 * part of `get_cec_module` that adds device and event constants the module lacks.
 */
module CecUtils {
  import opened Constants

  /** Logical addresses of HDMI-CEC (section CEC 10.2 of HDMI 1.4b). */
  const DeviceConstants: Table := map[
    "CECDEVICE_TV" := 0,
    "CECDEVICE_RECORDING_DEVICE_1" := 1,
    "CECDEVICE_RECORDING_DEVICE_2" := 2,
    "CECDEVICE_TUNER_1" := 3,
    "CECDEVICE_PLAYBACK_DEVICE_1" := 4,
    "CECDEVICE_AUDIO_SYSTEM" := 5,
    "CECDEVICE_TUNER_2" := 6,
    "CECDEVICE_TUNER_3" := 7,
    "CECDEVICE_PLAYBACK_DEVICE_2" := 8,
    "CECDEVICE_RECORDING_DEVICE_3" := 9,
    "CECDEVICE_TUNER_4" := 10,
    "CECDEVICE_PLAYBACK_DEVICE_3" := 11,
    "CECDEVICE_RESERVED_1" := 12,
    "CECDEVICE_RESERVED_2" := 13,
    "CECDEVICE_FREE_USE" := 14,
    "CECDEVICE_BROADCAST" := 15
  ]

  /** Event classes a callback can be registered for. */
  const EventConstants: Table := map[
    "EVENT_LOG" := 0x01,
    "EVENT_KEYPRESS" := 0x02,
    "EVENT_COMMAND" := 0x04,
    "EVENT_ALL" := 0xFF
  ]

  const UserControlConstants: Table := map[
    "CEC_USER_CONTROL_SELECT" := 0x00,
    "CEC_USER_CONTROL_UP" := 0x01,
    "CEC_USER_CONTROL_DOWN" := 0x02,
    "CEC_USER_CONTROL_LEFT" := 0x03,
    "CEC_USER_CONTROL_RIGHT" := 0x04,
    "CEC_USER_CONTROL_EXIT" := 0x0D,
    "CEC_USER_CONTROL_VOLUME_UP" := 0x41,
    "CEC_USER_CONTROL_VOLUME_DOWN" := 0x42,
    "CEC_USER_CONTROL_MUTE" := 0x43,
    "CEC_USER_CONTROL_PLAY" := 0x44,
    "CEC_USER_CONTROL_STOP" := 0x45,
    "CEC_USER_CONTROL_PAUSE" := 0x46,
    "CEC_USER_CONTROL_RECORD" := 0x47,
    "CEC_USER_CONTROL_REWIND" := 0x48,
    "CEC_USER_CONTROL_FAST_FORWARD" := 0x49
  ]

  /** Every default `import_cec_constants` starts from; the three groups use disjoint names. */
  const ImportDefaults: Table := DeviceConstants + EventConstants + UserControlConstants

  predicate StartsWith(s: string, prefix: string) {
    |prefix| <= |s| && s[..|prefix|] == prefix
  }

  /** The prefixes whose module attributes are copied into the constant table. */
  predicate Imported(name: string) {
    || StartsWith(name, "CECDEVICE_")
    || StartsWith(name, "CEC_OPCODE_")
    || StartsWith(name, "CEC_USER_CONTROL_")
    || StartsWith(name, "EVENT_")
  }

  /**
   * `import_cec_constants(module)`: the defaults, overridden by every module
   * attribute with one of the recognised prefixes. The opcode name list of the
   * source is never read, so opcodes get no defaults.
   */
  function ImportCecConstants(source: Table): (r: Table)
    // exactly the defaults plus the prefixed module attributes
    ensures r.Keys == ImportDefaults.Keys + (set k | k in source && Imported(k))
    // a prefixed module attribute overrides the default of the same name
    ensures forall k :: k in source && Imported(k) ==> r[k] == source[k]
    // every other entry is a default
    ensures forall k :: k in r && !(k in source && Imported(k)) ==> r[k] == ImportDefaults[k]
  {
    ImportDefaults + map k | k in source && Imported(k) :: source[k]
  }

  /** All sixteen logical addresses, the four event classes and the user-control defaults are always present. */
  lemma ImportKeepsDefaultNames(source: Table)
    ensures DeviceConstants.Keys <= ImportCecConstants(source).Keys
    ensures EventConstants.Keys <= ImportCecConstants(source).Keys
    ensures UserControlConstants.Keys <= ImportCecConstants(source).Keys
  {
  }

  /** Every default name carries a recognised prefix, so nothing unprefixed ever appears. */
  lemma ImportOnlyPrefixed(source: Table)
    ensures forall k :: k in ImportCecConstants(source) ==> Imported(k)
  {
    forall k | k in ImportDefaults
      ensures Imported(k)
    {
      DefaultNamesPrefixed(k);
    }
  }

  lemma DefaultNamesPrefixed(k: string)
    requires k in ImportDefaults
    ensures || StartsWith(k, "CECDEVICE_")
            || StartsWith(k, "EVENT_")
            || StartsWith(k, "CEC_USER_CONTROL_")
  {
    DeviceNamesPrefixed(k);
    EventNamesPrefixed(k);
    UserControlNamesPrefixed(k);
  }

  lemma DeviceNamesPrefixed(k: string)
    ensures k in DeviceConstants ==> StartsWith(k, "CECDEVICE_")
  {
  }

  lemma EventNamesPrefixed(k: string)
    ensures k in EventConstants ==> StartsWith(k, "EVENT_")
  {
  }

  lemma UserControlNamesPrefixed(k: string)
    ensures k in UserControlConstants ==> StartsWith(k, "CEC_USER_CONTROL_")
  {
  }

  /** An opcode name is present exactly when the module supplies it. */
  lemma ImportOpcodesOnlyFromModule(source: Table, k: string)
    requires StartsWith(k, "CEC_OPCODE_")
    ensures k in ImportCecConstants(source) <==> k in source
  {
    OpcodeNameNotDefault(k);
  }

  lemma OpcodeNameNotDefault(k: string)
    requires StartsWith(k, "CEC_OPCODE_")
    ensures k !in ImportDefaults
  {
    DeviceNamesPrefixed(k);
    EventNamesPrefixed(k);
    UserControlNamesPrefixed(k);
    PrefixLetter(k, "CEC_OPCODE_", 0);
    PrefixLetter(k, "CEC_OPCODE_", 3);
    PrefixLetter(k, "CEC_OPCODE_", 4);
    assert k[0] == 'C' && k[3] == '_' && k[4] == 'O';
    assert !StartsWith(k, "CECDEVICE_") by {
      if |k| >= 10 { assert k[..10][3] == k[3]; }
    }
    assert !StartsWith(k, "EVENT_") by {
      if |k| >= 6 { assert k[..6][0] == k[0]; }
    }
    assert !StartsWith(k, "CEC_USER_CONTROL_") by {
      if |k| >= 17 { assert k[..17][4] == k[4]; }
    }
  }

  /** A text that starts with a prefix agrees with it letter by letter. */
  lemma PrefixLetter(k: string, prefix: string, i: nat)
    requires StartsWith(k, prefix) && i < |prefix|
    ensures k[i] == prefix[i]
  {
    assert k[..|prefix|][i] == k[i];
  }

  /** The device and event constants `get_cec_module` adds when the module lacks them. */
  const FillDefaults: Table := DeviceConstants + EventConstants

  /** `get_cec_module`: add each missing device or event constant; existing ones are never overwritten. */
  function FillMissing(source: Table): (r: Table)
    ensures r.Keys == source.Keys + FillDefaults.Keys
    ensures forall k :: k in source ==> r[k] == source[k]
    ensures forall k :: k in r && k !in source ==> r[k] == FillDefaults[k]
  {
    FillDefaults + source
  }

  /** The transport constants the adapter itself reads. */
  predicate AdapterNamesDefined(t: Table) {
    && "CECDEVICE_TV" in t && "CECDEVICE_BROADCAST" in t
    && "EVENT_KEYPRESS" in t && "EVENT_COMMAND" in t
  }

  /** After filling, every constant the adapter reads is defined. */
  lemma FillDefinesAdapterNames(source: Table)
    ensures AdapterNamesDefined(FillMissing(source))
  {
    assert "CECDEVICE_TV" in DeviceConstants && "CECDEVICE_BROADCAST" in DeviceConstants;
    assert "EVENT_KEYPRESS" in EventConstants && "EVENT_COMMAND" in EventConstants;
  }

  /** Filling adds device and event constants only, so no opcode name appears that the module lacks. */
  lemma OpcodeNameNotFilled(k: string, source: Table)
    requires StartsWith(k, "CEC_OPCODE_") && k !in source
    ensures k !in FillMissing(source)
  {
    OpcodeNameNotDefault(k);
    assert FillDefaults.Keys <= ImportDefaults.Keys;
  }

  /** A module without opcode constants still has none after filling. */
  lemma NoOpcodesFilled(source: Table)
    requires forall k :: k in source ==> !StartsWith(k, "CEC_OPCODE_")
    ensures forall k :: k in FillMissing(source) ==> !StartsWith(k, "CEC_OPCODE_")
  {
    forall k | k in FillMissing(source)
      ensures !StartsWith(k, "CEC_OPCODE_")
    {
      if StartsWith(k, "CEC_OPCODE_") {
        OpcodeNameNotFilled(k, source);
      }
    }
  }

  /** Filling twice is filling once. */
  lemma FillMissingIdempotent(source: Table)
    ensures FillMissing(FillMissing(source)) == FillMissing(source)
  {
  }

  /** A module without its own addresses gets the TV at 0 and broadcast at 15. */
  lemma FilledAddresses(source: Table)
    ensures "CECDEVICE_TV" !in source ==> FillMissing(source)["CECDEVICE_TV"] == 0
    ensures "CECDEVICE_BROADCAST" !in source ==> FillMissing(source)["CECDEVICE_BROADCAST"] == 15
  {
    assert "CECDEVICE_TV" in DeviceConstants && DeviceConstants["CECDEVICE_TV"] == 0;
    assert "CECDEVICE_BROADCAST" in DeviceConstants && DeviceConstants["CECDEVICE_BROADCAST"] == 15;
  }
}
