/**
 * End-to-end behaviour of the first adapter of a process, built on a transport
 * that defines no constants of its own, once `init` has succeeded: every intent
 * puts the HDMI-CEC defaults on the wire.
 */
module Session {
  import opened Wrappers
  import opened PyValues
  import opened Hex
  import opened Constants
  import opened CecUtils
  import opened Transport
  import opened AdapterState
  import opened Sender
  import opened Lifecycle

  /** Construction on a bare transport followed by a successful `init` gives a booted adapter. */
  lemma InitOnBareTransport<H>(config: Option<Config>, transport: Capability, ok: Oracle)
    requires transport.consts == map[]
    ensures var r := Init(FirstAdapter<H>(config, transport), ok);
            r.result ==> OnBareTransport(r.adapter) && r.adapter.initialized
  {
    FirstAdapterOnBare<H>(config, transport);
  }

  lemma PowerOnSendsImageViewOn<H>(a: Adapter<H>, ok: Oracle)
    requires OnBareTransport(a) && a.initialized
    ensures PowerOnTv(a, ok).calls == [CecTransmit(0, 0x04, [])]
  {
  }

  lemma StandbySendsStandby<H>(a: Adapter<H>, ok: Oracle)
    requires OnBareTransport(a) && a.initialized
    ensures StandbyTv(a, ok).calls == [CecTransmit(0, 0x36, [])]
  {
  }

  lemma PowerStatusSendsGiveDevicePowerStatus<H>(a: Adapter<H>, ok: Oracle)
    requires OnBareTransport(a) && a.initialized
    ensures RequestPowerStatus(a, ok).calls == [CecTransmit(0, 0x8F, [])]
  {
  }

  lemma VendorIdSendsGiveDeviceVendorId<H>(a: Adapter<H>, ok: Oracle)
    requires OnBareTransport(a) && a.initialized
    ensures RequestVendorId(a, ok).calls == [CecTransmit(0, 0x8C, [])]
  {
  }

  /** A button held for the default time is a press of that code then a release, both to the TV. */
  lemma ButtonSendsPressThenRelease<H>(a: Adapter<H>, code: byte)
    requires OnBareTransport(a) && a.initialized
    ensures SendRemoteButton(a, AlwaysOk, code, true, 0.2)
            == Sent(true, [CecTransmit(0, 0x44, [code]), CecTransmit(0, 0x45, [])])
  {
    assert PressCall(a, code) == CecTransmit(0, 0x44, [code]);
    assert ReleaseCall(a) == CecTransmit(0, 0x45, []);
  }

  /**
   * Without a convenience primitive, the default configuration announces
   * physical address 1.0.0.0 as the two bytes 0x10 0x00 in a broadcast
   * <Active Source>.
   */
  lemma ActiveSourceBroadcastsDefaultAddress<H>(a: Adapter<H>, ok: Oracle, conv: Convenience)
    requires OnBareTransport(a) && a.initialized
    requires !a.cec.hasSetActiveSource && a.config == DefaultConfig
    ensures SetActiveSource(a, ok, conv).calls == [CecTransmit(15, 0x82, [0x10, 0x00])]
  {
    assert a.config.physicalAddress == "1.0.0.0";
    DefaultAddressBytes();
    assert AnnounceAddress(a, ok).calls == [CecTransmit(15, 0x82, [0x10, 0x00])];
  }
}
