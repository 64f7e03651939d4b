/**
 * Outbound commands. Every operation returns whether it succeeded together with
 * the transport calls it made; none of them raises (a raising transport call is
 * caught and becomes a failure). Whether each transport call raises comes from
 * the oracle `ok`, indexed by the call's position within the operation.
 */
module Sender {
  import opened Wrappers
  import opened PyValues
  import opened Constants
  import opened Hex
  import opened Transport
  import opened AdapterState

  datatype Sent = Sent(success: bool, calls: seq<Call>)

  /**
   * The outcome of a single guarded transmit: no call at all and failure when the
   * adapter is not initialised; otherwise exactly that one call, succeeding
   * exactly when it does not raise.
   */
  predicate SingleTransmit<H>(a: Adapter<H>, ok: Oracle, r: Sent, destination: int, opcode: int, parameters: seq<byte>) {
    && (!a.initialized ==> r == Sent(false, []))
    && (a.initialized ==> r.calls == [CecTransmit(destination, opcode, parameters)] && (r.success <==> ok(0)))
  }

  /** `send_command(opcode, destination, parameters)`; the advisory timeout is not modelled. */
  function SendCommand<H>(a: Adapter<H>, ok: Oracle, opcode: int, destination: int, parameters: seq<byte>): (r: Sent)
    ensures SingleTransmit(a, ok, r, destination, opcode, parameters)
    ensures TransmitCount(r.calls) == (if a.initialized then 1 else 0)
  {
    if !a.initialized then Sent(false, [])
    else Sent(ok(0), [CecTransmit(destination, opcode, parameters)])
  }

  /** `send_command`'s default destination: the TV's logical address. */
  const DefaultDestination: int := 0

  /** `power_on_tv`: <Image View On> to the default destination, no parameters. */
  function PowerOnTv<H>(a: Adapter<H>, ok: Oracle): (r: Sent)
    requires Valid(a)
    ensures SingleTransmit(a, ok, r, DefaultDestination, a.commands[ImageViewOn], [])
  {
    SendCommand(a, ok, a.commands[ImageViewOn], DefaultDestination, [])
  }

  /** `standby_tv`: <Standby> to the default destination. */
  function StandbyTv<H>(a: Adapter<H>, ok: Oracle): (r: Sent)
    requires Valid(a)
    ensures SingleTransmit(a, ok, r, DefaultDestination, a.commands[Standby], [])
  {
    SendCommand(a, ok, a.commands[Standby], DefaultDestination, [])
  }

  /** `request_power_status`: <Give Device Power Status> to the default destination. */
  function RequestPowerStatus<H>(a: Adapter<H>, ok: Oracle): (r: Sent)
    requires Valid(a)
    ensures SingleTransmit(a, ok, r, DefaultDestination, a.commands[GiveDevicePowerStatus], [])
  {
    SendCommand(a, ok, a.commands[GiveDevicePowerStatus], DefaultDestination, [])
  }

  /** `request_vendor_id`: <Give Device Vendor ID> to the default destination. */
  function RequestVendorId<H>(a: Adapter<H>, ok: Oracle): (r: Sent)
    requires Valid(a)
    ensures SingleTransmit(a, ok, r, DefaultDestination, a.commands[GiveDeviceVendorId], [])
  {
    SendCommand(a, ok, a.commands[GiveDeviceVendorId], DefaultDestination, [])
  }

  /** What the transport's own `set_active_source` does when the adapter calls it. */
  datatype Convenience = ReturnsTruthy | ReturnsFalsy | Raises

  /**
   * The manual half of `set_active_source`: the configured physical address,
   * dots removed and hex-decoded, broadcast as <Active Source> (section CEC 8.7
   * of HDMI 1.4b). An address that does not decode fails before any transmit.
   */
  function AnnounceAddress<H>(a: Adapter<H>, ok: Oracle): (r: Sent)
    requires Valid(a)
    ensures PhysicalAddressBytes(a.config.physicalAddress).None? ==> r == Sent(false, [])
    ensures PhysicalAddressBytes(a.config.physicalAddress).Some? ==>
              SingleTransmit(a, ok, r, a.cec.consts["CECDEVICE_BROADCAST"], a.commands[ActiveSource],
                             PhysicalAddressBytes(a.config.physicalAddress).value)
    ensures TransmitCount(r.calls) <= 1
  {
    match PhysicalAddressBytes(a.config.physicalAddress)
    case None => Sent(false, [])
    case Some(address) => SendCommand(a, ok, a.commands[ActiveSource], a.cec.consts["CECDEVICE_BROADCAST"], address)
  }

  /**
   * `set_active_source`: the transport's convenience primitive, when it exists,
   * is called first, whether or not the adapter is initialised. A truthy result
   * settles it and a raise fails it; a falsy result, or no primitive at all,
   * falls back to announcing the address by hand.
   */
  function SetActiveSource<H>(a: Adapter<H>, ok: Oracle, conv: Convenience): (r: Sent)
    requires Valid(a)
    ensures a.cec.hasSetActiveSource && conv == ReturnsTruthy ==> r == Sent(true, [CecSetActiveSource])
    ensures a.cec.hasSetActiveSource && conv == Raises ==> r == Sent(false, [CecSetActiveSource])
    ensures a.cec.hasSetActiveSource && conv == ReturnsFalsy ==>
              && r.calls == [CecSetActiveSource] + AnnounceAddress(a, Shift(ok, 1)).calls
              && r.success == AnnounceAddress(a, Shift(ok, 1)).success
    ensures !a.cec.hasSetActiveSource ==> r == AnnounceAddress(a, ok)
    ensures TransmitCount(r.calls) <= 1
  {
    if !a.cec.hasSetActiveSource then AnnounceAddress(a, ok)
    else match conv
      case ReturnsTruthy => Sent(true, [CecSetActiveSource])
      case Raises => Sent(false, [CecSetActiveSource])
      case ReturnsFalsy =>
        var manual := AnnounceAddress(a, Shift(ok, 1));
        TransmitCountAppend([CecSetActiveSource], manual.calls);
        Sent(manual.success, [CecSetActiveSource] + manual.calls)
  }

  /** However the convenience call behaves, an undecodable address is never transmitted. */
  lemma UndecodableAddressNeverSent<H>(a: Adapter<H>, ok: Oracle, conv: Convenience)
    requires Valid(a)
    requires PhysicalAddressBytes(a.config.physicalAddress).None?
    ensures TransmitCount(SetActiveSource(a, ok, conv).calls) == 0
    ensures SetActiveSource(a, ok, conv).success <==> a.cec.hasSetActiveSource && conv == ReturnsTruthy
  {
    if a.cec.hasSetActiveSource && conv == ReturnsFalsy {
      assert SetActiveSource(a, ok, conv).calls == [CecSetActiveSource];
    }
  }

  /** The <User Control Pressed> message for one button (section CEC 13.13 of HDMI 1.4b). */
  function PressCall<H>(a: Adapter<H>, code: byte): Call
    requires Valid(a)
  {
    CecTransmit(a.cec.consts["CECDEVICE_TV"], a.commands[UserControlPressed], [code])
  }

  /** The <User Control Released> message: no parameters. */
  function ReleaseCall<H>(a: Adapter<H>): Call
    requires Valid(a)
  {
    CecTransmit(a.cec.consts["CECDEVICE_TV"], a.commands[UserControlReleased], [])
  }

  /**
   * `send_remote_button(code, pressed, hold)`: a press, and after a positive hold
   * time the matching release, which goes out only if the press succeeded; or the
   * release alone when `pressed` is false. The wait itself is not modelled.
   * `bytes([code])` raises for codes outside 0..255, hence the precondition.
   */
  function SendRemoteButton<H>(a: Adapter<H>, ok: Oracle, code: int, pressed: bool, hold: real): (r: Sent)
    requires Valid(a)
    requires a.initialized && pressed ==> 0 <= code < 256
    ensures !a.initialized ==> r == Sent(false, [])
    ensures a.initialized && !pressed ==> r.calls == [ReleaseCall(a)] && (r.success <==> ok(0))
    ensures a.initialized && pressed && !ok(0) ==> r == Sent(false, [PressCall(a, code)])
    ensures a.initialized && pressed && ok(0) && hold <= 0.0 ==> r == Sent(true, [PressCall(a, code)])
    ensures a.initialized && pressed && ok(0) && hold > 0.0 ==>
              r.calls == [PressCall(a, code), ReleaseCall(a)] && (r.success <==> ok(1))
    decreases pressed
  {
    if !a.initialized then Sent(false, [])
    else if pressed then
      var press := SendCommand(a, ok, a.commands[UserControlPressed], a.cec.consts["CECDEVICE_TV"], [code]);
      if !press.success then Sent(false, press.calls)
      else if hold > 0.0 then
        var release := SendRemoteButton(a, Shift(ok, 1), code, false, 0.2);
        Sent(release.success, press.calls + release.calls)
      else Sent(true, press.calls)
    else
      SendCommand(a, ok, a.commands[UserControlReleased], a.cec.consts["CECDEVICE_TV"], [])
  }

  /** Whatever the outcomes, a button send makes at most two transmits, and a release never precedes its press. */
  lemma ButtonSendShape<H>(a: Adapter<H>, ok: Oracle, code: int, pressed: bool, hold: real)
    requires Valid(a)
    requires a.initialized && pressed ==> 0 <= code < 256
    ensures var r := SendRemoteButton(a, ok, code, pressed, hold);
            && |r.calls| <= 2
            && (pressed && |r.calls| > 0 ==> r.calls[0] == PressCall(a, code))
            && (|r.calls| == 2 ==> pressed && ok(0) && hold > 0.0)
  {
  }
}
