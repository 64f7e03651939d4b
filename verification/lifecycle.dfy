/**
 * The adapter's lifecycle flag: `init`, `cleanup` (as written, and as evidently
 * intended), and the guard at the top of `run`.
 */
module Lifecycle {
  import opened Wrappers
  import opened PyValues
  import opened Transport
  import opened AdapterState
  import opened Sender

  /** An operation's effect on the adapter, its return value and its transport calls. */
  datatype Step<H> = Step(adapter: Adapter<H>, result: bool, calls: seq<Call>)

  /** `register_event_handlers`: both entry points, when the transport can register callbacks. */
  function RegisterCalls<H>(a: Adapter<H>): seq<Call>
    requires Valid(a)
  {
    if a.cec.hasAddCallback then
      [CecAddCallback(KeypressEntry, a.cec.consts["EVENT_KEYPRESS"]),
       CecAddCallback(CommandEntry, a.cec.consts["EVENT_COMMAND"])]
    else []
  }

  /** `unregister_event_handlers`: the mirror image of `RegisterCalls`. */
  function UnregisterCalls<H>(a: Adapter<H>): seq<Call>
    requires Valid(a)
  {
    if a.cec.hasRemoveCallback then
      [CecRemoveCallback(KeypressEntry, a.cec.consts["EVENT_KEYPRESS"]),
       CecRemoveCallback(CommandEntry, a.cec.consts["EVENT_COMMAND"])]
    else []
  }

  /** The calls `init` attempts, in order. */
  function InitPlan<H>(a: Adapter<H>): seq<Call>
    requires Valid(a)
  {
    [CecInit] + RegisterCalls(a)
  }

  /**
   * `init`: open the transport, then register both event entry points. It is
   * not guarded by the flag, so a second `init` repeats every call. Any raise is
   * caught: the result is false and the adapter is left exactly as it was.
   */
  function Init<H>(a: Adapter<H>, ok: Oracle): (r: Step<H>)
    requires Valid(a)
    ensures |r.calls| >= 1 && r.calls[0] == CecInit
    ensures r.result <==> forall i :: 0 <= i < |InitPlan(a)| ==> ok(i)
    ensures r.result ==> r.adapter == a.(initialized := true) && r.calls == InitPlan(a)
    ensures !r.result ==> r.adapter == a && |r.calls| <= |InitPlan(a)| && r.calls == InitPlan(a)[..|r.calls|] && !ok(|r.calls| - 1)
    ensures TransmitCount(r.calls) == 0
  {
    var issued := Issue(InitPlan(a), ok);
    assert issued.calls[0] == InitPlan(a)[0];
    assert forall i :: 0 <= i < |issued.calls| ==> issued.calls[i] == InitPlan(a)[i];
    if issued.completed then Step(a.(initialized := true), true, issued.calls)
    else Step(a, false, issued.calls)
  }

  /** `cleanup`'s closing call: `close` when available, else `shutdown`, else nothing. */
  function CloseCalls<H>(a: Adapter<H>): seq<Call> {
    if a.cec.hasClose then [CecClose]
    else if a.cec.hasShutdown then [CecShutdown]
    else []
  }

  /** `cleanup` ended by propagating an exception from unregistering. */
  datatype Cleaned<H> = Cleaned(adapter: Adapter<H>, raised: bool, calls: seq<Call>)

  /**
   * `cleanup` as written. Unregistering is outside any `try`, so a raise there
   * propagates; the close call is caught, and the flag is cleared only in its
   * `except` branch: a clean close leaves the adapter initialised.
   */
  function Cleanup<H>(a: Adapter<H>, ok: Oracle): (r: Cleaned<H>)
    requires Valid(a)
    ensures !a.initialized ==> r == Cleaned(a, false, [])
    ensures r.adapter == a.(initialized := r.adapter.initialized)
    ensures a.initialized ==> (r.raised <==> exists i :: 0 <= i < |UnregisterCalls(a)| && !ok(i))
    ensures r.raised ==> r.adapter == a
    ensures a.initialized && !r.raised ==>
              && r.calls == UnregisterCalls(a) + CloseCalls(a)
              && (r.adapter.initialized <==> CloseCalls(a) == [] || ok(|UnregisterCalls(a)|))
    ensures TransmitCount(r.calls) == 0
  {
    if !a.initialized then Cleaned(a, false, [])
    else
      var unregister := Issue(UnregisterCalls(a), ok);
      if !unregister.completed then Cleaned(a, true, unregister.calls)
      else
        var closeRaised := CloseCalls(a) != [] && !ok(|unregister.calls|);
        Cleaned(if closeRaised then a.(initialized := false) else a, false, unregister.calls + CloseCalls(a))
  }

  /**
   * `cleanup` with the flag cleared after the close attempt whatever its
   * outcome, as the method's purpose (releasing the transport) requires.
   */
  function CleanupIntended<H>(a: Adapter<H>, ok: Oracle): (r: Cleaned<H>)
    requires Valid(a)
    ensures !a.initialized ==> r == Cleaned(a, false, [])
    ensures r.adapter == a.(initialized := r.adapter.initialized)
    ensures a.initialized ==> (r.raised <==> exists i :: 0 <= i < |UnregisterCalls(a)| && !ok(i))
    ensures r.raised ==> r.adapter == a
    ensures !r.raised ==> !r.adapter.initialized
    ensures a.initialized && !r.raised ==> r.calls == UnregisterCalls(a) + CloseCalls(a)
    ensures TransmitCount(r.calls) == 0
  {
    if !a.initialized then Cleaned(a, false, [])
    else
      var unregister := Issue(UnregisterCalls(a), ok);
      if !unregister.completed then Cleaned(a, true, unregister.calls)
      else Cleaned(a.(initialized := false), false, unregister.calls + CloseCalls(a))
  }

  /**
   * The defect: with a transport that never raises, `cleanup` as written leaves
   * the adapter initialised, so it still transmits afterwards.
   */
  lemma CleanupKeepsAdapterLive<H>(a: Adapter<H>)
    requires Valid(a) && a.initialized
    ensures Cleanup(a, AlwaysOk).adapter.initialized
    ensures PowerOnTv(Cleanup(a, AlwaysOk).adapter, AlwaysOk).calls != []
  {
  }

  /** After the intended cleanup completes, nothing is transmitted any more. */
  lemma CleanupIntendedSilencesSends<H>(a: Adapter<H>, ok: Oracle, later: Oracle, opcode: int, destination: int, parameters: seq<byte>)
    requires Valid(a)
    requires !CleanupIntended(a, ok).raised
    ensures SendCommand(CleanupIntended(a, ok).adapter, later, opcode, destination, parameters) == Sent(false, [])
    ensures PowerOnTv(CleanupIntended(a, ok).adapter, later).calls == []
  {
  }

  /** A second intended cleanup is a no-op: it makes no transport calls. */
  lemma CleanupIntendedIdempotent<H>(a: Adapter<H>, ok: Oracle, again: Oracle)
    requires Valid(a)
    requires !CleanupIntended(a, ok).raised
    ensures CleanupIntended(CleanupIntended(a, ok).adapter, again) == Cleaned(CleanupIntended(a, ok).adapter, false, [])
  {
  }

  /** A fresh adapter whose `init` fails stays uninitialised, so every send fails without a call. */
  lemma FailedInitStaysOff<H>(config: Option<Config>, transport: Capability, ok: Oracle)
    ensures var a := FirstAdapter<H>(config, transport);
            !Init(a, ok).result ==> !Init(a, ok).adapter.initialized
  {
  }

  /** `run` enters its polling loop exactly when the adapter is initialised; otherwise it returns at once. */
  function RunEntersLoop<H>(a: Adapter<H>): bool {
    a.initialized
  }

  /**
   * The defect seen from `run`: after `cleanup` as written with a clean close,
   * `run` still enters its loop; after the intended cleanup it returns at once.
   */
  lemma RunAfterCleanup<H>(a: Adapter<H>, ok: Oracle)
    requires Valid(a) && a.initialized
    ensures RunEntersLoop(Cleanup(a, AlwaysOk).adapter)
    ensures !CleanupIntended(a, ok).raised ==> !RunEntersLoop(CleanupIntended(a, ok).adapter)
  {
    CleanupKeepsAdapterLive(a);
  }

  /** `init` then `run`: the loop is entered exactly when `init` reported success, starting from a fresh adapter. */
  lemma RunAfterInit<H>(config: Option<Config>, transport: Capability, ok: Oracle)
    ensures var a := FirstAdapter<H>(config, transport);
            RunEntersLoop(Init(a, ok).adapter) <==> Init(a, ok).result
  {
  }
}
