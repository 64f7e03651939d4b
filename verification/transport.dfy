/**
 * The foreign CEC transport module, seen from the adapter: a capability
 * descriptor (its constants and which optional primitives it exposes), the
 * calls the adapter makes on it, and an oracle saying which calls raise.
 */
module Transport {
  import opened PyValues
  import opened Constants

  /** What `hasattr(cec, …)` reports, and the module's numeric constants. */
  datatype Capability = Capability(
    consts: Table,
    hasAddCallback: bool,
    hasRemoveCallback: bool,
    hasClose: bool,
    hasShutdown: bool,
    hasSetActiveSource: bool
  )

  /** The two adapter methods registered with the transport as event callbacks. */
  datatype EntryPoint = KeypressEntry | CommandEntry

  /** One call into the transport module, in the order the adapter issues them. */
  datatype Call =
    | CecInit
    | CecAddCallback(entry: EntryPoint, event: int)
    | CecRemoveCallback(entry: EntryPoint, event: int)
    | CecClose
    | CecShutdown
    | CecSetActiveSource
    | CecTransmit(destination: int, opcode: int, parameters: seq<byte>)

  /**
   * Outcome of the n-th transport call made by one adapter operation: true when
   * it returns normally, false when it raises.
   */
  type Oracle = nat -> bool

  /** The oracle as seen by a sub-operation that starts after `k` earlier calls. */
  function Shift(ok: Oracle, k: nat): (shifted: Oracle)
    ensures forall n: nat :: shifted(n) == ok(n + k)
  {
    (n: nat) => ok(n + k)
  }

  predicate IsTransmit(c: Call) {
    c.CecTransmit?
  }

  /** How many `transmit` calls a trace contains. */
  function TransmitCount(calls: seq<Call>): (n: nat)
    ensures n <= |calls|
    ensures n == 0 <==> forall i :: 0 <= i < |calls| ==> !IsTransmit(calls[i])
  {
    if |calls| == 0 then 0
    else (if IsTransmit(calls[0]) then 1 else 0) + TransmitCount(calls[1..])
  }

  /** Transmits in a concatenated trace add up. */
  lemma {:induction false} TransmitCountAppend(xs: seq<Call>, ys: seq<Call>)
    ensures TransmitCount(xs + ys) == TransmitCount(xs) + TransmitCount(ys)
  {
    if |xs| == 0 {
      assert xs + ys == ys;
    } else {
      assert (xs + ys)[0] == xs[0];
      assert (xs + ys)[1..] == xs[1..] + ys;
      TransmitCountAppend(xs[1..], ys);
    }
  }

  /** A transport that never raises. */
  const AlwaysOk: Oracle := (n: nat) => true

  /** The position of the first call among the first `n` that raises, or `n` when none does. */
  function FirstRaise(n: nat, ok: Oracle): (i: nat)
    ensures i <= n
    ensures forall j :: 0 <= j < i ==> ok(j)
    ensures i < n ==> !ok(i)
  {
    if n == 0 then 0
    else
      var i := FirstRaise(n - 1, ok);
      if i < n - 1 then i
      else if ok(n - 1) then n
      else n - 1
  }

  /** The calls made when a sequence is issued outside any `try`, and whether all of them returned. */
  datatype Issued = Issued(calls: seq<Call>, completed: bool)

  /**
   * Issue `planned` in order; the first call that raises is made but aborts the
   * rest, and the exception propagates.
   */
  function Issue(planned: seq<Call>, ok: Oracle): (r: Issued)
    ensures r.completed <==> forall i :: 0 <= i < |planned| ==> ok(i)
    ensures r.completed ==> r.calls == planned
    ensures !r.completed ==> 0 < |r.calls| <= |planned| && r.calls == planned[..|r.calls|] && !ok(|r.calls| - 1)
    ensures forall i :: 0 <= i < |r.calls| - 1 ==> ok(i)
  {
    var i := FirstRaise(|planned|, ok);
    if i == |planned| then Issued(planned, true)
    else Issued(planned[..i + 1], false)
  }
}
