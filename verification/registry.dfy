/**
 * Callback registries of the adapter and fault-isolated multicast.
 *
 * A registry maps a key (button code or opcode) to the ordered list of handlers
 * registered for it. A handler may occur several times; removal deletes only its
 * first occurrence. Dispatch calls every handler of the key in registration
 * order; a handler that raises is caught and the remaining handlers still run.
 * Handlers are opaque values compared with `==`, as Python compares callables.
 */
module Registry {

  type Registry<H> = map<int, seq<H>>

  /** The handlers registered under `key`, in call order; none for an unknown key. */
  function Handlers<H>(r: Registry<H>, key: int): seq<H> {
    if key in r then r[key] else []
  }

  /** Position of the first occurrence of `h`. */
  function IndexOf<H(==)>(s: seq<H>, h: H): (i: nat)
    requires h in s
    ensures i < |s| && s[i] == h
    ensures forall j :: 0 <= j < i ==> s[j] != h
  {
    if s[0] == h then 0 else 1 + IndexOf(s[1..], h)
  }

  /** `list.remove(h)` guarded by `h in list`: drops the first occurrence only. */
  function RemoveFirst<H(==)>(s: seq<H>, h: H): (r: seq<H>)
    ensures h !in s ==> r == s
    ensures h in s ==> |r| == |s| - 1
  {
    if |s| == 0 then []
    else if s[0] == h then s[1..]
    else [s[0]] + RemoveFirst(s[1..], h)
  }

  /** Exactly the first occurrence goes; everything before and after it keeps its order. */
  lemma {:induction false} RemoveFirstSplit<H>(s: seq<H>, h: H)
    requires h in s
    ensures RemoveFirst(s, h) == s[..IndexOf(s, h)] + s[IndexOf(s, h) + 1..]
  {
    if s[0] != h {
      var t := s[1..];
      RemoveFirstSplit(t, h);
      var j := IndexOf(t, h);
      assert IndexOf(s, h) == j + 1;
      assert RemoveFirst(s, h) == [s[0]] + (t[..j] + t[j + 1..]);
      assert s[..j + 1] == [s[0]] + t[..j];
      assert s[j + 2..] == t[j + 1..];
      assert [s[0]] + (t[..j] + t[j + 1..]) == ([s[0]] + t[..j]) + t[j + 1..];
    } else {
      assert s[..0] == [];
    }
  }

  /** One copy of `h` leaves the multiset of handlers, when there is one. */
  lemma {:induction false} RemoveFirstMultiset<H>(s: seq<H>, h: H)
    ensures multiset(RemoveFirst(s, h)) == multiset(s) - multiset{h}
  {
    if |s| > 0 {
      assert s == [s[0]] + s[1..];
      RemoveFirstMultiset(s[1..], h);
    }
  }

  /** `add_*_callback`: append `h` to the list of `key`, creating it if needed. */
  function Add<H>(r: Registry<H>, key: int, h: H): (r': Registry<H>)
    ensures r'.Keys == r.Keys + {key}
    ensures Handlers(r', key) == Handlers(r, key) + [h]
    ensures forall k :: k != key ==> Handlers(r', k) == Handlers(r, k)
  {
    r[key := Handlers(r, key) + [h]]
  }

  /**
   * `remove_*_callback`: delete the first occurrence of `h` under `key`; nothing
   * happens when the key or the handler is absent. A list emptied this way stays
   * in the map as an empty list.
   */
  function Remove<H(==)>(r: Registry<H>, key: int, h: H): (r': Registry<H>)
    ensures r'.Keys == r.Keys
    ensures Handlers(r', key) == RemoveFirst(Handlers(r, key), h)
    ensures forall k :: k != key ==> Handlers(r', k) == Handlers(r, k)
    ensures h !in Handlers(r, key) ==> r' == r
  {
    if key in r && h in r[key] then r[key := RemoveFirst(r[key], h)] else r
  }

  /**
   * Adding a handler that was not yet registered under `key` and removing it again
   * restores every handler list; the map itself is restored when the key already existed.
   */
  lemma AddThenRemove<H>(r: Registry<H>, key: int, h: H)
    requires h !in Handlers(r, key)
    ensures forall k :: Handlers(Remove(Add(r, key, h), key, h), k) == Handlers(r, k)
    ensures key in r ==> Remove(Add(r, key, h), key, h) == r
  {
    var s := Handlers(r, key);
    var r' := Remove(Add(r, key, h), key, h);
    assert Handlers(r', key) == s by {
      assert h in s + [h];
      assert forall j :: 0 <= j < |s| ==> (s + [h])[j] != h;
      assert IndexOf(s + [h], h) == |s|;
      RemoveFirstSplit(s + [h], h);
      assert (s + [h])[..|s|] == s;
    }
    if key in r {
      assert forall k :: k in r ==> r'[k] == r[k] by {
        forall k | k in r
          ensures r'[k] == r[k]
        {
          assert Handlers(r', k) == Handlers(r, k);
        }
      }
    }
  }

  /**
   * Even when `h` was already registered, add-then-remove keeps the same multiset
   * of handlers: it is an earlier occurrence that goes, so only the order can change.
   */
  lemma AddThenRemoveSameHandlers<H>(r: Registry<H>, key: int, h: H)
    ensures multiset(Handlers(Remove(Add(r, key, h), key, h), key)) == multiset(Handlers(r, key))
  {
    var s := Handlers(r, key);
    RemoveFirstMultiset(s + [h], h);
  }

  /** One handler invocation during a dispatch, and whether the handler raised. */
  datatype Attempt<H, E> = Attempt(handler: H, event: E, faulted: bool)

  /**
   * Calls every handler in order with the same event. `faults` says which calls
   * raise; a fault is caught at the call site and the loop goes on.
   */
  function Multicast<H, E>(handlers: seq<H>, event: E, faults: (H, E) -> bool): (r: seq<Attempt<H, E>>)
    ensures |r| == |handlers|
    ensures forall i :: 0 <= i < |r| ==> r[i] == Attempt(handlers[i], event, faults(handlers[i], event))
  {
    if |handlers| == 0 then []
    else [Attempt(handlers[0], event, faults(handlers[0], event))] + Multicast(handlers[1..], event, faults)
  }

  /** The handlers attempted in a dispatch, in order. */
  function Called<H, E>(attempts: seq<Attempt<H, E>>): (r: seq<H>)
    ensures |r| == |attempts|
    ensures forall i :: 0 <= i < |r| ==> r[i] == attempts[i].handler
  {
    if |attempts| == 0 then [] else [attempts[0].handler] + Called(attempts[1..])
  }

  /** Fault isolation: which handlers run never depends on which of them raise. */
  lemma FaultsDoNotSkipHandlers<H, E>(handlers: seq<H>, event: E, f1: (H, E) -> bool, f2: (H, E) -> bool)
    ensures Called(Multicast(handlers, event, f1)) == handlers
    ensures Called(Multicast(handlers, event, f1)) == Called(Multicast(handlers, event, f2))
  {
  }

  /** Three handlers for one key, the second raising: the first and the third still run. */
  lemma SecondOfThreeFaults<H, E>(a: H, b: H, c: H, event: E, faults: (H, E) -> bool)
    requires !faults(a, event) && faults(b, event) && !faults(c, event)
    ensures Multicast([a, b, c], event, faults) ==
            [Attempt(a, event, false), Attempt(b, event, true), Attempt(c, event, false)]
  {
  }

  /** A handler registered last is called last, after all earlier ones. */
  lemma {:induction false} MulticastAppend<H, E>(handlers: seq<H>, h: H, event: E, faults: (H, E) -> bool)
    ensures Multicast(handlers + [h], event, faults) ==
            Multicast(handlers, event, faults) + [Attempt(h, event, faults(h, event))]
  {
    if |handlers| > 0 {
      assert (handlers + [h])[1..] == handlers[1..] + [h];
      MulticastAppend(handlers[1..], h, event, faults);
    }
  }

  /** Dispatch on a registry: multicast to the handlers of the event's key. */
  function Dispatch<H, E>(r: Registry<H>, key: int, event: E, faults: (H, E) -> bool): (attempts: seq<Attempt<H, E>>)
    ensures key !in r ==> attempts == []
    ensures Called(attempts) == Handlers(r, key)
    ensures forall i :: 0 <= i < |attempts| ==> attempts[i].event == event
  {
    FaultsDoNotSkipHandlers(Handlers(r, key), event, faults, faults);
    Multicast(Handlers(r, key), event, faults)
  }

  /** After `Add`, dispatch on that key calls the old handlers and then the new one. */
  lemma DispatchAfterAdd<H, E>(r: Registry<H>, key: int, h: H, event: E, faults: (H, E) -> bool)
    ensures Dispatch(Add(r, key, h), key, event, faults) ==
            Dispatch(r, key, event, faults) + [Attempt(h, event, faults(h, event))]
  {
    MulticastAppend(Handlers(r, key), h, event, faults);
  }

  /** Registering and then unregistering a new handler leaves dispatch for every key as it was. */
  lemma DispatchAfterAddThenRemove<H, E>(r: Registry<H>, key: int, h: H, event: E, faults: (H, E) -> bool)
    requires h !in Handlers(r, key)
    ensures forall k :: Dispatch(Remove(Add(r, key, h), key, h), k, event, faults) == Dispatch(r, k, event, faults)
  {
    AddThenRemove(r, key, h);
  }
}
