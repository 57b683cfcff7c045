/**
 * The custom hooks of the `useDebugValue` demo (DebugValueDemo): the online
 * status flag driven by browser events, the debounced delayed value, their
 * two debug labels, and the +1 counter. Timers are modelled by handles: the
 * browser may fire any handle it was given, and a cleared handle must have
 * no effect.
 */
module DebugHooks {
  import opened Wrappers
  import opened Text

  /** `useOnlineStatus`: the `isOnline` state and the listeners that update it. */
  class OnlineStatus {
    var isOnline: bool

    /** `useState(true)`. */
    constructor ()
      ensures isOnline
    {
      isOnline := true;
    }

    /** The mount effect copies `navigator.onLine`. */
    method Mount(navigatorOnLine: bool)
      modifies this
      ensures isOnline == navigatorOnLine
    {
      isOnline := navigatorOnLine;
    }

    /** The 'online' event listener. */
    method OnOnline()
      modifies this
      ensures isOnline
    {
      isOnline := true;
    }

    /** The 'offline' event listener. */
    method OnOffline()
      modifies this
      ensures !isOnline
    {
      isOnline := false;
    }
  }

  /** The label `useOnlineStatus` passes to `useDebugValue`: `isOnline ? 'Online' : 'Offline'`. */
  function OnlineLabel(isOnline: bool): (s: string)
    ensures s == "Online" <==> isOnline
    ensures s == "Offline" <==> !isOnline
  {
    if isOnline then "Online" else "Offline"
  }

  /**
   * The formatter given to `useDebugValue` in `useDelayedValue`,
   * `Delayed: ${v} (${delay}ms)`, for the demo's numeric counter. It is
   * applied to the hook's current argument `value`, not to `delayedValue`.
   */
  function DelayedLabel(v: int, delay: nat): (s: string)
    ensures var value, ms := IntToString(v), NatToString(delay);
            && |s| == 9 + |value| + 2 + |ms| + 3
            && s[..9] == "Delayed: " && s[9..9 + |value|] == value
            && s[9 + |value|..11 + |value|] == " (" && s[11 + |value|..11 + |value| + |ms|] == ms
            && s[|s| - 3..] == "ms)"
  {
    "Delayed: " + IntToString(v) + " (" + NatToString(delay) + "ms)"
  }

  /** The label shows the value: two values with the same delay never share a label. */
  lemma DelayedLabelDistinguishesValues(a: int, b: int, delay: nat)
    requires DelayedLabel(a, delay) == DelayedLabel(b, delay)
    ensures a == b
  {
    var sa, sb := IntToString(a), IntToString(b);
    var tail := " (" + NatToString(delay) + "ms)";
    assert DelayedLabel(a, delay) == "Delayed: " + sa + tail;
    assert DelayedLabel(b, delay) == "Delayed: " + sb + tail;
    assert |sa| == |sb|;
    assert sa == DelayedLabel(a, delay)[9..9 + |sa|];
    assert sb == DelayedLabel(b, delay)[9..9 + |sb|];
    IntToStringInjective(a, b);
  }

  /** A scheduled `setTimeout`: its handle and the value it will commit. */
  datatype Timer<T> = Timer(handle: nat, value: T)

  /** `useDelayedValue(value, delay)`: the committed value and the one pending timeout. */
  class DelayedValue<T(==)> {
    /** The arguments of the latest render, the effect's dependencies. */
    var value: T
    var delay: nat
    /** The state the hook returns. */
    var delayedValue: T
    /** The timeout the effect scheduled and has not yet cleared, if it has not fired. */
    var pending: Option<Timer<T>>
    /** The next handle `setTimeout` hands out. */
    var nextHandle: nat
    /** Every value the hook has been given. */
    ghost var seen: set<T>

    /** The hook only ever holds values it was given, and only the latest value can be pending. */
    ghost predicate Valid()
      reads this
    {
      && value in seen
      && delayedValue in seen
      && (pending.Some? ==> pending.value.value == value && pending.value.handle < nextHandle)
    }

    /** First render: `useState(value)`, then the effect schedules the first timeout. */
    constructor (value: T, delay: nat)
      ensures Valid()
      ensures this.value == value && this.delay == delay && delayedValue == value
      ensures pending == Some(Timer(0, value)) && nextHandle == 1 && seen == {value}
    {
      this.value := value;
      this.delay := delay;
      delayedValue := value;
      pending := Some(Timer(0, value));
      nextHandle := 1;
      seen := {value};
    }

    /**
     * A re-render with new arguments. When either dependency changed, the
     * cleanup clears the pending timeout and the effect schedules a new one
     * for the new value; otherwise nothing happens.
     */
    method Render(newValue: T, newDelay: nat)
      requires Valid()
      modifies this
      ensures Valid()
      ensures value == newValue && delay == newDelay && delayedValue == old(delayedValue)
      ensures seen == old(seen) + {newValue}
      ensures old(value) == newValue && old(delay) == newDelay ==>
                pending == old(pending) && nextHandle == old(nextHandle)
      ensures old(value) != newValue || old(delay) != newDelay ==>
                pending == Some(Timer(old(nextHandle), newValue)) && nextHandle == old(nextHandle) + 1
    {
      seen := seen + {newValue};
      if value != newValue || delay != newDelay {
        pending := None;
        value, delay := newValue, newDelay;
        pending := Some(Timer(nextHandle, newValue));
        nextHandle := nextHandle + 1;
      }
    }

    /** The browser fires the timeout with the given handle; a cleared one does nothing. */
    method Fire(handle: nat)
      requires Valid()
      modifies this
      ensures Valid()
      ensures value == old(value) && delay == old(delay) && seen == old(seen) && nextHandle == old(nextHandle)
      ensures old(pending).Some? && old(pending).value.handle == handle ==>
                delayedValue == value && pending.None?
      ensures !(old(pending).Some? && old(pending).value.handle == handle) ==>
                delayedValue == old(delayedValue) && pending == old(pending)
      ensures delayedValue == old(delayedValue) || delayedValue == value
    {
      if pending.Some? && pending.value.handle == handle {
        delayedValue := pending.value.value;
        pending := None;
      }
    }
  }

  /** The demo's counter, `useState(0)` with the +1 button. */
  class Counter {
    var count: int

    constructor ()
      ensures count == 0
    {
      count := 0;
    }

    /** `setCount(c => c + 1)`. */
    method Increment()
      modifies this
      ensures count == old(count) + 1
    {
      count := count + 1;
    }
  }
}
