/**
 * The `useEffectEvent` demo (EffectEventDemo): the bounded notification log
 * fed by incoming chat messages, and the hand-written `useEffectEventImpl`
 * whose stable wrapper always calls the latest callback. The clock reading
 * (`toLocaleTimeString`) is a parameter; the simulated random messages are
 * not modelled.
 */
module EffectEvent {
  import NewestFirst

  /** `isDarkTheme ? '(Dark Mode)' : '(Light Mode)'`. */
  function ThemeLabel(isDarkTheme: bool): string {
    if isDarkTheme then "(Dark Mode)" else "(Light Mode)"
  }

  /** The notification text `[${timestamp}] ${msg} ${themeLabel}`. */
  function Notification(timestamp: string, msg: string, isDarkTheme: bool): string {
    "[" + timestamp + "] " + msg + " " + ThemeLabel(isDarkTheme)
  }

  /** The notification ends in "(Dark Mode)" exactly when the dark theme was on, and otherwise in "(Light Mode)". */
  lemma ThemeSuffix(timestamp: string, msg: string, isDarkTheme: bool)
    ensures var n := Notification(timestamp, msg, isDarkTheme);
            && |n| >= 11
            && (n[|n| - 11..] == "(Dark Mode)" <==> isDarkTheme)
            && (!isDarkTheme ==> n[|n| - 12..] == "(Light Mode)")
  {
    var n := Notification(timestamp, msg, isDarkTheme);
    var prefix := "[" + timestamp + "] " + msg + " ";
    assert n == prefix + ThemeLabel(isDarkTheme);
    if isDarkTheme {
      assert n[|n| - 11..] == ThemeLabel(true);
    } else {
      assert n[|n| - 12..] == ThemeLabel(false);
      assert n[|n| - 11..] == "Light Mode)";
      assert n[|n| - 11] == 'L';
    }
  }

  /** `handleMessage(msg)`'s update of the notification list. */
  function HandleMessage(prev: seq<string>, timestamp: string, msg: string, isDarkTheme: bool): (r: seq<string>)
    ensures 1 <= |r| <= NewestFirst.Keep && |r| <= |prev| + 1
    ensures r[0] == Notification(timestamp, msg, isDarkTheme)
    ensures r[1..] == prev[..|r| - 1]
    ensures |prev| < NewestFirst.Keep ==> |r| == |prev| + 1
    ensures |prev| >= NewestFirst.Keep ==> r[1..] == prev[..NewestFirst.Keep - 1]
  {
    NewestFirst.Push(prev, Notification(timestamp, msg, isDarkTheme))
  }

  /** `useRef(fn)`: a mutable slot holding a callback. */
  class Slot<A, R> {
    var current: A -> R

    constructor (fn: A -> R)
      ensures current == fn
    {
      current := fn;
    }
  }

  /** The function `useCallback(..., [])` returns: created once, it calls whatever the slot holds when invoked. */
  class StableCallback<A, R> {
    const slot: Slot<A, R>

    constructor (slot: Slot<A, R>)
      ensures this.slot == slot
    {
      this.slot := slot;
    }

    /** `(...args) => ref.current(...args)`. */
    method Call(a: A) returns (r: R)
      ensures r == slot.current(a)
    {
      r := slot.current(a);
    }
  }

  /**
   * One `useEffectEventImpl(fn)` hook instance: its ref, the wrapper it
   * hands out on every render, and the callback of the latest render, which
   * the passive effect stores into the ref only after the commit.
   */
  class EffectEventHook<A, R> {
    const ref: Slot<A, R>
    const wrapper: StableCallback<A, R>
    /** The `fn` of the latest render. */
    var rendered: A -> R

    ghost predicate Valid()
      reads this
    {
      wrapper.slot == ref
    }

    /** The first render creates the ref holding fn and the wrapper bound to it. */
    constructor (fn: A -> R)
      ensures Valid() && ref.current == fn && rendered == fn && fresh(ref) && fresh(wrapper)
    {
      var slot := new Slot(fn);
      ref := slot;
      wrapper := new StableCallback(slot);
      rendered := fn;
    }

    /** A later render with a possibly new `fn`: it returns the same wrapper and does not touch the ref. */
    method Render(fn: A -> R) returns (w: StableCallback<A, R>)
      requires Valid()
      modifies this`rendered
      ensures Valid() && rendered == fn && w == wrapper
      ensures ref.current == old(ref.current)
    {
      rendered := fn;
      w := wrapper;
    }

    /** The effect `ref.current = fn` after the commit, for the `fn` of the latest render. */
    method CommitEffect()
      requires Valid()
      modifies ref
      ensures Valid() && ref.current == rendered
    {
      ref.current := rendered;
    }

    /** Between a render and its effect, the wrapper still runs the previous callback. */
    method CallBeforeCommit(fn: A -> R, a: A) returns (r: R)
      requires Valid()
      modifies this`rendered
      ensures Valid() && rendered == fn && r == old(ref.current)(a)
    {
      var w := Render(fn);
      r := w.Call(a);
    }

    /** Once the effect of a render with fn has run, calling the wrapper that render returned runs fn. */
    method RenderCommitThenCall(fn: A -> R, a: A) returns (r: R)
      requires Valid()
      modifies this`rendered, ref
      ensures Valid() && ref.current == fn && r == fn(a)
    {
      var w := Render(fn);
      CommitEffect();
      r := w.Call(a);
    }
  }
}
