/**
 * The "newest first, keep five" update that two demos apply to their logs:
 * `[entry, ...prev].slice(0, 5)`.
 */
module NewestFirst {

  /** How many entries a log keeps. */
  const Keep: nat := 5

  function Min(a: nat, b: nat): nat {
    if a <= b then a else b
  }

  /** `[x, ...log].slice(0, Keep)`. */
  function Push<T>(log: seq<T>, x: T): (r: seq<T>)
    ensures |r| == Min(|log| + 1, Keep)
    ensures r[0] == x
    ensures r[1..] == log[..|r| - 1]
  {
    ([x] + log)[..Min(|log| + 1, Keep)]
  }

  /** The log after pushing `events` one by one, oldest first, onto an empty log. */
  function Replay<T>(events: seq<T>): seq<T>
    decreases |events|
  {
    if events == [] then [] else Push(Replay(events[..|events| - 1]), events[|events| - 1])
  }

  /** `events` from the most recent to the oldest. */
  function NewestToOldest<T>(events: seq<T>): (r: seq<T>)
    ensures |r| == |events|
    decreases |events|
  {
    if events == [] then [] else [events[|events| - 1]] + NewestToOldest(events[..|events| - 1])
  }

  /** A log fed `events` holds exactly the Keep most recent of them, newest first. */
  lemma {:induction false} ReplayKeepsNewest<T>(events: seq<T>)
    ensures Replay(events) == NewestToOldest(events)[..Min(|events|, Keep)]
    decreases |events|
  {
    if events != [] {
      var older := events[..|events| - 1];
      var x := events[|events| - 1];
      ReplayKeepsNewest(older);
      var r := Replay(events);
      var n := Min(|events|, Keep);
      assert r == Push(Replay(older), x);
      assert |r| == n;
      assert NewestToOldest(events) == [x] + NewestToOldest(older);
      forall k | 0 <= k < n
        ensures r[k] == NewestToOldest(events)[k]
      {
        if k > 0 {
          assert r[k] == r[1..][k - 1];
        }
      }
    }
  }
}
