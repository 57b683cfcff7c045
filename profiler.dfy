/**
 * The `<Profiler>` demo (ProfilerDemo): the render history that `onRender`
 * keeps, newest first and at most five records, the width of each duration
 * bar, and the update counter. Durations are taken as given; the rounding to
 * two decimals is not modelled.
 */
module ProfilerLog {
  import NewestFirst

  datatype Phase = Mount | Update | NestedUpdate

  /** One `onRender` report as the history stores it. */
  datatype RenderData = RenderData(
    id: string,
    phase: Phase,
    actualDuration: real,
    baseDuration: real,
    startTime: real,
    commitTime: real)

  /** The demo's state: the render history, the counter and the heavy-load switch. */
  datatype ProfilerState = ProfilerState(history: seq<RenderData>, count: int, heavyLoad: bool)

  const InitialState := ProfilerState([], 0, false)

  /** `onRender(...)`: record the report at the head of the history and keep five. */
  function OnRender(s: ProfilerState, id: string, phase: Phase, actualDuration: real, baseDuration: real,
                    startTime: real, commitTime: real): (r: ProfilerState)
    ensures |r.history| == NewestFirst.Min(|s.history| + 1, NewestFirst.Keep)
    ensures r.history[0].id == id && r.history[0].phase == phase
    ensures r.history[0] == RenderData(id, phase, actualDuration, baseDuration, startTime, commitTime)
    ensures r.history[1..] == s.history[..|r.history| - 1]
    ensures r.count == s.count && r.heavyLoad == s.heavyLoad
  {
    var record := RenderData(id, phase, actualDuration, baseDuration, startTime, commitTime);
    s.(history := NewestFirst.Push(s.history, record))
  }

  /** "Trigger Update": `setCount(c => c + 1)`. */
  function TriggerUpdate(s: ProfilerState): (r: ProfilerState)
    ensures r.count == s.count + 1
    ensures r.history == s.history && r.heavyLoad == s.heavyLoad
  {
    s.(count := s.count + 1)
  }

  /** The load switch: `setHeavyLoad(!heavyLoad)`. */
  function ToggleLoad(s: ProfilerState): (r: ProfilerState)
    ensures r.heavyLoad == !s.heavyLoad
    ensures r.history == s.history && r.count == s.count
  {
    s.(heavyLoad := !s.heavyLoad)
  }

  /** A history built by any run of reports and button presses never holds more than five records. */
  lemma HistoryBounded(s: ProfilerState, id: string, phase: Phase, a: real, b: real, st: real, c: real)
    requires |s.history| <= NewestFirst.Keep
    ensures |OnRender(s, id, phase, a, b, st, c).history| <= NewestFirst.Keep
    ensures |TriggerUpdate(s).history| <= NewestFirst.Keep
    ensures |ToggleLoad(s).history| <= NewestFirst.Keep
  {
  }

  /** When the history is full, a new report drops the oldest record and keeps the other four in order. */
  lemma FullHistoryDropsOldest(s: ProfilerState, id: string, phase: Phase, a: real, b: real, st: real, c: real)
    requires |s.history| == NewestFirst.Keep
    ensures var h := OnRender(s, id, phase, a, b, st, c).history;
            |h| == NewestFirst.Keep && h[1..] == s.history[..NewestFirst.Keep - 1]
  {
  }

  /** The width of a duration bar, in percent: `Math.min(actualDuration * 10, 100)`. */
  function BarWidth(actualDuration: real): (w: real)
    ensures w <= 100.0
    ensures actualDuration <= 10.0 ==> w == actualDuration * 10.0
    ensures actualDuration >= 10.0 ==> w == 100.0
  {
    if actualDuration * 10.0 <= 100.0 then actualDuration * 10.0 else 100.0
  }

  /** A longer render never gets a narrower bar. */
  lemma BarWidthMonotone(d1: real, d2: real)
    requires d1 <= d2
    ensures BarWidth(d1) <= BarWidth(d2)
  {
  }
}
