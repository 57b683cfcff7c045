# React 19 hooks demos: the hand-written rules, in Dafny

This repository is a site of interactive demos for React hooks and APIs. It has no engine or protocol. Each demo wires one React primitive to a few lines of hand-written logic. This project models that logic once timers, randomness and the DOM are taken out, one Dafny module per demo file:

- `MissionControl` (`use-action-state/FormDemo.tsx`): the `submitMission` server action. It validates the mission name (at least 3 UTF-16 code units, as JavaScript's `length` counts them, and no "error" in any letter case) and builds the next action state.
- `OptimisticChat` (`use-optimistic/MessageDemo.tsx`): the mock server that rejects texts containing "fail". Also the `useOptimistic` append reducer, the `handleSend` flow (a `Chat` class whose methods update the message list in place), and the status label under each bubble.
- `DeferredSearch` (`use-deferred-value/SearchDemo.tsx`): the `HeavyList` filtering loop over items 0..499, proved against a specification function. Also the "Rendering..." indicator.
- `ResourceCache` (`use-api/UseApiDemo.tsx`): `fetchData`'s result, and the module-level promise cache. The cache is a class, `PromiseCache`, whose `entries` map `getPromise` updates in place. Also the conditional `ContextComponent`.
- `VideoRemote` (`use-imperative-handle/VideoPlayerDemo.tsx`): the imperative handle (play, pause, reset, toggleMute, getStatus), over a video element with `currentTime`, `muted` and `paused` fields. Also the remote control and its `lastAction` line.
- `DebugHooks` (`use-debug-value/DebugValueDemo.tsx`): `useOnlineStatus`, the debounced `useDelayedValue` with its timers as handles, the two debug labels, and the +1 counter.
- `EffectEvent` (`use-effect-event/EffectEventDemo.tsx`): the bounded notification log, and `useEffectEventImpl`. That hook keeps a mutable ref and returns a stable wrapper that calls the latest callback.
- `ProfilerLog` (`profiler/ProfilerDemo.tsx`): `onRender`'s bounded render history, the capped duration bar, and the update counter.
- `Viewport` (`use-sync-external-store/NetworkStatusDemo.tsx`): `getDeviceType`, the `{"w":..,"h":..}` snapshot string with its parser, and the server fallbacks.
- `InsertionStyles` (`use-insertion-effect/InsertionEffectDemo.tsx`): the class name and CSS rule derived from the chosen colour.
- `Navigation` (`navigation/Sidebar.tsx`): the `SECTIONS` route table and the exact-match active test.

Shared modules: `Wrappers` (Option, Result), `Text` and `NewestFirst`. `Text` holds ASCII `toLowerCase`/`toUpperCase`, `includes`, and decimal rendering of integers with the parser that reads it back. `NewestFirst` is the `[x, ...prev].slice(0, 5)` update that two demos share.

Deferral and transitions are React's own `useDeferredValue` and `useTransition` (`use-deferred-value/SearchDemo.tsx:9`, `use-transition/TabDemo.tsx:8`), so no scheduling is modelled here. The only staleness test the demo code itself computes is `query !== deferredQuery`, which `DeferredSearch.RenderingIndicator` models.

Two details of the code that the model keeps as written:
- When a send settles, the optimistic entry is dropped and the message stays in the source list, marked `error: true` (FAILED) if the server rejected it. In the code the catch block appends the failed entry before `handleSend` returns, and the overlay is discarded only after that; `OptimisticChat.Chat.Settle` does both in one step, so no order between them is modelled.
- The debug formatter of `useDelayedValue` formats the current `value`, not `delayedValue`. The model follows the code.

The play button's label is spelled "Exectued: .play()" in the source, and the model keeps that spelling.

## Model

| member | source | states |
|---|---|---|
| `MissionControl.SubmitMission` | components/demos/use-action-state/FormDemo.tsx:10-37 | The result is stamped with the given time. A missing name or one under 3 UTF-16 code units fails with "Mission name too short (min 3 chars)". A longer name containing "error" in any case fails with "System Failure: Restricted Keyword Detected". A success carries `Mission "<name>" launched successfully!` |
| `MissionControl.SuccessIff` | components/demos/use-action-state/FormDemo.tsx:16-36 | success holds iff the name is present, has at least 3 UTF-16 code units and has no case-insensitive "error" |
| `MissionControl.AstralNamesCountTwice` | components/demos/use-action-state/FormDemo.tsx:16 | The length check counts UTF-16 code units like JavaScript's `length`: a name of two characters beyond U+FFFF is 4 units long and is never rejected as too short |
| `MissionControl.KeywordNamesAreLongEnough` | components/demos/use-action-state/FormDemo.tsx:16-30 | A name containing "error" has length at least 5, so it passes the length check and always gets the keyword message: the two failure branches never overlap |
| `MissionControl.IgnoresPreviousState` | components/demos/use-action-state/FormDemo.tsx:10-37 | The same form data gives the same state whatever the previous state was |
| `MissionControl.LaunchedMessageQuotesName` | components/demos/use-action-state/FormDemo.tsx:32-36 | The launch message embeds the name verbatim, and the name can be read back from it |
| `MissionControl.MessageDeterminesOutcome` | components/demos/use-action-state/FormDemo.tsx:16-36 | The three outcomes have distinct messages: success iff the message is neither rejection message |
| `MissionControl.InitialStateAwaits` | components/demos/use-action-state/FormDemo.tsx:43 | The initial state has timestamp 0, which the log at line 97 shows as "waiting". Any submission stamped with a nonzero time leaves that state |
| `OptimisticChat.SendToServer` | components/demos/use-optimistic/MessageDemo.tsx:18-26 | The server rejects with "Message delivery failed" exactly when the lower-cased text contains "fail"; otherwise it returns the text unchanged |
| `OptimisticChat.AppendOptimistic` | components/demos/use-optimistic/MessageDemo.tsx:37-42 | The reducer keeps every existing message in place and order and puts the new one last |
| `OptimisticChat.OverlayAppends` | components/demos/use-optimistic/MessageDemo.tsx:37-42 | Applying the pending updates one by one shows the base list followed by the pending messages in order |
| `OptimisticChat.SettledEntry` | components/demos/use-optimistic/MessageDemo.tsx:59-79 | The settled entry is a user message with the sent text and no sending flag. Its error flag is set exactly when the server rejected the text |
| `OptimisticChat.LabelsDistinct` | components/demos/use-optimistic/MessageDemo.tsx:128-140 | "FAILED", "SENDING..." and "SENT" are three different labels |
| `OptimisticChat.StatusLabel` | components/demos/use-optimistic/MessageDemo.tsx:126-140 | Bot messages have no label. error shows FAILED even when sending is also set. Otherwise sending shows SENDING..., and otherwise SENT |
| `OptimisticChat.LabelsAcrossASend` | components/demos/use-optimistic/MessageDemo.tsx:51-78 | The optimistic entry reads SENDING.... The settled entry reads FAILED when the text contains "fail", and SENT otherwise |
| `OptimisticChat.ShownLabels` | components/demos/use-optimistic/MessageDemo.tsx:97-140 | In a consistent chat the view lists the settled messages first, none reading SENDING..., then each pending optimistic entry, each reading SENDING... |
| `OptimisticChat.Chat.constructor` | components/demos/use-optimistic/MessageDemo.tsx:29-32 | The conversation starts with the two bot messages, nothing pending and an empty field |
| `OptimisticChat.Chat.Type` | components/demos/use-optimistic/MessageDemo.tsx:153-159 | Typing sets the field's text |
| `OptimisticChat.Chat.Submit` | components/demos/use-optimistic/MessageDemo.tsx:44-57 | An empty text changes nothing. Otherwise the field is reset and exactly one optimistic user entry with the text and sending=true is shown after all existing messages. The source list is untouched |
| `OptimisticChat.Chat.Settle` | components/demos/use-optimistic/MessageDemo.tsx:59-79 | The source list grows by exactly the settled entry, confirmed or marked failed, and is not rolled back. The overlay is dropped, so the view is the source list |
| `OptimisticChat.Chat.HandleSend` | components/demos/use-optimistic/MessageDemo.tsx:44-80 | An empty text adds nothing anywhere. A non-empty one appends exactly one settled entry to the source list and edits no existing message |
| `OptimisticChat.SendsOnlyAppend` | components/demos/use-optimistic/MessageDemo.tsx:64-78 | Over any run of sends the old list is a prefix of the new one, which is longer by the number of non-empty texts |
| `DeferredSearch.HeavyList` | components/demos/use-deferred-value/SearchDemo.tsx:77-103 | The loop renders exactly `View(query)`: the placeholder for an empty query, otherwise the indices below 500 that match, in order |
| `DeferredSearch.LowerItemLabel` | components/demos/use-deferred-value/SearchDemo.tsx:93 | The lower-cased label of item i is "item " followed by the decimal digits of i |
| `DeferredSearch.MatchingIndicesExact` | components/demos/use-deferred-value/SearchDemo.tsx:92-95 | Index i is listed iff i is in range and lower-cased `Item i` contains the lower-cased query |
| `DeferredSearch.MatchingIndicesIncreasing` | components/demos/use-deferred-value/SearchDemo.tsx:92-95 | Listed indices are strictly increasing and below the bound, so there are at most that many |
| `DeferredSearch.ViewShape` | components/demos/use-deferred-value/SearchDemo.tsx:77-103 | The placeholder appears iff the query is empty. Otherwise the list holds at most 500 indices, strictly increasing, and exactly the matching indices in 0..499 |
| `DeferredSearch.NoResultsIff` | components/demos/use-deferred-value/SearchDemo.tsx:78-100 | "No results found" appears iff the query is non-empty and no index in 0..499 matched |
| `DeferredSearch.CaseInsensitive` | components/demos/use-deferred-value/SearchDemo.tsx:93 | A query and its upper-cased form match the same items and render the same view |
| `DeferredSearch.RenderingIndicator` | components/demos/use-deferred-value/SearchDemo.tsx:47-49 | "Rendering..." is shown exactly when the typed query differs from the deferred one |
| `DeferredSearch.ColumnsDifferOnlyWhileRendering` | components/demos/use-deferred-value/SearchDemo.tsx:47-65 | A sanity fact: whenever the optimized column (deferred query) and the comparison column (typed query) show different lists, "Rendering..." is shown |
| `DeferredSearch.IndicatorTracksQueryNotList` | components/demos/use-deferred-value/SearchDemo.tsx:47-52 | The indicator follows the query text, not the list: after a change of letter case only, it is shown although the deferred list is already the typed query's list |
| `ResourceCache.FetchData` | components/demos/use-api/UseApiDemo.tsx:10-20 | The fetched record carries the requested id and the fixed details text. Its title is "Resource Packet #" followed by the id in decimal |
| `ResourceCache.TitleIdentifiesResource` | components/demos/use-api/UseApiDemo.tsx:15 | Two ids with the same title are the same id |
| `ResourceCache.PromiseCache.constructor` | components/demos/use-api/UseApiDemo.tsx:24 | The cache starts empty with no fetch started |
| `ResourceCache.PromiseCache.GetPromise` | components/demos/use-api/UseApiDemo.tsx:25-30 | Afterwards the id is cached and the returned promise is the cached one, resolving to `fetchData(id)`. A hit changes nothing and starts no fetch. A miss adds exactly this id with a new fetch. Other entries are never touched, and distinct ids never share a fetch |
| `ResourceCache.PromiseCache.GetPromiseTwice` | components/demos/use-api/UseApiDemo.tsx:25-30 | Two calls for the same id return the very same promise and start at most one fetch |
| `ResourceCache.ContextComponent` | components/demos/use-api/UseApiDemo.tsx:51-62 | Renders nothing exactly when `show` is false; otherwise it shows the context value |
| `VideoRemote.VideoPlayer.constructor` | components/demos/use-imperative-handle/VideoPlayerDemo.tsx:19-21 | The player starts not playing and not muted, holding the given element or none |
| `VideoRemote.VideoPlayer.Play` | components/demos/use-imperative-handle/VideoPlayerDemo.tsx:25-28 | The player is marked playing. An attached element is unpaused, with its time and mute flag unchanged |
| `VideoRemote.VideoPlayer.Pause` | components/demos/use-imperative-handle/VideoPlayerDemo.tsx:29-32 | The player is marked not playing. An attached element is paused, with its time and mute flag unchanged |
| `VideoRemote.VideoPlayer.Reset` | components/demos/use-imperative-handle/VideoPlayerDemo.tsx:33-39 | The player is marked not playing even without an element. An attached element is rewound to 0 and paused, and its mute flag is unchanged |
| `VideoRemote.VideoPlayer.ToggleMute` | components/demos/use-imperative-handle/VideoPlayerDemo.tsx:40-45 | With an element, its muted flag flips and `isMuted` mirrors it, leaving playback alone. Without one, nothing changes |
| `VideoRemote.VideoPlayer.ToggleMuteTwice` | components/demos/use-imperative-handle/VideoPlayerDemo.tsx:40-45 | Two toggles restore the element's muted flag, and `isMuted` still mirrors it |
| `VideoRemote.VideoPlayer.GetStatus` | components/demos/use-imperative-handle/VideoPlayerDemo.tsx:46-48 | "Playing" exactly when the player is playing, "Paused" exactly when it is not |
| `VideoRemote.ActionLabelsDistinct` | components/demos/use-imperative-handle/VideoPlayerDemo.tsx:92-112 | The initial label and the four button labels are pairwise different |
| `VideoRemote.Remote.constructor` | components/demos/use-imperative-handle/VideoPlayerDemo.tsx:91-92 | The remote starts with "Initialized" as its last action |
| `VideoRemote.Remote.HandlePlay` | components/demos/use-imperative-handle/VideoPlayerDemo.tsx:94-97 | The last action reads "Exectued: .play()". An attached player is playing afterwards, with its mute state unchanged, and its element, if any, is unpaused with its time and muted flag unchanged |
| `VideoRemote.Remote.HandlePause` | components/demos/use-imperative-handle/VideoPlayerDemo.tsx:99-102 | The last action reads "Executed: .pause()". An attached player is not playing, with its mute state unchanged, and its element, if any, is paused with its time and muted flag unchanged |
| `VideoRemote.Remote.HandleReset` | components/demos/use-imperative-handle/VideoPlayerDemo.tsx:104-107 | The last action reads "Executed: .reset()". An attached player is not playing, and its element, if any, is rewound and paused with its muted flag unchanged |
| `VideoRemote.Remote.HandleMute` | components/demos/use-imperative-handle/VideoPlayerDemo.tsx:109-112 | The last action reads "Executed: .toggleMute()". An attached player's element flips its muted flag, which `isMuted` mirrors, with its paused flag and time unchanged; playing is unchanged. A player with no element keeps `isMuted` as it was |
| `DebugHooks.OnlineStatus.constructor` | components/demos/use-debug-value/DebugValueDemo.tsx:10 | The status starts online |
| `DebugHooks.OnlineStatus.Mount` | components/demos/use-debug-value/DebugValueDemo.tsx:16 | Mounting copies the browser's online flag |
| `DebugHooks.OnlineStatus.OnOnline` | components/demos/use-debug-value/DebugValueDemo.tsx:17 | The 'online' event sets the status online |
| `DebugHooks.OnlineStatus.OnOffline` | components/demos/use-debug-value/DebugValueDemo.tsx:18 | The 'offline' event sets the status offline |
| `DebugHooks.OnlineLabel` | components/demos/use-debug-value/DebugValueDemo.tsx:30 | The debug label is "Online" exactly when online and "Offline" exactly when offline |
| `DebugHooks.DelayedLabel` | components/demos/use-debug-value/DebugValueDemo.tsx:45 | The label is "Delayed: ", the value in decimal, " (", the delay in decimal and "ms)", each at its stated position |
| `DebugHooks.DelayedLabelDistinguishesValues` | components/demos/use-debug-value/DebugValueDemo.tsx:45 | With the same delay, two values with the same `Delayed: v (delayms)` label are equal |
| `DebugHooks.DelayedValue.constructor` | components/demos/use-debug-value/DebugValueDemo.tsx:35-41 | The first render returns the initial value and schedules one timeout for it |
| `DebugHooks.DelayedValue.Render` | components/demos/use-debug-value/DebugValueDemo.tsx:38-41 | The returned value does not change on render. If value or delay changed, the old timeout is replaced by a fresh one for the new value; otherwise the pending timeout is kept. Only the latest value is ever pending |
| `DebugHooks.DelayedValue.Fire` | components/demos/use-debug-value/DebugValueDemo.tsx:39-40 | Only the live timeout commits, and it commits the latest value. A cleared or already fired handle changes nothing. The returned value is always one the hook was given |
| `DebugHooks.Counter.constructor` | components/demos/use-debug-value/DebugValueDemo.tsx:53 | The counter starts at 0 |
| `DebugHooks.Counter.Increment` | components/demos/use-debug-value/DebugValueDemo.tsx:78 | The +1 button adds exactly one |
| `EffectEvent.ThemeSuffix` | components/demos/use-effect-event/EffectEventDemo.tsx:75-78 | A notification ends in "(Dark Mode)" exactly when the dark theme was on, and otherwise in "(Light Mode)" |
| `EffectEvent.HandleMessage` | components/demos/use-effect-event/EffectEventDemo.tsx:75-79 | The new notification comes first, followed by the previous ones in order. The list grows by one until it holds five, after which the oldest is dropped |
| `EffectEvent.Slot.constructor` | components/demos/use-effect-event/EffectEventDemo.tsx:14 | The ref starts holding the first callback |
| `EffectEvent.StableCallback.constructor` | components/demos/use-effect-event/EffectEventDemo.tsx:22-24 | The wrapper is bound to the hook's ref |
| `EffectEvent.StableCallback.Call` | components/demos/use-effect-event/EffectEventDemo.tsx:22-24 | Calling the wrapper returns what the ref's current callback returns for the same arguments |
| `EffectEvent.EffectEventHook.constructor` | components/demos/use-effect-event/EffectEventDemo.tsx:13-25 | The first render creates a new ref already holding fn (`useRef(fn)`) and a new wrapper bound to that ref |
| `EffectEvent.EffectEventHook.Render` | components/demos/use-effect-event/EffectEventDemo.tsx:18-24 | A later render returns the same wrapper as before and leaves the ref untouched; it only records its callback for the effect |
| `EffectEvent.EffectEventHook.CommitEffect` | components/demos/use-effect-event/EffectEventDemo.tsx:18-20 | The passive effect stores the latest render's callback into the ref |
| `EffectEvent.EffectEventHook.CallBeforeCommit` | components/demos/use-effect-event/EffectEventDemo.tsx:18-24 | A call to the wrapper between a render and its effect still runs the previous callback |
| `EffectEvent.EffectEventHook.RenderCommitThenCall` | components/demos/use-effect-event/EffectEventDemo.tsx:18-24 | Once the effect of a render with fn has run, the wrapper that render returned runs fn, the latest callback, not the one it was created with |
| `NewestFirst.Push` | components/demos/use-effect-event/EffectEventDemo.tsx:78 | The new entry comes first, followed by the old log in order, cut to at most five entries |
| `NewestFirst.ReplayKeepsNewest` | components/demos/profiler/ProfilerDemo.tsx:30-37 | A log fed any sequence of entries holds exactly the five most recent (or all, if fewer), newest first |
| `ProfilerLog.OnRender` | components/demos/profiler/ProfilerDemo.tsx:22-38 | The report is recorded at the head of the history with its id, phase and timings. The older records follow in order, at most five in total. The counter and the load switch are unchanged |
| `ProfilerLog.TriggerUpdate` | components/demos/profiler/ProfilerDemo.tsx:72 | "Trigger Update" adds one to the counter and changes nothing else |
| `ProfilerLog.ToggleLoad` | components/demos/profiler/ProfilerDemo.tsx:59 | The load switch flips and nothing else changes |
| `ProfilerLog.HistoryBounded` | components/demos/profiler/ProfilerDemo.tsx:30-37 | A report, an update or a toggle applied to a history of at most five records leaves at most five |
| `ProfilerLog.FullHistoryDropsOldest` | components/demos/profiler/ProfilerDemo.tsx:30-37 | On a full history a report drops the oldest record and keeps the other four in order |
| `ProfilerLog.BarWidth` | components/demos/profiler/ProfilerDemo.tsx:115 | The bar is never wider than 100%. It is ten times the duration up to 10 ms, and full from there on |
| `ProfilerLog.BarWidthMonotone` | components/demos/profiler/ProfilerDemo.tsx:115 | A longer render never gets a narrower bar |
| `Viewport.GetDeviceType` | components/demos/use-sync-external-store/NetworkStatusDemo.tsx:46-50 | Mobile iff width < 640, Tablet iff 640 <= width < 1024, Desktop iff width >= 1024 |
| `Viewport.DeviceTypeMonotone` | components/demos/use-sync-external-store/NetworkStatusDemo.tsx:46-50 | A wider window never gives a narrower device class |
| `Viewport.EncodeSnapshot` | components/demos/use-sync-external-store/NetworkStatusDemo.tsx:30 | `JSON.stringify({ w, h })` written out; a definition whose properties `ParseEncode`, `EncodeParse` and `EncodeInjective` prove |
| `Viewport.ParseSnapshot` | components/demos/use-sync-external-store/NetworkStatusDemo.tsx:44 | `JSON.parse(dimString)` for the snapshot's shape; a definition whose properties `ParseEncode` and `EncodeParse` prove |
| `Viewport.EncodeParse` | components/demos/use-sync-external-store/NetworkStatusDemo.tsx:29-44 | The parser accepts only what the encoder writes: any string that parses is exactly the snapshot of the size it yields (leading zeros are refused, as JSON refuses them) |
| `Viewport.ParseEncode` | components/demos/use-sync-external-store/NetworkStatusDemo.tsx:29-44 | Parsing the snapshot string gives back exactly the width and height it was made from |
| `Viewport.EncodeInjective` | components/demos/use-sync-external-store/NetworkStatusDemo.tsx:25-30 | Different sizes have different snapshot strings, so comparing strings compares sizes |
| `Viewport.ServerSnapshotIsDesktop` | components/demos/use-sync-external-store/NetworkStatusDemo.tsx:43-52 | The server's size snapshot parses back to 1024 by 768, which is classed as a desktop |
| `InsertionStyles.RemoveFirstAt` | components/demos/use-insertion-effect/InsertionEffectDemo.tsx:30 | When the string holds a '#', `replace('#', '')` returns the characters before its first '#' followed by those after it |
| `InsertionStyles.RemoveFirstCounts` | components/demos/use-insertion-effect/InsertionEffectDemo.tsx:30 | `replace('#', '')` removes exactly one '#' when there is one, namely the first, and the other characters keep their order. It returns the string unchanged otherwise |
| `InsertionStyles.ClassName` | components/demos/use-insertion-effect/InsertionEffectDemo.tsx:30 | `box-${color.replace('#', '')}`; a definition whose properties `RemoveFirstCounts`, `ClassNameHashFree` and `PaletteClassNames` prove |
| `InsertionStyles.Rule` | components/demos/use-insertion-effect/InsertionEffectDemo.tsx:31-42 | The template string with the class name and colour filled in; a definition whose properties `RuleSelectsClassAndPaints` proves |
| `InsertionStyles.ClassNameHashFree` | components/demos/use-insertion-effect/InsertionEffectDemo.tsx:30 | The class name is free of '#' exactly when the colour holds at most one '#' |
| `InsertionStyles.PaletteClassNames` | components/demos/use-insertion-effect/InsertionEffectDemo.tsx:59 | The four swatches give box-hotpink, box-8B5CF6, box-10B981 and box-F59E0B |
| `InsertionStyles.PaletteClassNamesDistinct` | components/demos/use-insertion-effect/InsertionEffectDemo.tsx:26-59 | Every swatch's class name is free of '#'. No two swatches share a class, and the initial colour gets box-hotpink |
| `InsertionStyles.RuleSelectsClassAndPaints` | components/demos/use-insertion-effect/InsertionEffectDemo.tsx:31-42 | For any colour, the rule opens with the selector `.<className> {` and declares `background-color: <color>;` right after it |
| `Navigation.IsActive` | components/navigation/Sidebar.tsx:78 | `pathname === item.href`: an exact string match, no prefix match; a definition whose properties `ActiveItems`, `AtMostOneActive` and `UsePathHighlightsOnlyUseApi` prove |
| `Navigation.ActiveItems` | components/navigation/Sidebar.tsx:77-78 | Every highlighted item is an item of the list whose href equals the pathname, and nothing is highlighted iff no href equals it |
| `Navigation.AtMostOneActive` | components/navigation/Sidebar.tsx:78 | In a list with distinct hrefs, at most one item is highlighted for any pathname |
| `Navigation.ActiveContains` | components/navigation/Sidebar.tsx:78 | Every item whose href equals the pathname is highlighted |
| `Navigation.SectionShape` | components/navigation/Sidebar.tsx:9-52 | Five sections, titled and sized as in `SECTIONS`, with 17 links in all |
| `Navigation.AllRoutesAreTheHrefs` | components/navigation/Sidebar.tsx:9-52 | The sidebar's hrefs, in order, are exactly the 17 demo routes |
| `Navigation.RoutesDistinct` | components/navigation/Sidebar.tsx:9-52 | No two sidebar links share an href |
| `Navigation.SidebarHighlightsAtMostOne` | components/navigation/Sidebar.tsx:9-78 | On any page, the sidebar highlights at most one link |
| `Navigation.HomeHighlightsNothing` | components/navigation/Sidebar.tsx:9-78 | On the home page no link is highlighted |
| `Navigation.UsePathHighlightsOnlyUseApi` | components/navigation/Sidebar.tsx:35-78 | On `/hooks/use` only the "use (API)" link is highlighted, not the links whose routes extend that path: the match is exact, not by prefix |
| `Navigation.SectionKeysUnique` | components/navigation/Sidebar.tsx:9-82 | Within each section the hrefs used as list keys are distinct |
| `Text.Utf16Length` | components/demos/use-action-state/FormDemo.tsx:16 | JavaScript's `length`: at least the number of characters and at most twice it, and equal to it when no character lies beyond U+FFFF |
| `Text.ContainsAt` | components/demos/use-optimistic/MessageDemo.tsx:21 | `includes` holds exactly when the text occurs at some position |
| `Text.LowerOfUpper` | components/demos/use-deferred-value/SearchDemo.tsx:93 | Lower-casing after upper-casing is the same as lower-casing (ASCII) |
| `Text.DigitsValueOfNatToString` | components/demos/use-api/UseApiDemo.tsx:15 | Reading back the decimal digits of a number gives the number |
| `Text.IntToStringInjective` | components/demos/use-api/UseApiDemo.tsx:15 | Different integers render as different decimal strings |

## Left out

- Timers and latency: the 2-second server and fetch delays, the `setTimeout`/`setInterval` schedules and the busy-wait in the heavy list are not modelled. A timer is an event the caller triggers (`DebugHooks.DelayedValue.Fire`), and a delay is not modelled at all.
- Clock and randomness: `Date.now()`, `toLocaleTimeString()` and `Math.random()` become parameters (timestamps, ids, the message text). The random choice of chat messages in `ChatRoom` is not modelled.
- `toFixed(2)` rounding of profiler timings is not modelled: floating-point formatting has no exact counterpart. Timings are stored as given.
- The DOM, `window`, `navigator`, event listeners and subscriptions, and the injected `<style>` element of `useCSS`. What they deliver becomes method parameters or events.
- Viewport.ParseSnapshot: reads only the `{"w":<digits>,"h":<digits>}` shape the encoder writes, not general JSON (no whitespace, other key orders, fractions or exponents).
- Numbers are integers here: the fetch id, window sizes, the delay and the counters are `int`/`nat`, not JavaScript's floating-point `number`, so a fractional id such as 1.5, or `1e+21`, rendered by `${id}` is not modelled. The demos only pass the integer ids 1 to 3 and integer window sizes.
- The network store of the `useSyncExternalStore` demo (`navigator.onLine`, its server snapshot `true`) is browser state and is not modelled.
- `FormData` handling: a missing `missionName` field is `None`; non-string form values are not modelled.
- Case folding is ASCII only: `toLowerCase` on non-ASCII letters is not modelled.
- React itself: rendering, Suspense and `use` unwrapping, `useDeferredValue` and `useTransition` scheduling, `<Activity>`, `<ViewTransition>`, `useId`, `useFormStatus`, `useLayoutEffect` and the taint APIs are library behaviour, not hand-written logic.
- Markup, icons, animation and class names other than the injected CSS rule, including the `Result #i for "query"` text of each search row.
- VideoRemote.VideoPlayer.Play: the promise returned by `video.play()` and its possible rejection, and the element's own `onPlay`/`onPause` events, are not modelled.
- `console.log` / `console.error` output.
- OptimisticChat.Chat.HandleSend: models one send in flight at a time. On settle every optimistic entry is dropped together with the overlay, which matches React for one send; overlapping sends are not modelled.
- OptimisticChat.Chat.Settle: the ids of settled entries are given by the caller instead of `Date.now()`.
- DebugHooks.DelayedLabelDistinguishesValues: covers the demo's numeric counter only, not the formatter applied to an arbitrary value type.
