# poll-watch polling engine in Dafny

This project models the adaptive mtime-polling engine of poll-watch (`index.js`).
The engine watches files by re-reading their modification time on a timer. It does
not use native change notification. Each watched path has:

- a stored mtime;
- a polling interval chosen from a five-step temperature table;
- a not-found retry counter with a ceiling of 25;
- a shared path watcher that holds the listener callbacks.

The source keeps all of this in module-level maps. The model gathers those maps
into one object, `Poller.Engine`. Its methods are `poll` (one tick),
`startPolling`, the path watcher's operations, `watch` and the global `clear`.
A session (`createWatcher`) is `Sessions.Session`, and the handle its `_watch`
returns is `Sessions.Handle`.

Modules:

- `Base`: the value types. `undefined` is an `Option`. The module also holds the
  event passed to listeners and one listener call (`Delivery`).
- `Temperature`: the interval table as a pure function. It also gives an
  independent ladder reading of the table: ascending thresholds and the rung an
  age falls on. The two are proved to agree.
- `Paths`: the loop in `watch` that strips trailing separators, and the
  exclusion regular expression written as predicates over strings.
- `Listeners`: `indexOf`, `splice(i, 1)`, the unsubscribe function's effect on
  the listener array, and the `forEach` loop of `emit`.
- `Poller`: the class `Engine`, the not-found error policy, and unsubscribing
  written as functions, so that a session's bulk unsubscribe can be stated.
- `Sessions`: the classes `Session` and `Handle`.

The inputs the engine cannot see are modelled as parameters:

- `fs.stat` is a `StatResult` (`Ok(mtime)`, `Enoent`, `OtherErr(code)`).
- `Date.now()` is the parameter `now`.
- A timer is the map entry `timers[path]`. It is either `Pending(delay)` or
  `Stopped`: the handle is still stored, but nothing is scheduled.
- A tick is the path's pending timer firing together with the completion of its
  stat, taken as one atomic step.
- Thrown errors are the `Fatal` values of a `TickOutcome` or of
  `StartPolling`'s result.
- A listener callback is an integer identity, compared the way `indexOf`
  compares functions.

Some behaviours of the code are easy to misread, and the model follows the code
as written:

- `emit` passes `_mtimes[path]` as `mtime`. Line 87 stores the new mtime only
  after `emit` has run, so listeners receive the previously stored mtime. Their
  `last_mtime` is the mtime of the emit before that (`undefined` the first
  time). Listeners never see the mtime that the stat just returned. See
  `Poller.Engine.Tick`.
- An excluded path (`node_modules`, dot-files) never reaches `startPolling`.
  But a first listener calls `resume`, which arms a 5 ms timer, so the path is
  polled from then on. While no `startPolling` has ever run, `_startTime` is
  `undefined`. The untouched age is then NaN, and the table falls through to
  the freezing interval (`Temperature.NextInterval`).
- `watch` hands a new, non-excluded path to `startPolling`, which arms a 300 ms
  bootstrap timer (index.js:167-170, 263) before any listener subscribes. So a
  watched path with no listeners is still polled, and its ticks store mtimes
  and emit to an empty listener list (`Poller.Engine.Watch`,
  `Poller.Engine.StartPolling`).
- The global `clear` keeps `_watchers` and their listener lists. It also keeps
  `_touched`, `_enoents` and `_errors`. It empties only the mtime, file,
  interval and timer tables.
- An unsubscribe function whose callback is already gone calls
  `splice(-1, 1)`, which removes the last listener instead of nothing. A
  session's `close` is the same function as its `clear`, so calling both
  removes other subscribers' listeners (`Sessions.RepeatedClearRemovesForeign`).
- `!_startTime` is also true for a start time of 0, so such a start time is
  replaced by the next `startPolling`.

## Model

| member | source | states |
|---|---|---|
| `Temperature.SelectInterval` | index.js:92-149 | the delay is one of 33, 99, 200, 500, 800; it is 33 exactly when the path is touched and its age is under 5 min; it is 800 exactly when the age is at least 3 h |
| `Temperature.NextInterval` | index.js:96-121 | a touched path gets the ladder rung of `now - mtime`; an untouched one gets the rung of `now - startTime` and is never hot; an untouched one with no start time gets 800 |
| `Temperature.ClassIndex` | index.js:17-22 | the rung an age falls on: every threshold before it has been reached, and the age is below the threshold at the rung |
| `Temperature.LadderShape` | index.js:17-28 | both threshold lists and both interval ladders are strictly ascending; each ladder has one more rung than it has thresholds |
| `Temperature.SelectIntervalIsLadder` | index.js:99-148 | the nested `if` chain equals the ladder lookup for touched and untouched paths |
| `Temperature.SelectIntervalMonotone` | index.js:99-148 | a larger age never gives a shorter interval |
| `Temperature.ThresholdFallsSlower` | index.js:101-146 | an age exactly at a threshold takes the slower rung, and one millisecond less takes the faster rung (strict `<`) |
| `Paths.Trimmed` | index.js:239 | the key is a prefix of the path; it does not end with the separator; everything cut off is separators |
| `Paths.StripTrailing` | index.js:238-239 | the `while` loop computes `Trimmed` |
| `Paths.TrimmedAbsorbsSeparators` | index.js:238-242 | any number of trailing separators gives the same key, so `watch("a/")` and `watch("a")` share one watcher |
| `Paths.TrimmedIdempotent` | index.js:239 | stripping a stripped key changes nothing |
| `Paths.IsExcluded` | index.js:254 | a path is excluded exactly when `node_modules` occurs at some position ignoring ASCII case, or it starts with `.`, or some `/` or `\` is directly followed by `.` |
| `Paths.ExcludedIsInherited` | index.js:254 | every path that extends an excluded path is excluded |
| `Paths.DotNameExcluded` | index.js:254 | a name starting with `.` after a `/` or a `\` excludes the path |
| `Listeners.FirstIndex` | index.js:185 | `indexOf` is -1 exactly when the callback is absent; otherwise it is the first position that holds the callback |
| `Listeners.IndexOf` | index.js:185 | the front-to-back search returns `FirstIndex` |
| `Listeners.SpliceOne` | index.js:186 | `splice(start, 1)`: a start inside the array removes that element; a negative start counts back from the end and is clamped to the first element; a start at or past the end removes nothing; one element leaves unless the array is empty or the start is past the end |
| `Listeners.Unsubscribed` | index.js:184-186 | a present callback loses its first registration and nothing else moves (as a list and as a multiset); an absent one makes `splice(-1, 1)` drop the last listener |
| `Listeners.SecondUnsubscribeRemovesAnother` | index.js:184-190 | calling one unsubscribe function twice removes its own callback and then another listener |
| `Listeners.Broadcast` | index.js:193-200 | one delivery per listener, in array order, all with the same event |
| `Listeners.Notify` | index.js:194-200 | the `forEach` loop produces `Broadcast` |
| `Poller.Classify` | index.js:53-74 | only a successful stat proceeds; only a non-not-found error is unrecoverable; a not-found result raises the counter by one and is fatal exactly when the raised counter reaches 25 |
| `Poller.CounterAfter` | index.js:51-74 | over a run of ticks: a surviving run leaves the counter below 25; each tick adds at most one; any unrecoverable error ends the run; a run ending in a success leaves the counter at 0 |
| `Poller.ConsecutiveNotFound` | index.js:59-68 | from counter `c`, `k` not-found results in a row are survived exactly when `c + k < 25`, and the counter is then `c + k`; from 0, the 25th is fatal |
| `Poller.SuccessResetsCounter` | index.js:74 | a successful stat resets the not-found counter whatever came before |
| `Poller.Halted` | index.js:205-207 | `halt` keeps every timer key; it stops the path's own timer and leaves every other timer alone |
| `Poller.OffStep` | index.js:184-190 | one unsubscribe changes only its own path: the callback's first registration leaves the list (as a multiset), the last emitted mtime stays, and a list left empty stops the timer while a non-empty one leaves the timers untouched |
| `Poller.OffAll` | index.js:321-325 | a run of unsubscribes keeps the watcher and timer key sets |
| `Poller.OffAllFrame` | index.js:321-325 | unsubscribing changes no watcher and no timer of a path no token names |
| `Poller.OffAllHaltsEmptied` | index.js:184-207 | after unsubscribing, a path left with no listeners has no pending timer |
| `Poller.PendingPaths` | index.js:289-291 | the `forEach` of `clear` cancels exactly the paths whose timer is pending |
| `Poller.ObservedDeliveries` | index.js:76-88 | a successful stat emits only for a strictly newer mtime over a stored one; the emit then reaches every listener in order with the previously stored mtime and the watcher's last emitted mtime |
| `Poller.Engine.constructor` | index.js:7-35 | all tables start empty and the start time is undefined |
| `Poller.Engine.Tick` | index.js:45-158 | success: the not-found counter resets; a baseline stat records the mtime and emits nothing; a strictly newer mtime touches the path, emits with the old mtime, then stores the new one; the interval is recomputed; exactly one timer is pending, with that interval. Any error: the error counter goes up and the interval is unchanged; then `Classify` decides: a retry armed after 5 ms, the not-found ceiling (fatal, timer stopped), or an immediate fatal error. `touched` only grows |
| `Poller.Engine.Observe` | index.js:73-155 | the success branch, as in `Tick` |
| `Poller.Engine.Refuse` | index.js:49-72 | the error branch: the error counter goes up; then the not-found retry or ceiling, or an immediate fatal error |
| `Poller.Engine.StartPolling` | index.js:160-171 | the start time is set only while undefined or 0; any existing timer entry, even a halted one, is fatal; otherwise the mtime is forgotten and the interval and timer are set to 300 |
| `Poller.Engine.On` | index.js:178-191 | the first listener resumes polling with a 5 ms timer; the callback is appended; the token names path and callback |
| `Poller.Engine.Off` | index.js:184-190 | the listener list and timers become `OffStep` of the old ones |
| `Poller.Engine.Emit` | index.js:193-203 | the deliveries are `Broadcast` of the listeners with the stored mtime and the last emitted one; the last emitted mtime becomes the stored one |
| `Poller.Engine.Halt` | index.js:205-207 | the timers become `Halted` |
| `Poller.Engine.Resume` | index.js:209-214 | any timer of the path is replaced by a 5 ms one |
| `Poller.Engine.CloseWatcher` | index.js:216-222 | the path's file, mtime, timer and interval entries are deleted; nothing else changes |
| `Poller.Engine.ClearListeners` | index.js:227-229 | the path's listener list becomes empty; the timer is left alone |
| `Poller.Engine.Watch` | index.js:236-286 | the key is the stripped path; a known key changes nothing; a new key gets an empty watcher and a file entry; only a new key that is not excluded is handed to `startPolling`, which cannot fail there |
| `Poller.Engine.Clear` | index.js:288-299 | the pending timers are cancelled; the mtime, file, interval and timer tables are emptied; watchers, listeners, `touched` and the counters stay |
| `Sessions.OffAllAppend` | index.js:321-325 | running the tokens one more at a time is the same as running them together |
| `Sessions.RepeatedClearRemovesForeign` | index.js:315-331 | running a session's unsubscribe twice (its `clear`, then its `close`) removes another subscriber's listener |
| `Sessions.Session.constructor` | index.js:301-302 | a new session has handed out no unsubscribe functions |
| `Sessions.Session.Watch` | index.js:304-319 | the handle is new, has no unsubscribe function yet, and is bound to the stripped key's watcher |
| `Sessions.Session.Clear` | index.js:321-325 | runs every recorded unsubscribe function in order (`OffAll`) and keeps the list |
| `Sessions.Handle.On` | index.js:310-314 | subscribes through the shared watcher; the new unsubscribe function replaces the handle's and is appended to the session's list |
| `Sessions.Handle.Close` | index.js:315-317 | runs only the handle's latest unsubscribe function, if it has one |

## Left out

- `fs.stat`, `setTimeout`, `clearTimeout` and `Date.now()` are inputs, as described above. The two `Date.now()` calls of one tick (index.js:96 and 100) are one `now`.
- A stat that is still in flight while `halt` or `clear` runs is not modelled: each tick is atomic. In the source, such a late completion re-arms a timer (index.js:153).
- `path.resolve` (index.js:237) is a call into Node. `Watch` takes an already-resolved string and models only the separator loop. The separator is a constant of the engine, because `path.sep` depends on the host.
- The `i` flag of the exclusion test is modelled as ASCII case folding. That is exact for the letters of `node_modules` in a non-Unicode regular expression.
- Logging is left out: the `INFO` flags, every `console.log`, and the warning batching through `_recentWarningCount` and `_recentWarningTimeout` (index.js:256-283). None of it affects scheduling. The session options only switch logging on and off, so they are dropped too.
- `_opts` and `_textContents` (index.js:5, 15) are never read.
- `poll` writes `_intervals[path]` only when the value differs. Writing the same value is a no-op, so the model always assigns.
- Listener callbacks are identities, and their bodies are not run. A callback that subscribes or unsubscribes during `emit` is not modelled.
- Thrown errors become `Fatal` results. The model does not capture that an uncaught throw in a stat callback ends the process.
- The `module.exports` wiring (index.js:334-340) only re-exports `createWatcher`. A session's `close` is the same function as its `clear`, so it is modelled once, as `Sessions.Session.Clear`.
- Sessions.Session.Watch: states the handle and the growth of the watcher keys, not the engine's whole new state. That state is `Poller.Engine.Watch`'s contract, which this method calls.
- Sessions.Handle.Close: requires that the handle's token names a registered watcher. This always holds in the source, because watchers are never removed, but the model states it as a precondition rather than carrying it in an invariant.
