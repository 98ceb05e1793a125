# Sequencer core in Dafny

A model of the sequential core of the `sequencer` library:

- **Fragments** (`Fragments`): a fragment is a named, timed unit of work. Its identity never changes, and its name, duration and callback are mutable.
- **The queue sequencer** (`Sequencing`): an ordered list of fragments with unique identities. A clock's total time is kept equal to the sum of the durations. Each time update fires the first fragment whose cumulative window reaches that time.
- **The two tick machines**:
  - `Timer` (`Timers`) is the cooperative clock on its non-worker path. At the end of the loop it winds back by subtracting the total time once.
  - `TimerWorker` (`TimerWorkers`) wraps with a remainder, and leaves the time where it is when it stops.
- **The greedy lane packer** (`Lanes`): `simplyCalculateLanes` and the leaf path of `calculateLanes`. Fragments are sorted by start, longer first on ties. Each one is seated in the lowest lane already free at its start, and a lane is opened only when none is free. `Lanes` also holds the half-open activity test used when drawing.
- **Test scenarios** (`Scenarios`): the outcomes the repository's unit tests expect, stated as facts about the model and proved tick by tick.

Every state-changing operation is a method on a class with the source's fields. Each is proved against a pure specification function:

| method | specification function |
|---|---|
| `Timer.Exec` | `TimerStep` |
| `TimerWorker.Exec` | `WorkerStep` |
| `Sequencer.Exec` | `FirstWindow` |
| the packers | `Pack` |

The properties the source promises are proved as lemmas about those functions. Errors the source throws are returned as `Outcome` values. Callbacks are opaque handles (`CallbackId`), and `Sequencer.Exec` returns the one it invokes. A tick is an explicit call that returns the update it emits, if any.

## Model

| member | source | states |
|---|---|---|
| Fragments.IdSource.Fresh | src/fragments.ts:14 | each identity handed out is new: it is the counter's old value, and the counter moves past it |
| Fragments.Fragment.constructor | src/fragments.ts:13-18 | stores exactly the given name, duration and callback under a fresh identity; two constructions from one source get different identities |
| Fragments.Fragment.SetName | src/fragments.ts:48 | replaces the name and may change nothing else (the identity is a `const`) |
| Fragments.Fragment.SetDuration | src/fragments.ts:54 | replaces the duration and may change nothing else |
| Fragments.Fragment.SetCallback | src/fragments.ts:60 | replaces the callback and may change nothing else |
| Fragments.Fragment.Copy | src/fragments.ts:67-69 | a new object with a different identity and equal name, duration and callback |
| Sequencing.IndexOfId | src/sequencer.ts:46 | `findIndex` by identity: the first position carrying the id, and none exactly when no fragment carries it |
| Sequencing.FirstWindowFrom | src/sequencer.ts:74-81 | from position `i` on, the first index whose cumulative window end reaches `t`; none exactly when every later window ends before `t` |
| Sequencing.FirstWindow | src/sequencer.ts:73-82 | some fragment fires exactly when some window end reaches `t`, and the one that fires is the first such |
| Sequencing.PrefixSumAtMostTotal | src/sequencer.ts:69 | with non-negative durations, every prefix sum is at most the total |
| Sequencing.FiresIffWithinTotal | src/sequencer.ts:75-81 | with non-negative durations, an update fires a fragment exactly when the list is non-empty and `t` is at most the sum of all durations |
| Sequencing.Sequencer.constructor | src/sequencer.ts:11-18 | empty list, the given pitch and loop flag, and a fresh stopped clock with total time 0 and the same pitch and loop flag |
| Sequencing.Sequencer.SetPitch | src/sequencer.ts:24-30 | fails exactly when `pitch <= 0`, leaving both pitches unchanged; otherwise sets both the sequencer's and the clock's pitch |
| Sequencing.Sequencer.SetLoopFlag | src/sequencer.ts:32-35 | sets the loop flag of both the sequencer and the clock |
| Sequencing.Sequencer.UpdateTotalTime | src/sequencer.ts:68-71 | the loop leaves the clock's total time equal to the left-fold sum of the stored durations |
| Sequencing.Sequencer.Push | src/sequencer.ts:37-43 | fails exactly when a stored fragment has the same identity, and then nothing changes; otherwise appends at the end and the total equals the sum of durations; identities stay unique |
| Sequencing.Sequencer.Remove | src/sequencer.ts:45-50 | fails exactly when no stored fragment has the identity, and then nothing changes; otherwise deletes exactly that element, keeps the others in order, leaves no fragment with that identity, and resets the total; identities stay unique |
| Sequencing.Sequencer.Play | src/sequencer.ts:52-58 | rejects a negative delay first, then a play while playing; otherwise the clock is playing |
| Sequencing.Sequencer.Stop | src/sequencer.ts:60-66 | rejects a negative delay first, then a stop while not playing; otherwise the clock is stopped |
| Sequencing.Sequencer.Exec | src/sequencer.ts:73-82 | the loop with its running sum fires exactly `FirstWindow` of the durations at `t`, and invokes that fragment's callback (none if it has none) |
| Sequencing.Sequencer.OnTick | src/sequencer.ts:15-17 | one clock tick as `TimerStep` describes it; the update it emits, if any, is handed to `Exec` |
| Timers.TimerStep | src/timer.ts:97-113 | the time advances by one pitch; at or past the end it is wound back by `total` once; without looping it then stops and emits nothing; otherwise it emits the new time; looping with `0 < pitch <= total` keeps the time in `[0, total)` |
| Timers.TimerLoopRunModular | src/timer.ts:101-102 | looping with `0 < pitch <= total` from inside the loop, `n` ticks leave the timer playing at `(ct + n * pitch) % total` with `n` updates |
| Timers.TimerRunBeforeEnd | src/timer.ts:99-112 | before the end, `n` ticks leave the time at `ct + n * pitch` and emit `ct + pitch, ..., ct + n * pitch` in order |
| Timers.TimerRunStopsAtEnd | src/timer.ts:101-107 | without looping, the first tick to reach the end stops the timer with the time wound back by `total` and emits nothing; later ticks change nothing |
| Timers.TimerLoopDrift | src/timer.ts:101-102 | looping with `pitch > total`, the single subtraction cannot return the time to `[0, total)`: after `n` ticks it is `ct + n * (pitch - total)` |
| Timers.Timer.constructor | src/timer.ts:19-28 | stores the total time, pitch and loop flag; time 0, not playing |
| Timers.Timer.SetTotalTime | src/timer.ts:30-32 | overwrites only the total time |
| Timers.Timer.SetPitch | src/timer.ts:34-36 | overwrites only the pitch |
| Timers.Timer.SetLoopFlag | src/timer.ts:38-40 | overwrites only the loop flag |
| Timers.Timer.Play | src/timer.ts:42-46 | fails exactly when already playing; afterwards the timer is playing |
| Timers.Timer.Stop | src/timer.ts:79-84 | fails exactly when not playing; afterwards the timer is stopped |
| Timers.Timer.Exec | src/timer.ts:97-113 | the new time, the emitted update and the playing state are those of `TimerStep` from the old time |
| TimerWorkers.WorkerStep | src/timerWorker.ts:58-73 | the time advances by one pitch; looping at the end lands in `[0, total)` a whole number of loops back; without looping it stops, emits nothing and leaves the time un-wrapped; otherwise it emits the new time |
| TimerWorkers.WorkerLoopRunModular | src/timerWorker.ts:59-63 | looping from inside the loop with any non-negative pitch, `n` ticks leave the worker playing at `(ct + n * pitch) % total` with `n` updates |
| TimerWorkers.WorkerRunBeforeEnd | src/timerWorker.ts:59-72 | before the end, `n` ticks leave the time at `ct + n * pitch` and emit every intermediate time in order |
| TimerWorkers.WorkerRunStopsAtEnd | src/timerWorker.ts:61-67 | without looping, the first tick to reach the end stops the worker at `ct + n * pitch` (not wound back) and emits nothing; later ticks change nothing |
| TimerWorkers.WorkerAgreesWithTimerWhenLooping | src/timerWorker.ts:61-63 | looping with `0 < pitch <= total` from inside the loop, the worker and `Timer` produce the same times and updates |
| TimerWorkers.TimerWorker.constructor | src/timerWorker.ts:12-16 | stores the total time, pitch and loop flag; time 0, not playing |
| TimerWorkers.TimerWorker.SetTotalTime | src/timerWorker.ts:18-20 | overwrites only the total time |
| TimerWorkers.TimerWorker.SetPitch | src/timerWorker.ts:22-24 | overwrites only the pitch |
| TimerWorkers.TimerWorker.SetLoopFlag | src/timerWorker.ts:26-28 | overwrites only the loop flag |
| TimerWorkers.TimerWorker.Play | src/timerWorker.ts:30-34 | fails exactly when already playing; afterwards the worker is playing |
| TimerWorkers.TimerWorker.Stop | src/timerWorker.ts:44-50 | fails exactly when not playing; afterwards the worker is stopped |
| TimerWorkers.TimerWorker.Exec | src/timerWorker.ts:58-73 | the new time, the emitted update and the playing state are those of `WorkerStep` from the old time |
| Lanes.Insert | src/renderers/independent-renderer.ts:101-104 | inserting into a list sorted by (start ascending, duration descending) gives a sorted list with the element added |
| Lanes.SortByStart | src/renderers/independent-renderer.ts:101-104 | the processing order is sorted by start ascending, then duration descending, and is a permutation of the input |
| Lanes.NonNegativePermutation | src/renderers/independent-renderer.ts:101 | sorting a copy keeps every duration non-negative |
| Lanes.FirstFit | src/renderers/independent-renderer.ts:113 | `findIndex(laneEnd => laneEnd <= start)`: the lowest lane filled up to at most `start`, and none exactly when every lane ends after `start` |
| Lanes.SeatIsFirstFit | src/renderers/independent-renderer.ts:113-118 | seating picks the lowest free lane or opens one at the end; that lane is filled up to the fragment's end and every other lane is unchanged |
| Lanes.PackPrefix | src/renderers/independent-renderer.ts:109-122 | every processed fragment gets exactly one lane index in `[0, lanes.length)`, and there are never more lanes than fragments processed |
| Lanes.PackFilledByOccupants | src/renderers/independent-renderer.ts:114-118 | every lane is filled up to the end of a fragment seated in it |
| Lanes.PackNoOverlap | src/renderers/independent-renderer.ts:113-118 | with non-negative durations, each lane covers the ends of its fragments, and an earlier fragment in a lane ends no later than a later one starts |
| Lanes.PackFirstFit | src/renderers/independent-renderer.ts:113-117 | every lane left of a fragment's lane holds an earlier fragment ending after its start |
| Lanes.SameLaneNeverBothActive | src/renderers/independent-renderer.ts:32 | with non-negative durations, two fragments in the same lane are never both active under the half-open test `start <= t < start + duration` |
| Lanes.LeftLanesActiveAtStart | src/renderers/independent-renderer.ts:113-117 | in processing order, each lane left of a fragment's lane holds an earlier fragment still active at its start |
| Lanes.AssignmentsFollowPack | src/renderers/independent-renderer.ts:109-122 | assignments that follow the packing have valid lanes, no more lanes than fragments, and no overlap within a lane |
| Lanes.SeatFragment | src/renderers/independent-renderer.ts:110-119 | the `findIndex` / push-or-overwrite step yields exactly the `Seat` of the fragment |
| Lanes.SimplyCalculateLanes | src/renderers/independent-renderer.ts:93-124 | the loop over the sorted copy yields `Pack`'s lanes and one assignment per fragment in processing order; every lane index is valid; there are at most as many lanes as fragments; with non-negative durations, fragments in one lane do not overlap |
| Lanes.SeatInLanes | src/renderers/independent-renderer.ts:158-165 | the leaf step on lane records yields the same seating as `Seat`; a new lane's `id` is its index |
| Lanes.CalculateLanes | src/renderers/independent-renderer.ts:127-170 | on leaves, each lane's `id` equals its index; the lanes' fill levels are `Pack`'s, and each assignment names its single lane by that id |
| Scenarios.DistinctIdentities | test/fragments.test.ts:5-9 | two fragments with the same name and duration get different identities |
| Scenarios.SettersReplaceValues | test/fragments.test.ts:18-44 | the setters' values are what is then read back |
| Scenarios.CopyKeepsFields | test/fragments.test.ts:48-55 | a copy has a new identity and the same name and duration |
| Scenarios.PushDuplicateRemove | test/sequencer.test.ts:17-34 | one push gives one fragment, a second push of it fails as a duplicate, and removing it empties the list |
| Scenarios.PlayAndStopTwice | test/sequencer.test.ts:38-43 | a second play and a second stop each fail |
| Scenarios.PreciseTiming | test/sequencer.test.ts:45-63 | with fragments of 100 and 50 ms at pitch 100, the callback has run 0 times at 99 ms, once at 100 ms and once at 150 ms |
| Scenarios.LoopedPlayback | test/sequencer.test.ts:65-83 | a looping 200 ms fragment at pitch 100 has fired twice after 200 ms and four times after 400 ms |
| Scenarios.TimerAccumulates | test/timer.test.ts:21-25 | three ticks of `Timer(1000, 100)` emit 100, 200 and 300 and leave the time at 300 |
| Scenarios.TimerLoops | test/timer.test.ts:27-32 | fifteen looping ticks of `Timer(1000, 100)` leave the time at 500 |
| Scenarios.WorkerAccumulates | test/timerWorker.test.ts:21-25 | three ticks of `TimerWorker(1000, 100)` emit 100, 200 and 300, leave the time at 300, and keep it playing |
| Scenarios.WorkerLoops | test/timerWorker.test.ts:27-32 | fifteen looping ticks of `TimerWorker(1000, 100)` leave the time at 500 |
| Scenarios.ThreeAtZeroNeedThreeLanes | src/renderers/independent-renderer.ts:113-117 | three fragments starting together occupy three lanes |
| Scenarios.TouchingWindowsShareALane | src/renderers/independent-renderer.ts:113 | windows `[0, 100)` and `[100, 200)` share lane 0, because the free test is `<=` |

## Left out

- Canvas drawing (`renderToCanvas`, the base and queue renderers, `layoutFragments` and `simplyLayoutFragments`) is not modelled: it is foreign canvas calls and floating-point pixel arithmetic. Only the activity test those layouts use is kept, as `Lanes.IsActive`.
- The worker branch of `Timer` (`useUniversalWorker`), `universalWorker.ts`, `ticker.ts` and the worker's error listener are concurrency and message passing. The model covers the non-worker path, which `Sequencer` uses by default.
- `setTimeout`/`setInterval` and the meaning of `delay` are not modelled. A tick is an explicit `Exec` call, and `play`/`stop` only validate `delay`. The scenarios assume that advancing a fake clock by `T` ms with pitch `p` and no delay runs `T / p` ticks.
- `Timer.play` being `async` and returning a Promise is not modelled; the model's `Play` is synchronous.
- `crypto.randomUUID` is replaced by a counter (`IdSource`) that hands out distinct natural numbers. `Copy` therefore takes the source that issued the original's identity.
- `Number.isNaN` checks are dropped, because integers have no NaN. The `< 0` and `<= 0` guards are kept.
- Durations, times and pitches are unbounded integers, not JavaScript doubles, so fractional milliseconds and rounding are not modelled.
- Timers.Timer.Exec, TimerWorkers.TimerWorker.Exec: require `isPlaying`, because the interval only runs while the clock plays; a tick delivered after `stop` is not modelled.
- TimerWorkers.TimerWorker.Exec: in loop mode it requires `totalTime > 0`, since `x % 0` is NaN in JavaScript.
- Sequencing.Sequencer.OnTick: models only the default non-worker timer; the event dispatch is the direct call that `OnTick` makes.
- The composite branch of `calculateLanes` is not modelled. It computes child lanes and discards them. `CalculateLanes` takes leaf fragments only.
- `IndependentSequencer`, `IndependentFragment` and `CustomFragment` are not part of this model, because their source is not among the modelled files. A fragment on the timeline is the value `Lanes.Positioned`.
- Lanes.SortByStart: proves sorted-and-permutation, not stability. Its insertion sort keeps equal elements in input order, as the engine's stable `Array.prototype.sort` does, but no lemma states that.
- Lanes.SimplyCalculateLanes, Lanes.CalculateLanes: the `lanes` and `assignments` arrays are local values, reassigned as sequences, rather than arrays mutated in place.
- The getters (`getFragments`, `getName`, `getDuration`, `getCallback`, `getId`, `getPitch`, `isLooping`, `getIsPlaying`, `getCurrentTime`) are plain field reads of the classes' fields.
- Console logging (`logger.ts` and the `console.log` calls) is not modelled.
