# Countdown timer and rotating cube, in Dafny

This project models the core of a countdown-timer app written in Kotlin with Jetpack Compose.

**The countdown state machine (`TimeState`).** `countdown.dfy`, module `Countdown`, models this as a class with the source's own fields:
- `hoursLeft`, `minutesLeft` and `secondsLeft`;
- `hoursAngle`, `minutesAngle` and `secondsAngle`;
- `isPlaying`, `wasPaused` and `isTimeDisplayAlpha`;
- the `timerJob` and `blinkJob` handles.

Each of these is covered:
- `playPause` pauses, or starts or resumes and runs the countdown;
- `countDown` is the one-second tick, with its borrows from minutes into seconds and from hours into minutes;
- the three `change*` operations are increase/decrease clamped with `coerceIn`;
- `reset`;
- `blink`, the completion blink.

In the source, `delay`s, launched coroutines and callbacks live in a coroutine scope. Here they are recorded in an `events` log on the object. Every `delay(ms)` becomes `Delay(ms)` and every assignment of the display alpha in the blink coroutine becomes `Alpha(a)`, including the final forced `Alpha(1)`. The four callbacks become `Started`, `Paused`, `Completed` and `WasReset`. A job handle is `NoJob` (null), `Active`, `Finished` or `Cancelled`.

The class keeps one invariant, `Valid`. It requires the counters to stay in range (hours 0..12, minutes and seconds 0..60). It also requires every ring angle to stay in step with its counter: 30 degrees per hour, 6 per minute, 6 per second. Every method preserves `Valid`. The number of times the tick loop runs is `TicksToFinish`, defined by running `Tick` until nothing is left. `TicksToFinishExact` proves it equal to the closed form `TickCount = total + ExtraTicks`, which is at most two ticks more than the total. The method contracts are stated with `TickCount`.

**The discrete cube geometry of `RotatingCube`.** `cube.dfy`, module `Cube`, covers it over `real`:
- the eight vertices;
- the twelve segments of the edge-drawing loop, shown to be the twelve edges of the cube;
- the `multiply` matrix-vector product, as an imperative triple loop over an array;
- the skewed 2D projection;
- `normalize` and `skewFactor`, with the range of the skew over the normalisation depth range.

## Behaviour worth noting

- **A one-minute countdown takes 61 ticks.** The first tick at (0,1,0) finds no seconds, so it only borrows (TimeState.kt:82-88): it moves the minute into the seconds ring, which then reads 60 (`Countdown.OneMinuteTakesSixtyOneTicks`). In general (`Countdown.TicksToFinishExact`), the extra ticks are:
  - one, for a face with no seconds left but some minutes;
  - two, for a face with no seconds and no minutes left but some hours;
  - one, for a face with hours left, no minutes and exactly one second: 1:00:01 runs 3602 ticks, because the second tick, at (0,60,0), only borrows;
  - none, in every other case, the all-zero face included.
- **`skewFactor` lies in [0.7, 1.7].** This holds for camera distance 1.7 and depth range ±2.8 (`Cube.SkewFactor`).
- **Points with larger z are drawn larger.** The projection scales x and y by `1 / skewFactor`, which grows with z (`Cube.ProjectionScale`).
- **`isPlaying` holds throughout a run.** `isPlaying` is set before the started callback. It holds at every tick and through the blink rounds, and only the end of the blink clears it (TimeState.kt:66, 148). `CountDown`, `TickUntilDone` and `Blink` require it, and the blink loop keeps it as an invariant. `RunTimerJob` must therefore set it before the first tick.

## Model

| member | source | states |
|---|---|---|
| `Countdown.Cancel` | app/src/main/java/com/example/androiddevchallenge/ui/TimeState.kt:133-136 | cancelling leaves no job running; a running job becomes cancelled, any other handle (none, finished, cancelled) is left as it is |
| `Countdown.CancelIdempotent` | app/src/main/java/com/example/androiddevchallenge/ui/TimeState.kt:133-136 | cancelling twice is the same as cancelling once |
| `Countdown.CoerceIn` | app/src/main/java/com/example/androiddevchallenge/ui/TimeState.kt:100-104 | the result lies in [lo, hi]; an in-range value is kept, a value below becomes lo, a value above becomes hi |
| `Countdown.Adjust` | app/src/main/java/com/example/androiddevchallenge/ui/TimeState.kt:100-122 | one press keeps a counter within [0, max]; from an in-range value an increase adds one unless at max, a decrease takes one off unless at zero |
| `Countdown.AdjustUndo` | app/src/main/java/com/example/androiddevchallenge/ui/TimeState.kt:100-122 | below the maximum a decrease undoes an increase, above zero an increase undoes a decrease |
| `Countdown.TotalSeconds` | app/src/main/java/com/example/androiddevchallenge/ui/TimeState.kt:49-50 | for in-range counters the total lies in [0, 12·3600 + 60·60 + 60] and is zero exactly when all three counters are zero |
| `Countdown.Tick` | app/src/main/java/com/example/androiddevchallenge/ui/TimeState.kt:77-98 | a tick takes one second off the total when there is a second to take and leaves the total alone otherwise (a borrow-only tick); an all-zero face stays put; in-range counters and in-step angles stay so; hours never grow |
| `Countdown.TickKeepsSettled` | app/src/main/java/com/example/androiddevchallenge/ui/TimeState.kt:77-98 | once exhausted seconds imply nothing is left and exhausted minutes imply no hours, a tick keeps it so |
| `Countdown.SettledTicks` | app/src/main/java/com/example/androiddevchallenge/ui/TimeState.kt:68-98 | from such a settled face the tick loop runs exactly `total` times |
| `Countdown.TicksToFinishExact` | app/src/main/java/com/example/androiddevchallenge/ui/TimeState.kt:68-98 | the tick loop runs exactly TickCount = total + ExtraTicks times, between total and total + 2 |
| `Countdown.OneMinuteTakesSixtyOneTicks` | app/src/main/java/com/example/androiddevchallenge/ui/TimeState.kt:68-98 | a countdown from one minute runs 61 ticks |
| `Countdown.ResumeSkipsLeadIn` | app/src/main/java/com/example/androiddevchallenge/ui/TimeState.kt:62-67 | a fresh start waits 400 ms and then fires the started callback; a resume fires it first |
| `Countdown.Toggle` | app/src/main/java/com/example/androiddevchallenge/ui/TimeState.kt:145 | on a 0/1 alpha the toggle gives the other value |
| `Countdown.BlinkRounds` | app/src/main/java/com/example/androiddevchallenge/ui/TimeState.kt:142-146 | n blink rounds produce 2n events; round k is a 300 ms delay followed by the alpha, which is the toggled starting alpha in even rounds (counting from 0) and the starting alpha in odd ones |
| `Countdown.BlinkFromVisible` | app/src/main/java/com/example/androiddevchallenge/ui/TimeState.kt:140-151 | from a visible display the blink hides, shows, hides and shows it 300 ms apart, then forces it visible and signals completion |
| `Countdown.TimeState.constructor` | app/src/main/java/com/example/androiddevchallenge/ui/TimeState.kt:27-48 | a new state is all zero, not playing, not paused, visible, with no jobs and nothing logged |
| `Countdown.TimeState.PlayPause` | app/src/main/java/com/example/androiddevchallenge/ui/TimeState.kt:52-75 | playing: stops, marks paused, fires the paused callback and cancels the timer job, nothing else changes. Idle with zero time: nothing changes. Otherwise: runs the timer job to its end (lead-in only if never paused, started callback, one 1000 ms delay per tick for exactly TickCount ticks, then the blink), leaving the face zero, not playing, visible, both jobs finished; `isPlaying` is set before the first tick and holds through the ticks and the blink rounds (the requires of the tick and blink methods it calls) |
| `Countdown.TimeState.RunTimerJob` | app/src/main/java/com/example/androiddevchallenge/ui/TimeState.kt:61-73 | the launched coroutine, run to its end: logs exactly the lead-in, started, per-tick delays and blink events, ends at zero, not playing, visible, the paused flag unchanged |
| `Countdown.TimeState.TickUntilDone` | app/src/main/java/com/example/androiddevchallenge/ui/TimeState.kt:68-71 | run only while playing, which every tick keeps; the while loop ends with every counter and angle zero after exactly TickCount(start) ticks, each preceded by a 1000 ms delay |
| `Countdown.TimeState.CountDown` | app/src/main/java/com/example/androiddevchallenge/ui/TimeState.kt:77-98 | a tick, taken only while playing, leaves the face equal to `Tick` of the old face and keeps the invariant |
| `Countdown.TimeState.ChangeHours` | app/src/main/java/com/example/androiddevchallenge/ui/TimeState.kt:100-106 | hours become the clamped adjustment in [0, 12] and the hours ring shows 30 degrees per hour; nothing else changes |
| `Countdown.TimeState.ChangeMinutes` | app/src/main/java/com/example/androiddevchallenge/ui/TimeState.kt:108-114 | minutes become the clamped adjustment in [0, 60] and the minutes ring shows 6 degrees per minute; nothing else changes |
| `Countdown.TimeState.ChangeSeconds` | app/src/main/java/com/example/androiddevchallenge/ui/TimeState.kt:116-122 | seconds become the clamped adjustment in [0, 60] and the seconds ring shows 6 degrees per second; nothing else changes |
| `Countdown.TimeState.Reset` | app/src/main/java/com/example/androiddevchallenge/ui/TimeState.kt:124-138 | counters and angles zero, not playing, not paused, both job handles cleared, display alpha untouched, the reset callback logged |
| `Countdown.TimeState.Blink` | app/src/main/java/com/example/androiddevchallenge/ui/TimeState.kt:140-151 | started while playing, and playing through all four rounds, each a 300 ms delay and a toggled alpha, alternating from the starting alpha; then alpha 1, not playing, completion logged, blink job finished |
| `Cube.Abs` | app/src/main/java/com/example/androiddevchallenge/ui/RotatingCube.kt:105 | the absolute value is non-negative and equals x or -x |
| `Cube.CubePoints` | app/src/main/java/com/example/androiddevchallenge/ui/RotatingCube.kt:104-117 | eight 3D points with every coordinate ±abs(scale); the first four lie on the face at negative z and vertex i + 4 mirrors vertex i through z = 0; with a non-zero scale all eight are distinct |
| `Cube.CubeEdges` | app/src/main/java/com/example/androiddevchallenge/ui/RotatingCube.kt:83-99 | the loop emits, round by round, the three segments of each of its four rounds |
| `Cube.EdgeRoundsWrittenOut` | app/src/main/java/com/example/androiddevchallenge/ui/RotatingCube.kt:83-99 | the twelve segments, in drawing order |
| `Cube.EdgesDistinct` | app/src/main/java/com/example/androiddevchallenge/ui/RotatingCube.kt:83-99 | twelve segments between vertex indices below 8, none drawn twice in either direction |
| `Cube.BackFaceDegrees` | app/src/main/java/com/example/androiddevchallenge/ui/RotatingCube.kt:83-99 | vertices 0 to 3 each end exactly three segments |
| `Cube.FrontFaceDegrees` | app/src/main/java/com/example/androiddevchallenge/ui/RotatingCube.kt:83-99 | vertices 4 to 7 each end exactly three segments |
| `Cube.EdgesDegreeThree` | app/src/main/java/com/example/androiddevchallenge/ui/RotatingCube.kt:83-99 | every vertex ends exactly three segments, as in a cube |
| `Cube.EdgesJoinNeighbours` | app/src/main/java/com/example/androiddevchallenge/ui/RotatingCube.kt:83-117 | every segment joins two vertices that differ in exactly one coordinate, so each is an edge of the cube |
| `Cube.Multiply` | app/src/main/java/com/example/androiddevchallenge/ui/RotatingCube.kt:142-158 | r1 entries, entry i being c2 times the dot product of row i of a with the first c1 entries of b |
| `Cube.Skewed2DProjection` | app/src/main/java/com/example/androiddevchallenge/ui/RotatingCube.kt:119-122 | a 2×3 matrix (its action is stated by `Cube.ProjectionDropsDepth`) |
| `Cube.ProjectionDropsDepth` | app/src/main/java/com/example/androiddevchallenge/ui/RotatingCube.kt:119-122 | multiplied with a 3-vector, the projection's rows give x and y scaled by the skew, whatever the depth |
| `Cube.Normalize` | app/src/main/java/com/example/androiddevchallenge/ui/RotatingCube.kt:190-196 | min maps to 0, max to 1, and values in [min, max] land in [0, 1] |
| `Cube.NormalizeMonotone` | app/src/main/java/com/example/androiddevchallenge/ui/RotatingCube.kt:190-196 | with max > min, normalize keeps the order of values |
| `Cube.SkewFactor` | app/src/main/java/com/example/androiddevchallenge/ui/RotatingCube.kt:187-188 | for a depth in [-2.8, 2.8] the skew factor lies in [0.7, 1.7] and is never zero |
| `Cube.ProjectionScale` | app/src/main/java/com/example/androiddevchallenge/ui/RotatingCube.kt:73-80 | over the depth range the projection scale 1/skew lies in [1/1.7, 1/0.7] and grows with depth |
| `Cube.ScreenCubeDepthInRange` | app/src/main/java/com/example/androiddevchallenge/ui/RotatingCube.kt:49-75 | on the timer screen's cube (scale 1.55), a point as far from the centre as a vertex has its depth in [-2.8, 2.8], so its skew is positive |
| `Cube.ProjectVertex` | app/src/main/java/com/example/androiddevchallenge/ui/RotatingCube.kt:73-81 | the screen offset of a rotated vertex is (x · size / skew, y · size / skew) |

## Left out

- **Concurrency and timing.** Coroutine scheduling, the clock and interleaving are not modelled. A launched timer or blink job runs to its end inside the call that launches it. So a pause or reset arriving in the middle of a countdown is only modelled as a call made from a state where `isPlaying` holds. A cancellation is recorded on the job handle, not as an interruption of the job's loop.
- **Callbacks.** The four callbacks (started, paused, complete, reset) are calls into code outside the class: vibration, cube animation and navigation. They appear only as events in the log.
- **Alpha as an integer.** `isTimeDisplayAlpha` is a Float in the source. Here it is an integer restricted to 0 and 1, the only values the source assigns.
- **Angles as integers.** The ring angles are Floats in the source. Here they are whole degrees, since every value the source assigns is a whole number.
- **Rotations.** `rotationX`, `rotationY` and `rotationZ` (sines and cosines of the animated angle) are not part of this model. `Cube.ProjectVertex` starts from an already rotated vertex. `Cube.ScreenCubeDepthInRange` takes as a hypothesis that rotation preserves distance from the centre.
- **Animation and drawing.** `CubeState` and its animate/stop functions are not part of this model, and neither is `rememberCubeState`. Nor is the drawing: stroke widths, colours, line caps and `drawPoints`. The edge loop is modelled by the index pairs it passes to `draw`.
- **Floating point.** All geometry uses exact real arithmetic. Float rounding, NaN and infinity are not modelled. Hence `Cube.Normalize` requires `max != min`, and `Cube.ProjectVertex` requires a non-zero skew factor, where the source would divide by zero.
- **Composable UI.** The UI functions are not part of this model, and neither is the theme: `TimerApp`, `TimerComponents`, `UiComponents`, `Theme` and `Color`. This includes the UI's use of `isPlaying` to hide the increase/decrease controls. `TimeState` itself does not guard the change operations.
- PlayPause: its own ensures give only the state after the run. That `isPlaying` holds at every tick and blink round is stated as the precondition `isPlaying` of `CountDown`, `TickUntilDone` and `Blink`, which `PlayPause` (through `RunTimerJob`) must meet. The same precondition is an invariant of the blink loop. The log does not record `isPlaying` per tick.
- Cube.Multiply: the sizes r1, c1 and c2 are natural numbers. The matrix and vector must be at least as large as the sizes say, even where the source would only throw an index error.
- Cube.Skewed2DProjection: its own contract states only the matrix shape. What the matrix does is stated by `Cube.ProjectionDropsDepth`.
