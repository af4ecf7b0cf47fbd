# Snake game-state engine, modelled in Dafny

This project models the `Snake` class of `lilith/lib/snake.js`, the engine of a
browser snake game. The game keeps one snapshot: the grid size, the body `dots`
(head first), the heading, the `processing` input gate, the two edibles (an
`apple` that makes the snake grow and score, and a `virus` that turns on
wrap-around, `canCross`), the counters `score`, `apples` and `level`, and the
`running` flag.

The model is functional. The snapshot is an immutable record, `SnakeState.Snake`.
Every operation is a pure function from a record to a record. The step `next` is
`Engine.Next`, which returns either `Over(final, reason)` or `Moved(state)`.
`Over` carries the snapshot that `end` returns, with `running` false and the
reason `Wall` or `Body`.

Modules:

- `Wrappers` (`wrappers.dfy`): the `Option` type. `None` stands for the `false`
  the source stores in an empty slot.
- `Geometry` (`geometry.dfy`): positions and headings. It holds JavaScript's
  truncating `%`, `getModHead`, `hasSameCoords`, `hasHitWall`, and the
  filter-and-count behind `hasHitBody`.
- `SnakeState` (`state.dfy`): the record and its invariant `Inv`. It also holds
  `randish`, the `__getNewEdible` placement loop, `queue`, `start`, `end`,
  `score` and `reset`/`__setup`.
- `Engine` (`engine.dfy`): `getNextHead` and `next`. It also holds the two
  deferred virus callbacks, written as plain operations, and runs of events
  (`Apply`, `Run`). These carry the invariant and monotonicity results.

Randomness is a parameter. `Math.random()` becomes a supplied sequence of draws
in [0, 1) for `SnakeState.NewEdible`. Elsewhere the placer's answer is passed in
as `pick`. It must satisfy `Placeable`: the cell is on the grid and passes the
placer's rejection test in the state where the placer runs.

Behaviour of the code that is easy to misread, and that the model keeps:

- `next` does not check `running`. Only the render loop in `drawer.js` does.
- `end` returns a copy with `running` false and leaves the engine's own record
  alone. That record keeps `running` true, and `end` does not clear `processing`.
- On an apple step, `updates.tail` is not cleared. It still holds the tail of the most recent non-apple step, if any.
- `reset` does not keep edibles apart: see Findings.
- On a grid one cell wide or high, the starting dot is placed at -1, off the
  grid. This is why `Reset` promises `Inv` only for grids of at least 2 by 2.

## Model

| member | source | states |
|---|---|---|
| `Geometry.Delta` | lilith/lib/snake.js:3-8 | each heading of `coords` is a unit step on exactly one axis |
| `Geometry.ReverseIsOppositeVector` | lilith/lib/snake.js:58-59 | the vector-sum test of `hasDiffDirection` fails exactly for the geometric opposite of the heading |
| `Geometry.JsRem` | lilith/lib/snake.js:46-47 | JavaScript `%`: the result differs from the dividend by a multiple of the divisor, its magnitude is below the divisor's, and its sign follows the dividend |
| `Geometry.ModUnique` | lilith/lib/snake.js:46-47 | a decomposition `a = n*q + m` with `0 <= m < n` fixes `a % n`, which is what makes `getModHead` a true modulo |
| `Geometry.ModHead` | lilith/lib/snake.js:46-47 | for a positive modulus `x` the result lies in `[0, x)` and equals the true modulo `y % x`, negative `y` included; for a negative `x` it lies in `(x, 0]` |
| `Geometry.HitWallIffOutside` | lilith/lib/snake.js:52-53 | a wall is hit exactly when the cell is outside `[0, cols) x [0, rows)` |
| `Geometry.CountSame` | lilith/lib/snake.js:55-56 | the filter count is at most the body length and is zero exactly when the cell is not in the body, so `hasHitBody` is membership |
| `SnakeState.Randish` | lilith/lib/snake.js:66 | a draw in [0, 1) gives an integer in `[min, max]` |
| `SnakeState.Candidate` | lilith/lib/snake.js:66-67 | every candidate `__getNewEdible` builds lies on the grid |
| `SnakeState.NewEdible` | lilith/lib/snake.js:65-77 | returns the first candidate that passes the rejection test; all earlier ones are rejected; an accepted cell is on the grid, off the body and off every stored edible |
| `SnakeState.Queue` | lilith/lib/snake.js:79-84 | either nothing changes, or the heading becomes the move and the gate closes; a turn is taken only while the gate is open |
| `SnakeState.QueueChangesIff` | lilith/lib/snake.js:79-84 | a move is taken if and only if it differs from the heading, is not its reverse, and the gate is open; once taken it is the heading |
| `SnakeState.SecondTurnIgnored` | lilith/lib/snake.js:79-84 | after an accepted turn every further turn before the next step is ignored |
| `SnakeState.Start` | lilith/lib/snake.js:86-88 | only the run flag changes, and it is raised |
| `SnakeState.End` | lilith/lib/snake.js:90-97 | the snapshot differs from the record only in the lowered run flag |
| `SnakeState.Score` | lilith/lib/snake.js:99-103 | one more apple; score grows by half the grown length, rounded down; the level rises by one exactly when the length is a multiple of 10 and the level is below `MAX_LEVEL`, so it never passes the cap |
| `SnakeState.Fresh` | lilith/lib/snake.js:34 | the starting body is one dot at `floor(cols/2 - 1), floor(rows/2 - 1)` |
| `SnakeState.SetupAsWritten` | lilith/lib/snake.js:40-43 | the setup builds the centred dot, zeroed counters, lowered flags and empty deltas, and stores both edible draws, each made against empty slots; when the two draws differ it is exactly the corrected reset |
| `SnakeState.SetupAsWrittenMayStack` | lilith/lib/snake.js:40-43 | on a 4 by 4 grid that setup can store apple and virus on one cell, breaking `Inv` |
| `SnakeState.Reset` | lilith/lib/snake.js:19-44 | (corrected order: the virus avoids the stored apple; see Findings) the requested grid, one centred dot, counters at zero, not running, no heading, gate open, no wrap, empty deltas, and the two drawn edibles stored; the invariant holds on any grid of at least 2 by 2 |
| `Geometry.SameCoordsIsEquality` | lilith/lib/snake.js:49-50 | two slots match exactly when both are present and hold the same cell; an absent slot never matches |
| `Engine.NextHead` | lilith/lib/snake.js:61-63 | without wrap the head moves one unit along the heading; with wrap each axis is that sum taken modulo the dimension, so the cell is on the grid |
| `Engine.Next` | lilith/lib/snake.js:105-139 | the step ends exactly when the next head is off the grid or on the pre-move body, with `Wall` taking precedence; an ended step hands back the unchanged record with `running` false; a move puts the new head first, clears the gate, touches only body, deltas, edibles, wrap and counters, and grows the body by one exactly when the apple is eaten |
| `Engine.CrossNeverHitsWall` | lilith/lib/snake.js:111-112 | with wrap-around on, a step never ends against a wall |
| `Engine.StepIntoTailEnds` | lilith/lib/snake.js:107-115 | moving onto the current tail cell ends the game with `Body`, although a plain move would vacate it |
| `Engine.AppleStep` | lilith/lib/snake.js:117-122 | eating the apple keeps the tail, stores the new apple and applies the scoring rule to the grown length |
| `Engine.VirusStep` | lilith/lib/snake.js:123-134 | eating the virus drops and reports the tail, empties the virus slot, turns wrap on and leaves the counters alone |
| `Engine.PlainStep` | lilith/lib/snake.js:123-134 | a plain move drops and reports the tail and leaves edibles, wrap and counters alone |
| `Engine.NextPreservesInv` | lilith/lib/snake.js:105-139 | a successful step keeps the invariant and never lowers level, apples or score |
| `Engine.RespawnVirus` | lilith/lib/snake.js:127-128 | the delayed respawn stores a virus off the body and off the apple and changes nothing else |
| `Engine.ClearCross` | lilith/lib/snake.js:129 | the second delayed callback only switches wrap off |
| `Engine.Apply` | lilith/lib/snake.js:79-139 | every event keeps the invariant, the grid and a non-shrinking body and counters; only a step can end the game, and only a successful step reopens the gate |
| `Engine.Run` | lilith/lib/drawer.js:190-207 | along any run of turns, steps and timer callbacks the invariant holds, the level never decreases and never passes `MAX_LEVEL`, and the body and counters never shrink |

## Findings

| source | as written | input that shows it | evidently intended | confidence | as-written member | corrected member |
|---|---|---|---|---|---|---|
| lilith/lib/snake.js:40-43 | both `await this.__getNewEdible()` calls run before `this.data.edibles` is assigned, so the virus draw is tested against empty slots and may land on the apple | 4 by 4 grid, both draws resolving to cell (0, 0) | the virus avoids the apple, as every later placement does | not executed; high (the cell is chosen at random) | `SnakeState.SetupAsWrittenMayStack` | `SnakeState.Reset` |

## Left out

- `lilith/lib/drawer.js` and `lilith/lib/constants.js`: canvas drawing, DOM score updates, keyboard listeners, colours and texts. These are UI with no engine logic.
- The render loop's throttle `250 - level*20` and all wall-clock timing. The two `setTimeout` callbacks are the untimed operations `Engine.RespawnVirus` and `Engine.ClearCross`.
- The timers are not guarded across resets. The model does not order timer callbacks against events. A clear left over from an earlier virus can end a later virus's pass-through early. `Respawn` and `CrossOff` may occur anywhere in a run, so `Engine.Run` includes such runs, but it states no property about them.
- `Math.random`: its distribution is not modelled. The draws are an explicit sequence, and the Promise-based retry becomes a loop over the supplied draws. `None` means the draws ran out.
- Running out of stack while placing an edible is not modelled. Each rejected draw recurses synchronously inside the Promise executor (`lilith/lib/snake.js:75`). On a full grid, and rarely on a nearly full one, this overflows the stack. The `RangeError` rejects the placement promise. `next` then throws at `lilith/lib/snake.js:121`, after the new head has been prepended and recorded, but before `score()` runs and before `processing` is cleared. The render loop (`lilith/lib/drawer.js:193`) then stops.
- Engine.Next: `requires AppleAhead(s) ==> Placeable(Grow(s), pick)` excludes an apple step that leaves no free cell. In the source that step throws, leaving the head prepended and `processing` not cleared.
- SnakeState.Reset: its requires on `apple` and `virus` exclude a grid with no free cell for either draw. In the source the setup's placement then overflows the stack and `edibles` is never assigned.
- Engine.RespawnVirus: `requires Placeable(s, pick)` excludes a respawn when no cell is free. In the source that callback's placement overflows the stack. The virus slot then stays empty, and the callback that clears `canCross` (`lilith/lib/snake.js:129`) is never scheduled, so wrap-around stays on.
- `async`/`await` and `console.error` in `end`.
- A step before any heading is set: the source computes `NaN` coordinates. `Engine.Next` requires a heading, which the keydown listener always sets by queuing a move right after `start` (`lilith/lib/drawer.js:58-63`).
- A wrapping step on a grid with a zero dimension: the source's `getModHead` computes `y % 0`, which is `NaN` in JavaScript, so the step computes `NaN` coordinates. `Engine.Next` requires non-zero dimensions while wrapping.
- JavaScript numbers are IEEE doubles. The model uses unbounded integers. Counters and coordinates in the game stay far below 2^53.
- `Engine.Run`: a reset is not an event of a run, because a reset sets the level back to zero.
