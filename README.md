# Money Run, modelled in Dafny

Money Run is an endless side-scrolling platformer written in browser
JavaScript. The level is a strip of `LEVEL_WIDTH / TILE_SIZE` = 18 columns.
It is stored as two parallel arrays:

- `heights`: the column heights, in tiles.
- `hasMoneys`: the pickup flags.

A sub-tile offset `levelX` scrolls the strip one pixel per frame. When the
offset reaches a whole tile, the leftmost column is dropped and a randomly
generated column is appended. The player falls under gravity and lands on
column tops. A column in the way pushes the player back a pixel. The player
collects money for 100 points and earns 0.25 points per frame. The game ends
once the scroll has pushed the player off the left edge of the screen.

This project models the game logic of `01-money-run/game.js` with all drawing
removed. It is organised as follows:

- `Config`: the game's constants, with the same names and values.
- `Generator`: the column generator (`drawRandomLevelColumn`) and the strip
  that `initLevel` builds. The two `Math.random()` results of one column are
  passed in as a `Draw` of two reals in [0, 1).
- `World`: the session as a value (`Game`) and the lookups `getColumnIndexAt`,
  `getColumnTopAt` and `hasMoneyAt`. A lookup outside the 18-column window
  returns `None`, which stands for the `undefined`/`NaN` the game computes
  there: every comparison against it is false.
- `Scroll`: the recycle step `updateLevelIfNecessary`.
- `Physics`: `isGrounded`, `willIntersectBoxes`, `applyForces` and
  `grabMoneyUnderPlayer`.
- `Input`: the bodies of the RIGHT, LEFT and SPACE handlers, and the
  handlers that fire within one frame.
- `Loop`: one call of `update`, `isGameOver`, and `Play`. `Play` is the
  `requestAnimationFrame` chain run over a finite list of frame inputs.
- `Session`: the imperative form of the game. `State` and `PlayerState` are
  classes whose methods update their fields in place, as the game does to
  its `state` object. Each method's postcondition ties the new `View()` of
  the session to the functions above, and the properties are proved about
  those functions.

The model keeps the game's behaviour where it is surprising. The RIGHT
handler clears the pixel just right of the player but moves two pixels, so it
can leave the player one pixel inside a taller column. The next frame's wall
nudge then pushes the player back (`Input.RightMayEnterColumn`).

## Model

| member | source | states |
|---|---|---|
| World.InitialGame | 01-money-run/game.js:321-332 | the session starts with empty column arrays, offset 0, score 0 and the player at rest at (PLAYER_START_OFFSET, 0) |
| World.InitialLevel | 01-money-run/game.js:115-127 | after `initLevel` the session holds 18 columns; columns 0-9 have height 1 and no money; heights lie in [1, 10] and rise at most 4 per column; offset and score are still 0 and the player is at its start |
| World.ColumnIndexAt | 01-money-run/game.js:138-140 | the column index is the one whose 20-pixel span contains `x + levelX` (a floor division, also for negative x) |
| World.ColumnTopAt | 01-money-run/game.js:142-146 | a top exists exactly when the index lies inside the stored columns; for a height in [1, 10] the top lies in [40, 220] |
| World.HasMoneyAt | 01-money-run/game.js:148-151 | true exactly when the index lies inside the strip and its flag is set; never true once `x + levelX` is negative |
| World.TopsInRange | 01-money-run/game.js:142-146 | on a strip whose heights lie in [1, 10], every column top lies in [40, 220] |
| Generator.MaxAllowedHeight | 01-money-run/game.js:89-90 | the cap is the smaller of last + 4 and 10: at most both, and equal to one of them |
| Generator.IntroHeight | 01-money-run/game.js:125 | the forced height is 1 for columns 0-9 and 0 ("not forced") from column 10 on; the `x === 1` clause changes nothing |
| Generator.RolledHeightInRange | 01-money-run/game.js:91 | `floor(roll * m) + 1` lies in [1, m] for any roll in [0, 1) |
| Generator.RandomLevelColumn | 01-money-run/game.js:83-113 | a truthy forced height is used unchanged and never has money; otherwise the height lies in [1, min(last + 4, 10)] and money is placed exactly when the second roll is below 0.1 |
| Generator.EveryAllowedHeightReachable | 01-money-run/game.js:88-91 | every height in [1, min(last + 4, 10)] is produced by some roll, so the bound is tight and a column can always drop to height 1 |
| Generator.InitialColumns | 01-money-run/game.js:124-127 | the column loop appends exactly one height and one flag per column, so the two arrays stay the same length |
| Generator.ColumnIgnoresOlderHeights | 01-money-run/game.js:88 | a generated column depends only on the last stored height |
| Generator.InitialColumnsShape | 01-money-run/game.js:124-127 | the intro columns 0-9 have height 1 and no money; all heights lie in [1, 10]; no column is more than 4 above its left neighbour |
| Scroll.UpdateLevelIfNecessary | 01-money-run/game.js:231-258 | nothing changes unless the offset equals TILE_SIZE; the score and the player are never touched |
| Scroll.RecycleShiftsWindow | 01-money-run/game.js:252-257 | when it fires: the length stays 18, both arrays drop their first entry and gain one new last entry, the new flag is set exactly when the money roll is below 0.1, the new height lies in [1, min(old last + 4, 10)], the strip keeps its height invariants, and the offset becomes 0 |
| Physics.LastResting | 01-money-run/game.js:160-165 | the `forEach` fold keeps its start value when no sampled top is reached, and otherwise ends on a sampled top the player reaches |
| Physics.Truthy | 01-money-run/game.js:191 | definition: the `if (columnHeight)` reading of `isGrounded`'s result; its soundness is Physics.GroundedIsTruthy |
| Physics.IsGrounded | 01-money-run/game.js:153-168 | the result is "false" exactly when neither sampled top is reached; otherwise it is a sampled top the player reaches, and the right-edge top wins whenever it is reached |
| Physics.GroundedIsTruthy | 01-money-run/game.js:190-191 | on heights in [1, 10], the `isGrounded` result is truthy exactly when it is not "false" |
| Physics.WillIntersectBoxes | 01-money-run/game.js:170-179 | true exactly when the column at the proposed x exists and its top lies strictly above the player's bottom |
| Physics.Nudged | 01-money-run/game.js:184-186 | definition of the wall nudge; its effect is stated in Physics.ApplyForcesEffect |
| Physics.Integrated | 01-money-run/game.js:188 | definition of the vertical integration; its effect is stated in Physics.ApplyForcesEffect |
| Physics.ApplyForces | 01-money-run/game.js:181-198 | the columns, flags, offset and score are unchanged |
| Physics.ApplyForcesEffect | 01-money-run/game.js:181-198 | x drops by exactly 1 when the right edge is inside a column, and is otherwise unchanged; a grounded player ends with its bottom exactly on the top it rests on, velocity 0 and still grounded; otherwise y moves by `v * step` and v gains `9.8 * step` |
| Physics.MoneyOverlap | 01-money-run/game.js:214-223 | the two-clause overlap condition holds exactly when the player box [y, y + 27] meets the money box [top - 20, top] |
| Physics.GrabAt | 01-money-run/game.js:207-228 | one sample leaves the heights, offset, player and array length unchanged |
| Physics.GrabMoneyUnderPlayer | 01-money-run/game.js:200-229 | the heights, offset, player and array length are unchanged |
| Physics.GrabAtEffect | 01-money-run/game.js:207-228 | one sample only clears flags, clears at most its own column's flag, and does so exactly when that column has money and the boxes overlap; the score gains 100 per flag cleared |
| Physics.GrabMoneyEffect | 01-money-run/game.js:200-229 | a call only turns flags from true to false, only at the two sampled columns, at most two flags and at most one when both samples hit the same column; the score gains exactly 100 per cleared flag |
| Physics.GrabMoneyIdempotent | 01-money-run/game.js:207-228 | collecting a second time on the same state changes nothing; that cleared flags stay cleared across frames is Loop.UpdateOnlyClearsMoney |
| Input.MoveRight | 01-money-run/game.js:348-354 | definition of the RIGHT handler; its guard and effect are in Input.HandlerGuards |
| Input.MoveLeft | 01-money-run/game.js:356-362 | definition of the LEFT handler; its guard and effect are in Input.HandlerGuards |
| Input.Jump | 01-money-run/game.js:364-368 | definition of the SPACE handler; its guard and effect are in Input.HandlerGuards |
| Input.HandleKey | 01-money-run/game.js:348-368 | definition: the handler registered for a key; its properties are in Input.HandlerGuards |
| Input.HandleKeys | 01-money-run/game.js:348-368 | the handlers never change the columns, flags, offset, score or y |
| Input.HandlerGuards | 01-money-run/game.js:348-368 | RIGHT adds 2 to x exactly when x < 300 and the pixel right of the player is clear; LEFT subtracts 1 exactly when x > 0 and the pixel left of the player is clear; SPACE sets v to -40 exactly when the player is grounded; each changes nothing else |
| Input.HandleKeysDisplacement | 01-money-run/game.js:348-368 | within one frame the handlers move x at most 1 left per LEFT and at most 2 right per RIGHT; SPACE never moves x |
| Input.RightMayEnterColumn | 01-money-run/game.js:348-354 | RIGHT clears the pixel at x + 20 but moves 2, so it can leave the right edge 1 pixel inside a taller column (x 39 to 41 next to a column starting at pixel 60), and the next wall nudge pushes the player back to 40 |
| Loop.Advance | 01-money-run/game.js:300-301 | definition of the per-frame scroll; its effect is stated in Loop.UpdateKeepsShape and Loop.UpdateWithoutKeys |
| Loop.Update | 01-money-run/game.js:295-305 | definition of one frame in the source's order; its properties are in Loop.UpdateKeepsShape, Loop.UpdateKeepsWellFormed, Loop.UpdateScore, Loop.UpdateOnlyClearsMoney, Loop.UpdateWithoutKeys and Loop.UpdateWithoutMoney |
| Loop.Play | 01-money-run/game.js:305-311 | definition of the rescheduling chain over a finite list of frames; its properties are in Loop.PlayInvariants, Loop.PlayScrollCounter, Loop.PlayScore and Loop.PlayScoreWithoutMoney |
| Loop.Continue | 01-money-run/game.js:307-311 | definition of the stop-or-reschedule decision after a frame; its properties are in Loop.PlayFrom and Loop.FirstFrame |
| Loop.IsGameOver | 01-money-run/game.js:276-278 | the game is over exactly when the player's right edge is at or left of screen x 0 |
| Loop.UpdateKeepsShape | 01-money-run/game.js:295-305 | a frame keeps 18 columns in both arrays and advances the offset by one, wrapping from 19 to 0, so it stays in [0, 19] between frames |
| Loop.UpdateKeepsWellFormed | 01-money-run/game.js:295-305 | a frame keeps the strip invariants; the heights are unchanged except in the wrapping frame, which shifts them by one and appends a height bounded by the old last height |
| Loop.UpdateScore | 01-money-run/game.js:298-305 | a frame adds exactly 0.25 plus 100 per pickup its `grabMoneyUnderPlayer` call collects; it collects at most two, so the gain is 0.25, 100.25 or 200.25 and the score never decreases |
| Loop.UpdateOnlyClearsMoney | 01-money-run/game.js:295-305 | a frame never sets a pickup flag: outside the wrapping frame every flag it leaves set was set before; in the wrapping frame the same holds for the shifted flags, and the appended column has money exactly when the money roll is below 0.1 |
| Loop.UpdateWithoutKeys | 01-money-run/game.js:295-301 | with no key handlers the frame moves the player 1 pixel left for the scroll, or 2 when the wall nudge also fires |
| Loop.PlayFrom | 01-money-run/game.js:305-311 | the chain resumed at frame n runs frame n, then stops if the game is over and otherwise goes on with the later frames |
| Loop.FirstFrame | 01-money-run/game.js:291-311 | the returned state is exactly the state after the first frame, and after it: the strip keeps its shape and invariants, the offset steps by one, the score gains 0.25 plus 100 per pickup collected in that frame, and the chain stops exactly at game over |
| Loop.PlayInvariants | 01-money-run/game.js:291-311 | over any run the session keeps its invariants, the chain stops early only at game over, and the score grows by at least 0.25 per frame run |
| Loop.CycledIsModulo | 01-money-run/game.js:300 | stepping the offset n times with wrap at 20, starting from [0, 19], gives (start + n) mod 20 |
| Loop.PlayScrollCounter | 01-money-run/game.js:300-303 | after a run the offset equals the start offset stepped once per frame run, wrapping at a whole tile, so a column is recycled every 20 frames |
| Loop.UpdateWithoutMoney | 01-money-run/game.js:298-305 | on a strip with no money, and a draw that places none, a frame adds exactly 0.25 and leaves no money |
| Loop.PlayScoreWithoutMoney | 01-money-run/game.js:305 | when no money is ever present, n frames add exactly 0.25 * n to the score |
| Loop.PlayScore | 01-money-run/game.js:298-311 | over a run, the score grows by exactly 0.25 per frame run plus 100 per pickup collected in those frames (Loop.Collections, the sum of Loop.Collected over the frames run) |
| Session.PlayerState.constructor | 01-money-run/game.js:327-331 | the player starts at x = 60 and y = 0 with velocity 0 |
| Session.State.constructor | 01-money-run/game.js:321-332 | the session equals the start value |
| Session.State.DrawRandomLevelColumn | 01-money-run/game.js:83-113 | pushes exactly the generated column onto both arrays, leaving the offset and score unchanged |
| Session.State.InitLevel | 01-money-run/game.js:123-127 | the loop appends exactly the 18 columns of the initial strip (loop invariant: the columns so far equal the strip's first x columns) |
| Session.State.UpdateLevelIfNecessary | 01-money-run/game.js:231-258 | the new session equals the recycle step applied to the old one |
| Session.State.ApplyForces | 01-money-run/game.js:181-198 | the player after the in-place updates equals the physics step of the old session |
| Session.State.GrabAt | 01-money-run/game.js:207-228 | the in-place flag clear and score increase equal one sample of the collection |
| Session.State.GrabMoneyUnderPlayer | 01-money-run/game.js:200-229 | the two samples in order equal the collection step |
| Session.State.MoveRight | 01-money-run/game.js:348-354 | equals the RIGHT handler |
| Session.State.MoveLeft | 01-money-run/game.js:356-362 | equals the LEFT handler |
| Session.State.Jump | 01-money-run/game.js:364-368 | equals the SPACE handler |
| Session.State.Tick | 01-money-run/game.js:296 | firing the handlers in order equals the key-handling function |
| Session.State.Update | 01-money-run/game.js:291-312 | the in-place frame equals one frame of the model, and the result is the game-over condition on the new session |
| Session.State.Frame | 01-money-run/game.js:305-311 | one frame followed by the reschedule decision, stated against the chain |
| Session.State.Run | 01-money-run/game.js:305-311 | the loop ends in the same session, after the same number of frames, as the modelled chain |
| Session.Start | 01-money-run/game.js:321-341 | the start value followed by `initLevel` gives the initial level |

## Left out

- Drawing is not modelled: the tile and money sprites, the scratch-canvas blits, the `clearRect` on pickup, and the screen and game-over rendering.
- The score display (`Math.floor(score)`) is not modelled.
- Image loading, canvas creation, the Promise plumbing in `window.onload` and `window.debug` are not modelled.
- `Math.random()` is not modelled. Each column's height roll and money roll are parameters (a `Draw`), both in [0, 1). An unforced column uses both rolls; a forced column uses neither.
- Time is not modelled. The source calls `Date.now()`, and `dt / 1e13` becomes a parameter `step` of each frame.
- Floating point is not modelled: y, v and score are exact reals. With 0.25 and 100 the score arithmetic is exact in doubles anyway. The y and v trajectories are not: Physics.ApplyForcesEffect states y + v * step and v + 9.8 * step exactly, which holds for exact reals, while the game rounds each to a double.
- The keydrown library is not modelled: `kd.tick()` becomes a sequence of handler firings chosen by the caller. It does not decide which keys are held or pressed, nor the difference between `down` and `press`.
- `requestAnimationFrame` is not modelled: `Loop.Play` and `Session.State.Run` run a finite list of frames. The game itself runs until game over.
- Generator.RandomLevelColumn: requires a last height when the column is not forced. On an empty strip the source would compute `NaN`. It never does so, because `initLevel` forces the first ten columns.
- Loop.Update: requires a last height when the offset is about to wrap, for the same reason. On the 18-column strip of a running game this always holds (`Shaped`).
