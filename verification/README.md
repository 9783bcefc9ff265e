# Flappy Bird simulation core in Dafny

This project models the simulation logic of a single-file Pygame Flappy Bird
clone, without rendering or input. The pieces modelled are:

- the bird, which sinks at a constant rate or climbs with easing after a jump;
- the pipe pair, whose two stacks are built from 32 px pieces around one
  random draw;
- the obstacle queue, where new pairs join at the tail, off-screen pairs
  leave from the head, all pairs scroll, and pairs the bird has passed are
  scored;
- one tick of the playing loop, as a pure transition over
  `(bird, pipes, frameClock, score, paused, done)`, and runs of ticks.

Files and modules:

- `timing.dfy` (`Timing`): the top-level constants (`FPS`,
  `ANIMATION_SPEED`, window size) and the conversions `FramesToMsec` and
  `MsecToFrames`.
- `birds.dfy` (`Birds`): the `Bird` record, `Update` and `Jump`, and what a
  jump does over the following frames.
- `pipes.dfy` (`Pipes`): the `PipePair` record, construction from a draw,
  stack heights and the gap, visibility, scrolling, and the per-pair score
  check.
- `obstacles.dfy` (`Obstacles`): the queue operations `Evict`, `MoveAll` and
  `ScorePipes`, and the screen-order predicate `Ordered`.
- `play.dfy` (`Play`): events, the loop state, the spawn check, event
  handling, `Tick` and `Run`.
- `play_proofs.dfy` (`PlayProofs`): the loop invariant `Inv` and the
  properties of a tick and of runs.

The model makes these choices:

- Python floats are exact reals.
- The pixel-mask collision test comes with each tick as a parameter,
  `collides: (PipePair, Bird) -> bool`. The bird's mask depends on wall-clock
  time, so the test may differ from one tick to the next.
- `math.cos` is a parameter `cos`. It is assumed to stay within [-1, 1] and
  to give `cos(0) == 1`. `math.pi` is the real 3.141592653589793.
- The random draw `randint(1, 10)` is a parameter `draw`. A single tick
  needs it in 1..10 only when a pair is spawned. A run asks it of every
  tick's draw, because which ticks spawn depends on the events.
- The events of a tick are a sequence of `Event` values.
- The default arguments `delta_frames=1` and `fps=FPS` are passed
  explicitly.

In these places the code's behaviour is easy to misread; the model follows
the code:

- **Termination test.** The test runs on the positions from before the
  tick's movement. It runs before eviction, so it also sees the pair spawned
  this tick and invisible pairs that have not yet been evicted.
- **Quit or Escape.** These events set `done` and drop the rest of the tick's
  events. When the game is not paused, the rest of the tick still runs: the
  termination test, movement, scoring and `frameClock += 1`.
- **Fresh game.** The bird starts with a 2 ms climb budget. Its first tick is
  therefore a climbing tick, and it sinks by 2.5 px per tick only after that.
- **Restart.** The game has no restart. Pressing R in the game-over loop only
  leaves that loop, after which the program prints the score and exits.

## Model

| member | source | states |
|---|---|---|
| Timing.FramesToMsec | flappybird.py:152-153 | At a positive frame rate, a duration in ms is non-negative (positive) exactly when its frame count is. |
| Timing.MsecToFrames | flappybird.py:156-157 | Converting frames back to milliseconds returns the original duration. |
| Timing.FramesRoundTrip | flappybird.py:152-157 | Converting frames to ms and back returns the same frame count. |
| Timing.OneFrameAtFps | flappybird.py:152-153 | At 60 FPS, one frame lasts exactly 50/3 ms. |
| Birds.Update | flappybird.py:34-42 | Keeps x. A climbing bird never moves down, rises at most 10 px per frame, and spends the elapsed ms of its climb. A sinking bird never moves up, keeps its climb value, and falls exactly 2.5 px in one frame. |
| Birds.Jump | flappybird.py:232 | After a jump the bird is at the same place, climbing, with climb progress 0. |
| Birds.JumpOverridesClimb | flappybird.py:232 | A jump is not additive: two birds at the same place jump into the same state, and jumping twice is the same as jumping once. |
| Birds.FirstClimbFrameStill | flappybird.py:36-39 | The easing starts from rest: the first update after a jump leaves y unchanged. |
| Birds.ClimbAfterJump | flappybird.py:34-42 | For k ≤ 20 frames after a jump, the climb left is 333.3 − k·50/3 ms and the bird is no lower than where it jumped. |
| Birds.JumpClimbsTwentyFrames | flappybird.py:36-42 | A jump gives exactly 20 climbing updates: the bird is still climbing after k < 20 updates and no longer climbing after 20. |
| Birds.SinkingFallsSteadily | flappybird.py:41-42 | With no climb left, n updates move the bird down exactly 2.5·n px and change nothing else. |
| Pipes.New | flappybird.py:71-104 | A new pair is well formed. The bottom stack has draw+1 pieces and the top stack has 10−draw+1. The pair starts at x = 567 and is not yet scored. |
| Pipes.TotalBodyPiecesIsTen | flappybird.py:79-85 | The body-piece total is 10, so valid draws are exactly 1..10. |
| Pipes.DrawRoundTrip | flappybird.py:85-104 | Construction is inverse to recovering the draw. Each draw gives a different pair, and each well-formed, unscored pair at the spawn point comes from exactly one draw. |
| Pipes.GapIsConstant | flappybird.py:88-117 | For every well-formed pair, the stacks do not overlap. The rows covered by neither stack are exactly 128 consecutive rows starting under the top stack, and 128 ≥ the bird's height. |
| Pipes.Move | flappybird.py:129-130 | A move shifts x left by exactly 3 px per frame and changes nothing else. |
| Pipes.MoveNPosition | flappybird.py:129-130 | n one-frame moves shift x left by exactly 3·n px. |
| Pipes.GoneForGood | flappybird.py:119-130 | Once x ≤ −80, the pair is never visible again, however far it moves. |
| Pipes.VisibleLifetime | flappybird.py:119-130 | A fresh pair is visible, and is visible after n moves exactly when n < 216. It turns invisible once and stays invisible. |
| Pipes.Credit | flappybird.py:255-258 | Credit changes only the flag. The flag is set exactly when it was already set or the pair has been passed, so a passed pair cannot score again. |
| Obstacles.Evict | flappybird.py:244-245 | Eviction leaves a suffix of the queue in the same order. Every removed pair was invisible, and the new head, if there is one, is visible. |
| Obstacles.MoveAll | flappybird.py:247-248 | The queue keeps its length, and each pair, in place, is exactly 3 px further left with its pieces and flag unchanged. |
| Obstacles.ScorePipes | flappybird.py:255-258 | Every pair is credited in place. The points gained equal the number of pairs that are passed but not yet scored. |
| Obstacles.ScoreOnce | flappybird.py:255-258 | Scoring is idempotent: a second score check gains nothing and changes nothing. |
| Obstacles.EvictLeavesVisible | flappybird.py:244-245 | In an ordered queue with no pair right of the spawn point, every pair left after eviction is visible. |
| Obstacles.EvictKeepsOrder | flappybird.py:244-245 | Eviction keeps the queue in screen order. |
| Obstacles.MoveAllKeepsOrder | flappybird.py:247-248 | Scrolling keeps the queue in screen order. |
| Obstacles.ScoreKeepsOrder | flappybird.py:255-258 | Scoring keeps the queue in screen order. |
| Obstacles.AppendKeepsOrder | flappybird.py:220-222 | Appending a pair that is no further left than any queued pair keeps screen order. |
| Play.ActionOf | flappybird.py:225-232 | Quit and Escape stop the game, Pause and P toggle pausing, a click and Up, Return and Space make the bird jump; key presses and every other event are ignored. |
| Play.Spawn | flappybird.py:220-222 | The spawn check grows the queue by one exactly when the game is not paused and the frame clock is a multiple of 180. The queued pairs stay as they were, the new pair at the tail is built from the draw, and nothing else in the state changes. |
| Play.StopAt | flappybird.py:224-227 | Returns the position of the first Quit or Escape event, or the number of events if there is none. |
| Play.ApplyEvents | flappybird.py:224-232 | The game is over exactly when a stopping event occurs. Pausing flips once for each Pause or P key handled before the stop. The bird has jumped exactly when a jump event was handled. Nothing else changes. |
| Play.Tick | flappybird.py:217-265 | A tick keeps the bird's x and never lowers the score. The frame clock advances by one exactly when the tick ends unpaused. |
| Play.Run | flappybird.py:217-265 | Over a run, score and frame clock never decrease and the bird keeps its x. A finished game stays unchanged. |
| PlayProofs.SpawnEvery180Frames | flappybird.py:220 | 3000 ms at 60 FPS is exactly the whole number 180, which is the spawn divisor. |
| PlayProofs.InitialInv | flappybird.py:209-216 | The initial state satisfies the invariant, and the bird starts at y = 240 with some climb left. |
| PlayProofs.SpawnKeepsInv | flappybird.py:220-222 | The spawn check keeps the invariant. |
| PlayProofs.EvictKeepsInv | flappybird.py:244-245 | Eviction keeps the invariant's queue part: pairs well formed, in screen order, and flagged exactly when passed. |
| PlayProofs.MoveAllKeepsInv | flappybird.py:247-248 | Scrolling keeps pairs well formed and in order, and a passed pair stays passed. |
| PlayProofs.ScoreKeepsInv | flappybird.py:255-258 | Scoring turns "flagged implies passed" into "flagged exactly when passed". |
| PlayProofs.AdvanceKeepsInv | flappybird.py:244-258 | Eviction, scrolling and scoring together keep the invariant's queue part. |
| PlayProofs.TickKeepsInv | flappybird.py:217-265 | Every tick keeps the invariant. |
| PlayProofs.RunKeepsInv | flappybird.py:217-265 | Every run keeps the invariant. |
| PlayProofs.EvictionCullsAllOffscreen | flappybird.py:244-245 | Under the invariant, eviction removes every off-screen pair, not only the head. |
| PlayProofs.PausedTickFreezes | flappybird.py:234-235 | A tick that is paused after its events leaves the queue as the spawn check left it. It also leaves the bird's position, the score and the frame clock unchanged, and only a stopping event can end the game. |
| PlayProofs.PausedAtSpawnAppendsNothing | flappybird.py:220-235 | A tick that starts paused never grows the queue. |
| PlayProofs.SpawnOnSchedule | flappybird.py:220-222 | For an unpaused start, a spawn is due exactly when frameClock % 180 == 0. Then the last pair is the fresh one, moved one frame unless the tick ended paused. Otherwise the queue does not grow. |
| PlayProofs.TickEndsGame | flappybird.py:237-239 | `done` is set exactly when a stopping event occurs, or the tick is unpaused and a pair collides or y ≤ 0 or y ≥ 480. The test uses positions from before the move, and event handling leaves the bird's position unchanged. |
| PlayProofs.TickMovesBird | flappybird.py:230-251 | In an unpaused tick, a handled jump leaves y unchanged and spends one frame of the fresh climb. Without a jump, a bird with no climb left falls 2.5 px, and a climbing bird does not fall. |
| PlayProofs.AdvanceTracks | flappybird.py:244-258 | The unpaused queue step keeps a suffix of the queue. Each kept pair moves 3 px, its flags are never cleared, and the points gained equal the flags it set. |
| PlayProofs.TickScoresFlippedFlags | flappybird.py:255-258 | Every tick maps the queue onto a suffix with flags never cleared. The score grows by exactly the number of flags set in that tick. |
| PlayProofs.RunScoreMonotone | flappybird.py:255-258 | Score never decreases over consecutive runs, and a finished game ignores further input. |
| PlayProofs.QuietTickFalls | flappybird.py:237-251 | A tick with no input or collision, from strictly inside the window, makes a sinking bird fall 2.5 px. The game goes on, unpaused. |
| PlayProofs.QuietRunFalls | flappybird.py:217-265 | Without input or collision, a sinking bird falls 2.5 px per tick. The game goes on while each tick starts inside the window, and the frame clock counts the ticks. |

## Left out

- Rendering: images, fonts, surfaces, `blit`, `display.flip`, the score text and image loading. These are presentation I/O.
- Pixel-mask construction and `pygame.sprite.collide_mask`. Both are foreign library calls, and the collision test is a parameter of each tick.
- `Bird.image` and `Bird.mask`: the wing-frame choice is keyed off the wall clock `pygame.time.get_ticks()`, which is global time, not game state.
- `Bird.rect` and `PipePair.rect`. They only place blits and offset the mask test, which is a parameter.
- `clock.tick(FPS)`, the real-time pacing of frames.
- The home screen and the game-over loop, including the final score print. They are I/O loops, and `sys` is never imported there. The game never re-enters play, so no restart transition exists.
- The bird is constructed twice in `main`, at lines 205-206 and 209-210. The two constructions are identical, so it is modelled once.
- Birds.Update: the climb step is bounded to [0, 10] px per frame, not given exactly. The easing `1 - cos(progress·π)` depends on the `cos` parameter, which is assumed only to lie in [-1, 1] with `cos(0) == 1`.
- Birds.Update, Pipes.Move, Timing.FramesToMsec: reals stand for IEEE doubles. The exact 3 px and 2.5 px per frame and the 20 climbing frames hold over exact rationals only.
- PlayProofs.TickScoresFlippedFlags: the bound of at most one point per pair over its whole lifetime is not stated over a run. The lemma proves the step of one tick: surviving pairs keep their order, a flag is never cleared, and the score grows by the flags set. The lifetime bound follows from chaining these steps, but no lemma follows a pair across ticks.
- Play.Tick: the Python `frame_clock % 180.0` on floats is an integer `%` here. This is exact because the divisor is a whole number and the clock is non-negative.
