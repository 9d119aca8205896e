# Dapper Dasher — a verified model of the frame step

Dapper Dasher is a small endless runner written against raylib: the player
sprite ("scarfy") stands on a floor line and jumps over three animated
obstacles ("nebulae") that drift in from the right, while three background
layers scroll at different speeds and a score counts the seconds survived. All
of its state lives in globals that one loop updates in place once per frame.

This project models that per-frame simulation step in Dafny:

- `anim.dfy` (module `Anim`): the `AnimData` record (sheet cell, position,
  frame index, frame duration, elapsed time) and `updateAnimData`, with C's
  truncating `%` written out, and the fact that `maxFrame` due calls bring the
  frame index back to where it started.
- `collision.dfy` (module `Collision`): the boxes inset by 20 (obstacle) and
  30 (player) pixels and the overlap test between them.
- `simulation.dfy` (module `Simulation`): the game state as a value
  (`GameState`) and one iteration of the loop as functions of it:
  `Simulated` (the `if (!isGameOver)` block), `Initialized` (`init`),
  `Stepped` (simulate, then the restart check of the same iteration) and
  `Run` (a sequence of frames), together with the invariant every frame keeps.
- `game.dfy` (module `Game`): class `Dasher`, whose fields are the program's
  globals (`nebulae` is a fixed array of three cells rewritten in place). Its
  methods follow the loop statement by statement, and `Step` is proved to
  produce exactly `Stepped` of the old state and to keep the invariant.
- `properties.dfy` (module `Properties`): grounding and jump, obstacle motion,
  collision, and the Running/GameOver state machine, for one frame and for
  whole runs.

Modelling choices:

- Positions, `dt`, `score`, frame times and scroll offsets are `real`.
  `velocity` is an `int`, and `velocity += gravity * dt` converts the
  floating sum back to `int`; this is `TruncToInt`, which drops the fraction
  toward zero. No exact jump arc or landing height is claimed.
- `GetFrameTime()` and `IsKeyPressed(KEY_SPACE)` are the inputs of `Step`. The
  key is read twice in one iteration (jump and restart), and both reads give
  the same answer within a frame, so it is one boolean.
- Texture sizes come from loaded files. They are the positive integers of
  `Textures`. `nebula.width / 8.0f` is a real division and
  `scarfy.width / 6` an integer one, as in the code.
- `updateAnimData` updates a struct through a reference. Here it takes the
  struct value and returns the updated one, and the caller stores it back into
  the same field or array cell, which has the same effect.
- raylib's `CheckCollisionRecs` is outside this model. `CheckCollisionRecs` here
  is the usual strict overlap test on both axes, and it is an assumption. No
  lemma depends on how boxes whose edges only touch are treated.

Behaviour the proofs make explicit:

- The floor is not a clamp. Grounding only zeroes the velocity at the start of
  a frame, so a falling player can end a frame below the floor line
  (`LandingCanOvershoot`).
- A jump adds −700 to a velocity that grounding has just set to 0, so a jump
  from the ground gives exactly −700.
- The restart check runs after the simulation in the same iteration. So a
  collision in a frame where space is pressed restarts the game at once, and
  such a frame never ends in game over.
- Obstacles re-enter at x = 512 exactly, not 512 plus their width.

## Model

| member | source | states |
|---|---|---|
| Anim.CRem | dasher.cpp:47 | C's `%`: the result lies strictly between −b and b, takes the sign of the dividend, is the dividend itself when 0 ≤ a < b, and is 0 when a = b |
| Anim.NextFrame | dasher.cpp:46-47 | from a frame in [0, maxFrame), the next frame is frame+1, or 0 when frame+1 reaches maxFrame |
| Anim.UpdateAnimData | dasher.cpp:41-49 | position, rec.y, rec.width, rec.height and updateTime never change. When runningTime+dt < updateTime, only runningTime grows, by dt. Otherwise runningTime becomes 0, rec.x becomes the pre-increment frame × rec.width, and the frame moves one step round the cycle. The frame stays in [0, maxFrame), and 0 ≤ runningTime < updateTime is kept |
| Anim.UpdateAnimDataSeq | dasher.cpp:41-49 | definition: successive calls on one sprite, one per frame time. Its properties are stated by FramesAfterCalls and FrameCycleReturns |
| Anim.DueCalls | dasher.cpp:43-47 | the number of calls in a run that advanced the frame. It is at most the number of calls: one advance per call at most |
| Anim.FramesAfterCalls | dasher.cpp:41-49 | for any frame times, after a run of calls the frame is (frame + number of due calls) mod maxFrame |
| Anim.NextFrameTimes | dasher.cpp:46-47 | definition: n advances of the frame index. Its properties are stated by NextFrameTimesIsRemainder |
| Anim.NextFrameTimesIsRemainder | dasher.cpp:46-47 | n advances from a frame in [0, maxFrame) land on (frame + n) mod maxFrame |
| Anim.FrameCycleReturns | dasher.cpp:41-49 | after maxFrame advances the frame is back where it started. This holds for maxFrame applications of the advance, and for any run of calls with any frame times of which exactly maxFrame were due |
| Collision.CheckCollisionRecs | dasher.cpp:134 | definition, and an assumption: the strict overlap test on both axes that stands in for raylib's. Its properties are stated by CheckCollisionRecsSymmetric, CollisionNeedsSpriteOverlap and ShallowOverlapDoesNotCollide |
| Collision.PaddedBox | dasher.cpp:120-133 | the box is the sprite's on-screen box moved in by the padding on all four sides |
| Collision.Collides | dasher.cpp:119-136 | definition: the obstacle box inset by 20 overlaps the player box inset by 30. Its properties are stated by CollisionNeedsSpriteOverlap and ShallowOverlapDoesNotCollide |
| Collision.AnyCollision | dasher.cpp:118-137 | definition: some obstacle of the array collides. Its properties are stated by Properties.CollisionEndsGame and Game.Dasher.DetectCollisions |
| Collision.CheckCollisionRecsSymmetric | dasher.cpp:134 | the assumed overlap test does not depend on argument order |
| Collision.CollisionNeedsSpriteOverlap | dasher.cpp:118-137 | a collision between the padded boxes implies that the sprites' full boxes overlap |
| Collision.ShallowOverlapDoesNotCollide | dasher.cpp:118-137 | sprites that overlap by less than 50 pixels (20 + 30) on either axis never collide |
| Simulation.IsGrounded | dasher.cpp:37-39 | definition: y ≥ 380 − height, so at or below the floor line. Its properties are stated by GroundedIdleStaysPut, GroundedJumpSetsJumpVelocity and InitialScarfy |
| Simulation.TruncToInt | dasher.cpp:94 | the float-to-int conversion drops the fraction toward zero: the result is within 1 of x and no farther from 0 than x |
| Simulation.Fall | dasher.cpp:94 | for dt ≥ 0, airborne gravity never lowers the velocity, and the new velocity is within 1 of velocity + 1250·dt |
| Simulation.MoveNebula | dasher.cpp:100-103 | only pos.x changes. It becomes x − 200·dt, or exactly 512 when that is ≤ −rec.width. Afterwards pos.x > −rec.width |
| Simulation.Moved | dasher.cpp:100-103 | the loop moves every obstacle, each from its own old value, and keeps the count. Its per-obstacle properties are stated by MoveNebula and Properties.ObstacleStep |
| Simulation.Animated | dasher.cpp:114-116 | the loop animates every obstacle with 7 cells, each from its own old value, and keeps the count. Its per-obstacle properties are stated by Properties.ObstacleStep |
| Simulation.NewVelocity | dasher.cpp:93-97 | grounded with space gives exactly −700. Grounded without space gives 0. In the air it is gravity alone, and space is ignored |
| Simulation.Lift | dasher.cpp:106 | only y changes. It is unchanged at velocity 0, goes up when velocity < 0 and down when velocity > 0 (for dt > 0) |
| Simulation.AnimateScarfy | dasher.cpp:109-111 | on the ground the player sprite is advanced by `updateAnimData` with five cells. In the air it is left as it is, so its animation freezes. Position and cell size never change |
| Simulation.Scrolled | dasher.cpp:139-147 | the offset drops by speed·dt and is reset to exactly 0 when it reaches ≤ −2·width, so afterwards it is > −2·width |
| Simulation.Simulated | dasher.cpp:86-148 | the simulation block: the score grows by dt and the obstacle count is kept. Game over is never cleared, and is set only by a collision at the updated positions. The class's Simulate is proved equal to it |
| Simulation.InitialNebula | dasher.cpp:52-60 | obstacle i ≥ 0 starts with cell size width/8 × height/8, on the floor, on cell 0, with frame duration and elapsed time 0, so it satisfies the obstacle invariant |
| Simulation.InitialNebulae | dasher.cpp:52-60 | three obstacles at x = 512 + 300·i |
| Simulation.InitialScarfy | dasher.cpp:62-68 | the player starts on cell 0 at sheet offset (0, 0), with frame duration 1/12 and elapsed time 0. Its bottom is exactly on the floor line (grounded), and it is centred on x = 256 |
| Simulation.Initialized | dasher.cpp:51-71 | `init`: score 0 and the player grounded. Velocity, scroll offsets and the game-over flag are untouched |
| Simulation.Start | dasher.cpp:23-35 | the globals start at zero (running, velocity 0, offsets 0), and then `init` runs (line 82) |
| Simulation.Stepped | dasher.cpp:85-188 | one loop iteration. A frame with space never ends in game over. Game over without space changes nothing. Game over is only ever entered through a collision. The class's Step is proved equal to it |
| Simulation.Run | dasher.cpp:85-191 | definition: the loop over a finite list of frame inputs. Its properties are stated by GameOverFrozenForRun, ScoreIsSurvivalTime, RunKeepsInvariant and ReachableBounds |
| Simulation.InitializedInvariant | dasher.cpp:51-71 | `init` gives a layout that satisfies the frame invariant, whatever velocity it leaves |
| Simulation.StartInvariant | dasher.cpp:23-35 | the zero-initialised globals followed by `init` satisfy the invariant |
| Simulation.SimulatedInvariant | dasher.cpp:86-148 | the simulation block keeps the invariant: sheet sizes, obstacle height and floor position, frames in range, obstacle x > −width, and the player's 0 ≤ runningTime < 1/12. It also keeps offsets > −2·width and score ≥ 0 |
| Simulation.StepInvariant | dasher.cpp:85-188 | every loop iteration (simulate, freeze or restart) keeps the invariant |
| Game.Dasher.constructor | dasher.cpp:82 | the initial state is the zeroed globals after `init`, and it is valid |
| Game.Dasher.Init | dasher.cpp:51-71 | obstacle i is placed at x = 512 + 300·i on the floor with frame 0 and times 0; the player is reset; score is 0; velocity, offsets and game-over flag are untouched |
| Game.Dasher.MoveNebulae | dasher.cpp:100-103 | every cell of the obstacle array is replaced by its moved and wrapped value |
| Game.Dasher.AnimateNebulae | dasher.cpp:114-116 | every cell of the obstacle array is advanced by UpdateAnimData with 7 frames |
| Game.Dasher.DetectCollisions | dasher.cpp:118-137 | the game-over flag becomes its old value or'ed with "some obstacle collides with the player"; it is never cleared |
| Game.Dasher.ScrollLayers | dasher.cpp:139-147 | the three offsets scroll at 20, 40 and 80 pixels per second with their wrap |
| Game.Dasher.Simulate | dasher.cpp:86-148 | the in-place simulation block produces exactly `Simulated` of the old state |
| Game.Dasher.Step | dasher.cpp:85-188 | one loop iteration without drawing produces exactly `Stepped` of the old state (simulate unless over, then restart on space), and keeps the invariant |
| Properties.GroundedIdleStaysPut | dasher.cpp:93-106 | grounded with no space: velocity becomes 0 and the player's position is unchanged |
| Properties.ScarfyAnimationGate | dasher.cpp:105-111 | if the player is on the ground after the move, it advances one of five cells once its frame time is up and otherwise only its elapsed time grows; if it is in the air, its cell, frame and elapsed time do not change |
| Properties.GroundedIdleAnimates | dasher.cpp:93-111 | a player standing on the ground without jumping moves on to its next cell once its frame time is due |
| Properties.GroundedJumpSetsJumpVelocity | dasher.cpp:93-106 | grounded with space: velocity becomes exactly −700 (even if the frame restarts), and y moves by −700·dt |
| Properties.AirborneSpaceIgnored | dasher.cpp:93-97 | in the air, pressing space changes nothing the simulation computes, and the velocity is the same with or without it |
| Properties.AirborneVelocityGrows | dasher.cpp:93-94 | in the air, the velocity never decreases and grows by less than 1250·dt + 1 |
| Properties.LandingCanOvershoot | dasher.cpp:93-106 | a concrete airborne state ends the frame 71.5 pixels below the floor line: the floor does not clamp |
| Properties.ObstacleStep | dasher.cpp:100-116 | each obstacle is updated from its own old value only. It moves by −200·dt or wraps to 512, and always advances one frame, because its frame duration is 0. Its y never changes, and it ends with x > −width |
| Properties.CollisionEndsGame | dasher.cpp:118-137 | a simulated frame ends the game if and only if some obstacle's padded box overlaps the player's padded box |
| Properties.GameOverFrozen | dasher.cpp:86 | while game over and without space, a frame changes nothing |
| Properties.GameOverFrozenForRun | dasher.cpp:86 | while game over, any run of frames without space changes nothing |
| Properties.RunningScoreGrows | dasher.cpp:90 | while running, the score grows by exactly dt, unless space restarts the game in that frame (score 0) |
| Properties.NoCollision | dasher.cpp:118-137 | definition: no frame of a run collides. Its properties are stated by ScoreIsSurvivalTime |
| Properties.ScoreIsSurvivalTime | dasher.cpp:86-90 | over any run (jumps allowed) from a running state in which no frame collides, the game is still running and the score has grown by the sum of the frame times |
| Properties.RestartRestoresLayout | dasher.cpp:184-187 | space on a frame that is or becomes game over gives: running, score 0, the player and obstacles exactly at `init`'s layout (obstacle i at x = 512 + 300·i on frame 0, the player grounded on frame 0). The velocity and scroll offsets are those the frame had before the restart |
| Properties.SpaceFrameNeverEndsOver | dasher.cpp:184-187 | a frame with space pressed never ends in game over. A collision in such a frame restarts with score 0 |
| Properties.RunKeepsInvariant | dasher.cpp:85-191 | every run with non-negative frame times keeps the invariant |
| Properties.ReachableBounds | dasher.cpp:82-191 | after any run from the start: frame indices are in range, obstacles have x > −width, offsets are > −2·width, and score ≥ 0 |

## Left out

- Window, texture loading, drawing, text and their release (`InitWindow`, `LoadTexture`, `SetTargetFPS`, `BeginDrawing`/`EndDrawing`, `DrawTexture*`, `DrawText`, `MeasureText`, `UnloadTexture`, `CloseWindow`, dasher.cpp:74-84, 150-183, 190-198). These are platform calls with no logic of the core. Only the texture sizes enter the model, as positive parameters.
- `WindowShouldClose`: the loop is modelled one iteration at a time (`Step`) or over a given finite list of frames (`Run`).
- `GetFrameTime` and `IsKeyPressed` are inputs, not modelled calls.
- raylib's `CheckCollisionRecs` body is not part of this model. An explicit strict overlap test stands in for it, and nothing about edges that only touch is claimed.
- IEEE single-precision rounding: positions, times, score and offsets are exact reals.
- `int` overflow of `velocity` and the undefined float-to-int conversion of out-of-range values are not modelled. `TruncToInt` is exact truncation.
- No exact jump arc or landing height, and no "never below the floor" invariant: the code does not clamp the position.
