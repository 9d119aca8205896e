/** What one frame, and a run of frames, of the game loop guarantees. */
module Properties {
  import opened Anim
  import opened Collision
  import opened Simulation

  // ---- Grounding, gravity and the jump ----

  /** On the ground without a jump the player stops and stays exactly where it is. */
  lemma GroundedIdleStaysPut(s: GameState, dt: real, tex: Textures)
    requires !s.isGameOver && IsGrounded(s.scarfy)
    ensures Stepped(s, dt, false, tex).velocity == 0
    ensures Stepped(s, dt, false, tex).scarfy.pos == s.scarfy.pos
  {
  }

  /**
   * A jump from the ground sets the velocity to exactly the jump velocity,
   * since grounding has just zeroed it; the restart of the same frame, if
   * any, does not reset the velocity.
   */
  lemma GroundedJumpSetsJumpVelocity(s: GameState, dt: real, tex: Textures)
    requires !s.isGameOver && IsGrounded(s.scarfy)
    ensures Stepped(s, dt, true, tex).velocity == JumpVel
    ensures Simulated(s, dt, true, tex).scarfy.pos.y == s.scarfy.pos.y + JumpVel as real * dt
  {
  }

  /** In the air, pressing space changes nothing the simulation computes. */
  lemma AirborneSpaceIgnored(s: GameState, dt: real, tex: Textures)
    requires !IsGrounded(s.scarfy)
    ensures Simulated(s, dt, true, tex) == Simulated(s, dt, false, tex)
    ensures Stepped(s, dt, true, tex).velocity == Stepped(s, dt, false, tex).velocity
  {
  }

  /** In the air, gravity never makes the velocity more upward, and changes it by less than one unit beyond 1250*dt. */
  lemma AirborneVelocityGrows(s: GameState, dt: real, spacePressed: bool, tex: Textures)
    requires !s.isGameOver && !IsGrounded(s.scarfy) && 0.0 <= dt
    ensures s.velocity <= Stepped(s, dt, spacePressed, tex).velocity
    ensures Stepped(s, dt, spacePressed, tex).velocity as real < s.velocity as real + Gravity as real * dt + 1.0
  {
  }

  /**
   * The floor is not a clamp: a falling player can end a frame below the
   * floor line (here 71.5 pixels below it).
   */
  lemma LandingCanOvershoot()
    ensures
      var tex := Textures(8, 8, 60, 100, 1, 1, 1);
      var s := Start(tex).(scarfy := Start(tex).scarfy.(pos := Vector2(251.0, 279.0)), velocity := 600);
      !IsGrounded(s.scarfy) && Stepped(s, 0.1, false, tex).scarfy.pos.y == 351.5
  {
  }

  /**
   * The player's animation is gated on being grounded after the move: then
   * it advances one cell of five once its 1/12 s is up, and otherwise only
   * its elapsed time grows; in the air its cell, frame and elapsed time
   * are frozen.
   */
  lemma ScarfyAnimationGate(s: GameState, dt: real, spacePressed: bool, tex: Textures)
    ensures
      var lifted := Lift(s.scarfy, NewVelocity(s.scarfy, s.velocity, dt, spacePressed), dt);
      var r := Simulated(s, dt, spacePressed, tex).scarfy;
      (IsGrounded(lifted) && s.scarfy.updateTime <= s.scarfy.runningTime + dt ==>
         r.frame == NextFrame(s.scarfy.frame, ScarfyFrames) && r.runningTime == 0.0
         && r.rec.x == s.scarfy.frame as real * s.scarfy.rec.width)
      && (IsGrounded(lifted) && s.scarfy.runningTime + dt < s.scarfy.updateTime ==>
         r == lifted.(runningTime := s.scarfy.runningTime + dt))
      && (!IsGrounded(lifted) ==>
         r == lifted && r.frame == s.scarfy.frame && r.rec == s.scarfy.rec
         && r.runningTime == s.scarfy.runningTime)
  {
  }

  /** A player standing still on the ground keeps animating: its frame moves on once due. */
  lemma GroundedIdleAnimates(s: GameState, dt: real, tex: Textures)
    requires IsGrounded(s.scarfy) && s.scarfy.updateTime <= s.scarfy.runningTime + dt
    ensures Simulated(s, dt, false, tex).scarfy.frame == NextFrame(s.scarfy.frame, ScarfyFrames)
  {
  }

  // ---- Obstacles ----

  /**
   * One simulated frame moves each obstacle on its own: left by 200*dt, back
   * to the right edge once fully off screen, and one animation cell on
   * (their frame duration is 0, so every call is due); its height never changes.
   */
  lemma ObstacleStep(s: GameState, dt: real, spacePressed: bool, tex: Textures, i: int)
    requires Invariant(s, tex) && 0.0 <= dt && 0 <= i < NebulaeSize
    ensures
      var n, r := s.nebulae[i], Simulated(s, dt, spacePressed, tex).nebulae[i];
      r == UpdateAnimData(MoveNebula(n, dt), dt, NebulaFrames)
      && r.frame == NextFrame(n.frame, NebulaFrames)
      && r.pos.y == n.pos.y
      && r.pos.x > -r.rec.width
      && (r.pos.x == n.pos.x + NebVel as real * dt || r.pos.x == WindowWidth as real)
  {
  }

  // ---- Collision ----

  /** A simulated frame ends the game exactly when some obstacle's padded box meets the player's. */
  lemma CollisionEndsGame(s: GameState, dt: real, spacePressed: bool, tex: Textures)
    requires !s.isGameOver
    ensures var r := Simulated(s, dt, spacePressed, tex);
      r.isGameOver <==> exists j :: 0 <= j < |r.nebulae| && Collides(r.nebulae[j], r.scarfy)
  {
  }

  // ---- The Running / GameOver state machine ----

  /** While the game is over and space is not pressed, a frame changes nothing. */
  lemma GameOverFrozen(s: GameState, dt: real, tex: Textures)
    requires s.isGameOver
    ensures Stepped(s, dt, false, tex) == s
  {
  }

  /** While the game is over, any number of frames without space change nothing. */
  lemma {:induction false} GameOverFrozenForRun(s: GameState, inputs: seq<Input>, tex: Textures)
    requires s.isGameOver
    requires forall k :: 0 <= k < |inputs| ==> !inputs[k].spacePressed
    ensures Run(s, inputs, tex) == s
    decreases |inputs|
  {
    if inputs != [] {
      GameOverFrozen(s, inputs[0].dt, tex);
      GameOverFrozenForRun(s, inputs[1..], tex);
    }
  }

  /** While running, the score grows by exactly dt, unless the frame restarts the game. */
  lemma RunningScoreGrows(s: GameState, dt: real, spacePressed: bool, tex: Textures)
    requires !s.isGameOver
    ensures var r := Stepped(s, dt, spacePressed, tex);
      r.score == s.score + dt || (spacePressed && !r.isGameOver && r.score == 0.0)
    ensures !spacePressed ==> Stepped(s, dt, spacePressed, tex).score == s.score + dt
  {
  }

  /** No frame of the run, started from `s`, ends in a collision. */
  predicate NoCollision(s: GameState, inputs: seq<Input>, tex: Textures)
    decreases |inputs|
  {
    inputs == []
    || (!Simulated(s, inputs[0].dt, inputs[0].spacePressed, tex).isGameOver
        && NoCollision(Stepped(s, inputs[0].dt, inputs[0].spacePressed, tex), inputs[1..], tex))
  }

  /**
   * The score is survival time: over a run from a running state in which no
   * frame collides (jumps allowed), the game is still running at the end and
   * the score has grown by the total of the frame times.
   */
  lemma {:induction false} ScoreIsSurvivalTime(s: GameState, inputs: seq<Input>, tex: Textures)
    requires !s.isGameOver && NoCollision(s, inputs, tex)
    ensures !Run(s, inputs, tex).isGameOver
    ensures Run(s, inputs, tex).score == s.score + TotalTime(inputs)
    decreases |inputs|
  {
    if inputs != [] {
      ScoreIsSurvivalTime(Stepped(s, inputs[0].dt, inputs[0].spacePressed, tex), inputs[1..], tex);
    }
  }

  /**
   * Space on a frame that is, or becomes, game over restarts the game in that
   * frame: running again, score 0, the obstacles and the player exactly at
   * the layout `init` gives (obstacle i at x = 512 + 300*i on cell 0, the
   * player standing on the floor on cell 0). Velocity and scroll offsets are
   * those the frame had before the restart.
   */
  lemma RestartRestoresLayout(s: GameState, dt: real, tex: Textures)
    requires s.isGameOver || Simulated(s, dt, true, tex).isGameOver
    ensures var t := if s.isGameOver then s else Simulated(s, dt, true, tex);
      var r := Stepped(s, dt, true, tex);
      !r.isGameOver && r.score == 0.0
      && r.scarfy == InitialScarfy(tex) && r.nebulae == InitialNebulae(tex)
      && (forall i :: 0 <= i < NebulaeSize ==>
            r.nebulae[i].pos.x == WindowWidth as real + 300.0 * i as real
            && r.nebulae[i].frame == 0 && r.nebulae[i].runningTime == 0.0)
      && IsGrounded(r.scarfy) && r.scarfy.frame == 0
      && r.velocity == t.velocity
      && r.bgX == t.bgX && r.mgX == t.mgX && r.fgX == t.fgX
  {
  }

  /**
   * The restart check comes after the simulation in the same frame, so a
   * frame in which space is pressed never ends in game over: a collision on
   * that frame restarts the game at once.
   */
  lemma SpaceFrameNeverEndsOver(s: GameState, dt: real, tex: Textures)
    ensures !Stepped(s, dt, true, tex).isGameOver
    ensures !s.isGameOver && Simulated(s, dt, true, tex).isGameOver ==> Stepped(s, dt, true, tex).score == 0.0
  {
  }

  // ---- Invariants over whole runs ----

  /** Every state reached from the start with non-negative frame times keeps the invariant. */
  lemma {:induction false} RunKeepsInvariant(s: GameState, inputs: seq<Input>, tex: Textures)
    requires Invariant(s, tex)
    requires forall k :: 0 <= k < |inputs| ==> 0.0 <= inputs[k].dt
    ensures Invariant(Run(s, inputs, tex), tex)
    decreases |inputs|
  {
    if inputs != [] {
      StepInvariant(s, inputs[0].dt, inputs[0].spacePressed, tex);
      assert forall k :: 0 <= k < |inputs[1..]| ==> 0.0 <= inputs[1..][k].dt by {
        forall k | 0 <= k < |inputs[1..]| ensures 0.0 <= inputs[1..][k].dt {
          assert inputs[1..][k] == inputs[k + 1];
        }
      }
      RunKeepsInvariant(Stepped(s, inputs[0].dt, inputs[0].spacePressed, tex), inputs[1..], tex);
    }
  }

  /**
   * Hence, after any run from the start: every frame index is in range,
   * every obstacle is not yet fully off the left edge, every scroll offset is
   * above minus twice its texture width, and the score is not negative.
   */
  lemma ReachableBounds(inputs: seq<Input>, tex: Textures)
    requires forall k :: 0 <= k < |inputs| ==> 0.0 <= inputs[k].dt
    ensures var r := Run(Start(tex), inputs, tex);
      |r.nebulae| == NebulaeSize
      && (forall i :: 0 <= i < NebulaeSize ==>
            0 <= r.nebulae[i].frame < NebulaFrames && r.nebulae[i].pos.x > -r.nebulae[i].rec.width)
      && 0 <= r.scarfy.frame < ScarfyFrames
      && r.bgX > -(tex.backgroundWidth * 2) as real
      && r.mgX > -(tex.midgroundWidth * 2) as real
      && r.fgX > -(tex.foregroundWidth * 2) as real
      && 0.0 <= r.score
  {
    StartInvariant(tex);
    RunKeepsInvariant(Start(tex), inputs, tex);
  }
}
