/**
 * The running game: the program's global state as one object, updated in
 * place once per frame.
 */
module Game {
  import opened Anim
  import opened Collision
  import opened Simulation

  class Dasher {
    /** Sizes of the loaded textures. */
    const tex: Textures

    var scarfyData: AnimData
    /** The fixed array of obstacles; its cells are rewritten in place. */
    const nebulae: array<AnimData>
    var velocity: int
    var bgX: real
    var mgX: real
    var fgX: real
    var score: real
    var isGameOver: bool

    /** The whole state as a value. */
    ghost function State(): GameState
      reads this, nebulae
    {
      GameState(scarfyData, nebulae[..], velocity, bgX, mgX, fgX, score, isGameOver)
    }

    ghost predicate Valid()
      reads this, nebulae
    {
      nebulae.Length == NebulaeSize && Invariant(State(), tex)
    }

    /** Program start: every global is zero, then `init` runs. */
    constructor (tex: Textures)
      ensures Valid() && fresh(nebulae)
      ensures this.tex == tex && State() == Start(tex)
    {
      this.tex := tex;
      scarfyData := ZeroAnim;
      nebulae := new AnimData[NebulaeSize](_ => ZeroAnim);
      velocity := 0;
      bgX, mgX, fgX := 0.0, 0.0, 0.0;
      score := 0.0;
      isGameOver := false;
      new;
      Init();
      StartInvariant(tex);
    }

    /** init: lay out the obstacles and the player again and zero the score. */
    method Init()
      requires nebulae.Length == NebulaeSize
      modifies this, nebulae
      ensures State() == Initialized(old(State()), tex)
    {
      for i := 0 to nebulae.Length
        modifies nebulae
        invariant forall j :: 0 <= j < i ==> nebulae[j] == InitialNebula(tex, j)
      {
        nebulae[i] := InitialNebula(tex, i);
      }
      scarfyData := InitialScarfy(tex);
      score := 0.0;
      assert nebulae[..] == InitialNebulae(tex);
    }

    /** Move every obstacle left, wrapping it back to the right edge once it has left the screen. */
    method MoveNebulae(dt: real)
      modifies nebulae
      ensures nebulae[..] == Moved(old(nebulae[..]), dt)
    {
      for i := 0 to nebulae.Length
        invariant forall j :: 0 <= j < i ==> nebulae[j] == MoveNebula(old(nebulae[j]), dt)
        invariant forall j :: i <= j < nebulae.Length ==> nebulae[j] == old(nebulae[j])
      {
        nebulae[i] := nebulae[i].(pos := nebulae[i].pos.(x := nebulae[i].pos.x + NebVel as real * dt));
        if nebulae[i].pos.x <= -nebulae[i].rec.width {
          nebulae[i] := nebulae[i].(pos := nebulae[i].pos.(x := WindowWidth as real));
        }
      }
    }

    /** Advance every obstacle's animation (seven-cell sheet). */
    method AnimateNebulae(dt: real)
      modifies nebulae
      ensures nebulae[..] == Animated(old(nebulae[..]), dt)
    {
      for i := 0 to nebulae.Length
        invariant forall j :: 0 <= j < i ==> nebulae[j] == UpdateAnimData(old(nebulae[j]), dt, NebulaFrames)
        invariant forall j :: i <= j < nebulae.Length ==> nebulae[j] == old(nebulae[j])
      {
        nebulae[i] := UpdateAnimData(nebulae[i], dt, NebulaFrames);
      }
    }

    /** Test every obstacle's padded box against the player's; any hit ends the game. */
    method DetectCollisions()
      modifies this`isGameOver
      ensures isGameOver == (old(isGameOver) || AnyCollision(nebulae[..], scarfyData))
    {
      for i := 0 to nebulae.Length
        invariant isGameOver == (old(isGameOver) || exists j :: 0 <= j < i && Collides(nebulae[j], scarfyData))
      {
        var nebula := nebulae[i];
        var nebRec := Rectangle(nebula.pos.x + NebulaPad, nebula.pos.y + NebulaPad,
                                nebula.rec.width - 2.0 * NebulaPad, nebula.rec.height - 2.0 * NebulaPad);
        var scarfyRec := Rectangle(scarfyData.pos.x + ScarfyPad, scarfyData.pos.y + ScarfyPad,
                                   scarfyData.rec.width - 2.0 * ScarfyPad, scarfyData.rec.height - 2.0 * ScarfyPad);
        if CheckCollisionRecs(nebRec, scarfyRec) {
          isGameOver := true;
        }
      }
    }

    /** Scroll the background, midground and foreground layers. */
    method ScrollLayers(dt: real)
      modifies this`bgX, this`mgX, this`fgX
      ensures bgX == Scrolled(old(bgX), BackgroundSpeed, dt, tex.backgroundWidth)
      ensures mgX == Scrolled(old(mgX), MidgroundSpeed, dt, tex.midgroundWidth)
      ensures fgX == Scrolled(old(fgX), ForegroundSpeed, dt, tex.foregroundWidth)
    {
      bgX := bgX - BackgroundSpeed as real * dt;
      if bgX <= -(tex.backgroundWidth * 2) as real {
        bgX := 0.0;
      }
      mgX := mgX - MidgroundSpeed as real * dt;
      if mgX <= -(tex.midgroundWidth * 2) as real {
        mgX := 0.0;
      }
      fgX := fgX - ForegroundSpeed as real * dt;
      if fgX <= -(tex.foregroundWidth * 2) as real {
        fgX := 0.0;
      }
    }

    /** The simulation block of the loop, in the loop's order. */
    method Simulate(dt: real, spacePressed: bool)
      requires nebulae.Length == NebulaeSize && !isGameOver
      modifies this, nebulae
      ensures State() == Simulated(old(State()), dt, spacePressed, tex)
    {
      ghost var s := State();
      score := score + dt;

      if IsGrounded(scarfyData) {
        velocity := 0;
      } else {
        velocity := TruncToInt(velocity as real + Gravity as real * dt);
      }

      if spacePressed && IsGrounded(scarfyData) {
        velocity := velocity + JumpVel;
      }
      assert velocity == NewVelocity(s.scarfy, s.velocity, dt, spacePressed);

      MoveNebulae(dt);
      assert nebulae[..] == Moved(s.nebulae, dt);

      scarfyData := scarfyData.(pos := scarfyData.pos.(y := scarfyData.pos.y + velocity as real * dt));
      assert scarfyData == Lift(s.scarfy, velocity, dt);

      if IsGrounded(scarfyData) {
        scarfyData := UpdateAnimData(scarfyData, dt, ScarfyFrames);
      }
      assert scarfyData == AnimateScarfy(Lift(s.scarfy, velocity, dt), dt);

      AnimateNebulae(dt);
      assert nebulae[..] == Animated(Moved(s.nebulae, dt), dt);

      DetectCollisions();
      assert isGameOver == AnyCollision(Animated(Moved(s.nebulae, dt), dt), scarfyData);

      ScrollLayers(dt);
      ghost var r := Simulated(s, dt, spacePressed, tex);
      assert r.scarfy == scarfyData;
      assert r.nebulae == nebulae[..];
      assert r.velocity == velocity;
      assert r.bgX == bgX && r.mgX == mgX && r.fgX == fgX;
      assert r.score == score;
      assert r.isGameOver == isGameOver;
    }

    /**
     * One iteration of the game loop, drawing left out: simulate unless the
     * game is over, then restart if it is over and space was pressed.
     */
    method Step(dt: real, spacePressed: bool)
      requires Valid() && 0.0 <= dt
      modifies this, nebulae
      ensures Valid()
      ensures State() == Stepped(old(State()), dt, spacePressed, tex)
    {
      if !isGameOver {
        Simulate(dt, spacePressed);
      }
      if isGameOver && spacePressed {
        isGameOver := false;
        Init();
      }
      StepInvariant(old(State()), dt, spacePressed, tex);
    }
  }
}
