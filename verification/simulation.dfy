/**
 * The game's state as one value and one frame of the game loop as a function
 * of it: the specification the imperative game class is proved against.
 */
module Simulation {
  import opened Anim
  import opened Collision

  const WindowWidth: int := 512
  const WindowHeight: int := 380
  /** Downward acceleration, pixels per second squared. */
  const Gravity: int := 1250
  const NebulaeSize: int := 3
  /** Horizontal speed of every obstacle, pixels per second. */
  const NebVel: int := -200
  /** Velocity added by a jump, pixels per second. */
  const JumpVel: int := -700
  /** Frames in the player's and the obstacles' sprite sheets. */
  const ScarfyFrames: int := 5
  const NebulaFrames: int := 7
  /** Scroll speeds of the background, midground and foreground layers. */
  const BackgroundSpeed: int := 20
  const MidgroundSpeed: int := 40
  const ForegroundSpeed: int := 80

  /** A texture dimension: textures are loaded from files, so always positive. */
  type Pixels = n: int | 0 < n witness 1

  /** Sizes of the loaded textures, in pixels. */
  datatype Textures = Textures(
    nebulaWidth: Pixels, nebulaHeight: Pixels,
    scarfyWidth: Pixels, scarfyHeight: Pixels,
    backgroundWidth: Pixels, midgroundWidth: Pixels, foregroundWidth: Pixels)

  /** Everything the game loop changes. */
  datatype GameState = GameState(
    scarfy: AnimData,
    nebulae: seq<AnimData>,
    velocity: int,
    bgX: real, mgX: real, fgX: real,
    score: real,
    isGameOver: bool)

  /** The inputs of one frame: seconds since the last frame, and whether space went down. */
  datatype Input = Input(dt: real, spacePressed: bool)

  /** The player stands on, or is below, the floor line. */
  predicate IsGrounded(scarfy: AnimData)
  {
    scarfy.pos.y >= WindowHeight as real - scarfy.rec.height
  }

  /** C's conversion of a floating value to `int`: the fraction is dropped, toward zero. */
  function TruncToInt(x: real): (r: int)
    ensures 0.0 <= x ==> r as real <= x < r as real + 1.0
    ensures x < 0.0 ==> r as real - 1.0 < x <= r as real
  {
    if x >= 0.0 then x.Floor else -((-x).Floor)
  }

  /** `velocity += gravity * dt` on an `int` velocity. */
  function Fall(velocity: int, dt: real): (r: int)
    ensures 0.0 <= dt ==> velocity <= r
    ensures (velocity as real + Gravity as real * dt) - 1.0 < r as real < (velocity as real + Gravity as real * dt) + 1.0
  {
    TruncToInt(velocity as real + Gravity as real * dt)
  }

  /** One obstacle's move: left by 200*dt, back to the right edge once fully off the left edge. */
  function MoveNebula(nebula: AnimData, dt: real): (r: AnimData)
    ensures r == nebula.(pos := nebula.pos.(x := r.pos.x))
    ensures nebula.pos.x + NebVel as real * dt <= -nebula.rec.width ==> r.pos.x == WindowWidth as real
    ensures nebula.pos.x + NebVel as real * dt > -nebula.rec.width ==> r.pos.x == nebula.pos.x + NebVel as real * dt
    ensures 0.0 <= nebula.rec.width ==> r.pos.x > -nebula.rec.width
  {
    var x := nebula.pos.x + NebVel as real * dt;
    nebula.(pos := nebula.pos.(x := if x <= -nebula.rec.width then WindowWidth as real else x))
  }

  /** The obstacle loop's moves, each obstacle from its own old value. */
  function Moved(nebulae: seq<AnimData>, dt: real): (r: seq<AnimData>)
    ensures |r| == |nebulae|
  {
    seq(|nebulae|, i requires 0 <= i < |nebulae| => MoveNebula(nebulae[i], dt))
  }

  /** The obstacle loop's animation calls (seven cells), each obstacle from its own old value. */
  function Animated(nebulae: seq<AnimData>, dt: real): (r: seq<AnimData>)
    ensures |r| == |nebulae|
  {
    seq(|nebulae|, i requires 0 <= i < |nebulae| => UpdateAnimData(nebulae[i], dt, NebulaFrames))
  }

  /** One scroll layer: moves left by speed*dt, back to 0 once it has moved two texture widths. */
  function Scrolled(offset: real, speed: int, dt: real, textureWidth: Pixels): (r: real)
    ensures offset - speed as real * dt <= -(textureWidth * 2) as real ==> r == 0.0
    ensures offset - speed as real * dt > -(textureWidth * 2) as real ==> r == offset - speed as real * dt
    ensures r > -(textureWidth * 2) as real
  {
    var x := offset - speed as real * dt;
    if x <= -(textureWidth * 2) as real then 0.0 else x
  }

  /** The player's velocity after gravity and a possible jump. */
  function NewVelocity(scarfy: AnimData, velocity: int, dt: real, spacePressed: bool): (r: int)
    ensures IsGrounded(scarfy) && spacePressed ==> r == JumpVel
    ensures IsGrounded(scarfy) && !spacePressed ==> r == 0
    ensures !IsGrounded(scarfy) ==> r == Fall(velocity, dt)
  {
    var fallen := if IsGrounded(scarfy) then 0 else Fall(velocity, dt);
    if spacePressed && IsGrounded(scarfy) then fallen + JumpVel else fallen
  }

  /** `scarfyData.pos.y += velocity * dt` */
  function Lift(scarfy: AnimData, velocity: int, dt: real): (r: AnimData)
    ensures r == scarfy.(pos := Vector2(scarfy.pos.x, r.pos.y))
    ensures velocity == 0 ==> r == scarfy
    ensures velocity < 0 && 0.0 < dt ==> r.pos.y < scarfy.pos.y
    ensures 0 < velocity && 0.0 < dt ==> r.pos.y > scarfy.pos.y
  {
    scarfy.(pos := scarfy.pos.(y := scarfy.pos.y + velocity as real * dt))
  }

  /** The player's animation runs only while it is on the ground (five-cell cycle). */
  function AnimateScarfy(scarfy: AnimData, dt: real): (r: AnimData)
    ensures IsGrounded(scarfy) ==> r == UpdateAnimData(scarfy, dt, ScarfyFrames)
    ensures !IsGrounded(scarfy) ==> r == scarfy
    ensures r.pos == scarfy.pos && r.rec.height == scarfy.rec.height && r.rec.width == scarfy.rec.width
  {
    if IsGrounded(scarfy) then UpdateAnimData(scarfy, dt, ScarfyFrames) else scarfy
  }

  /** The simulation part of one frame of the loop, run only while the game is not over. */
  function Simulated(s: GameState, dt: real, spacePressed: bool, tex: Textures): (r: GameState)
    ensures r.score == s.score + dt
    ensures |r.nebulae| == |s.nebulae|
    ensures s.isGameOver ==> r.isGameOver
    ensures r.isGameOver ==> s.isGameOver || AnyCollision(r.nebulae, r.scarfy)
  {
    var velocity := NewVelocity(s.scarfy, s.velocity, dt, spacePressed);
    var scarfy := AnimateScarfy(Lift(s.scarfy, velocity, dt), dt);
    var nebulae := Animated(Moved(s.nebulae, dt), dt);
    GameState(scarfy, nebulae, velocity,
              Scrolled(s.bgX, BackgroundSpeed, dt, tex.backgroundWidth),
              Scrolled(s.mgX, MidgroundSpeed, dt, tex.midgroundWidth),
              Scrolled(s.fgX, ForegroundSpeed, dt, tex.foregroundWidth),
              s.score + dt,
              s.isGameOver || AnyCollision(nebulae, scarfy))
  }

  function NebulaWidth(tex: Textures): real { tex.nebulaWidth as real / 8.0 }
  function NebulaHeight(tex: Textures): real { tex.nebulaHeight as real / 8.0 }
  /** One cell of the player's six-cell sheet; the division is on integers. */
  function ScarfyCellWidth(tex: Textures): real { (tex.scarfyWidth / 6) as real }
  /** The player's frame duration: twelve frames a second. */
  const ScarfyUpdateTime: real := 1.0 / 12.0

  /** Obstacle `i` as `init` places it: staggered 300 pixels apart from the right edge, on the floor. */
  function InitialNebula(tex: Textures, i: int): (r: AnimData)
    ensures 0 <= i ==> NebulaInvariant(r, tex) && r.frame == 0
  {
    AnimData(Rectangle(0.0, 0.0, NebulaWidth(tex), NebulaHeight(tex)),
             Vector2(WindowWidth as real + 300.0 * i as real, WindowHeight as real - NebulaHeight(tex)),
             0, 0.0, 0.0)
  }

  function InitialNebulae(tex: Textures): (r: seq<AnimData>)
    ensures |r| == NebulaeSize
    ensures forall i :: 0 <= i < |r| ==> r[i].pos.x == WindowWidth as real + 300.0 * i as real
  {
    seq(NebulaeSize, i => InitialNebula(tex, i))
  }

  /** The player as `init` places it: centred horizontally, standing on the floor. */
  function InitialScarfy(tex: Textures): (r: AnimData)
    ensures ScarfyInvariant(r, tex) && r.frame == 0
    ensures IsGrounded(r) && r.pos.y + r.rec.height == WindowHeight as real
    ensures r.rec.x == 0.0 && r.rec.y == 0.0 && r.runningTime == 0.0 && r.updateTime == ScarfyUpdateTime
    ensures r.pos.x + r.rec.width / 2.0 == (WindowWidth / 2) as real
  {
    AnimData(Rectangle(0.0, 0.0, ScarfyCellWidth(tex), tex.scarfyHeight as real),
             Vector2((WindowWidth / 2) as real - ScarfyCellWidth(tex) / 2.0,
                     WindowHeight as real - tex.scarfyHeight as real),
             0, ScarfyUpdateTime, 0.0)
  }

  /** What `init` does: velocity, scroll offsets and the game-over flag are left alone. */
  function Initialized(s: GameState, tex: Textures): (r: GameState)
    ensures r.score == 0.0 && IsGrounded(r.scarfy) && |r.nebulae| == NebulaeSize
    ensures r.velocity == s.velocity && r.isGameOver == s.isGameOver
    ensures r.bgX == s.bgX && r.mgX == s.mgX && r.fgX == s.fgX
  {
    s.(scarfy := InitialScarfy(tex), nebulae := InitialNebulae(tex), score := 0.0)
  }

  /** The zero value every global starts with. */
  const ZeroAnim: AnimData := AnimData(Rectangle(0.0, 0.0, 0.0, 0.0), Vector2(0.0, 0.0), 0, 0.0, 0.0)

  /** The state when the loop is first entered. */
  function Start(tex: Textures): (r: GameState)
    ensures !r.isGameOver && r.score == 0.0 && r.velocity == 0
    ensures r.bgX == 0.0 && r.mgX == 0.0 && r.fgX == 0.0
  {
    Initialized(GameState(ZeroAnim, [ZeroAnim, ZeroAnim, ZeroAnim], 0, 0.0, 0.0, 0.0, 0.0, false), tex)
  }

  /**
   * One iteration of the loop without drawing: simulate while not over, then,
   * in the same iteration, restart if the game is over and space was pressed.
   */
  function Stepped(s: GameState, dt: real, spacePressed: bool, tex: Textures): (r: GameState)
    ensures spacePressed ==> !r.isGameOver
    ensures s.isGameOver && !spacePressed ==> r == s
    ensures r.isGameOver ==> s.isGameOver || AnyCollision(r.nebulae, r.scarfy)
  {
    var t := if s.isGameOver then s else Simulated(s, dt, spacePressed, tex);
    if t.isGameOver && spacePressed then Initialized(t.(isGameOver := false), tex) else t
  }

  /** A run of the loop over a sequence of frame inputs. */
  function Run(s: GameState, inputs: seq<Input>, tex: Textures): GameState
    decreases |inputs|
  {
    if inputs == [] then s else Run(Stepped(s, inputs[0].dt, inputs[0].spacePressed, tex), inputs[1..], tex)
  }

  /** The sum of the frame times of a run. */
  function TotalTime(inputs: seq<Input>): real
    decreases |inputs|
  {
    if inputs == [] then 0.0 else inputs[0].dt + TotalTime(inputs[1..])
  }

  /** What holds of every obstacle between frames. */
  predicate NebulaInvariant(n: AnimData, tex: Textures)
  {
    n.rec.y == 0.0 && n.rec.width == NebulaWidth(tex) && n.rec.height == NebulaHeight(tex)
    && n.pos.y == WindowHeight as real - NebulaHeight(tex)
    && n.pos.x > -n.rec.width
    && 0 <= n.frame < NebulaFrames
    && n.updateTime == 0.0 && n.runningTime == 0.0
  }

  /** What holds of the player between frames. The floor is not a clamp, so nothing about y. */
  predicate ScarfyInvariant(p: AnimData, tex: Textures)
  {
    p.rec.y == 0.0 && p.rec.width == ScarfyCellWidth(tex) && p.rec.height == tex.scarfyHeight as real
    && p.pos.x == (WindowWidth / 2) as real - ScarfyCellWidth(tex) / 2.0
    && 0 <= p.frame < ScarfyFrames
    && p.updateTime == ScarfyUpdateTime && 0.0 <= p.runningTime < p.updateTime
  }

  /** What holds of the whole game between frames. */
  predicate Invariant(s: GameState, tex: Textures)
  {
    |s.nebulae| == NebulaeSize
    && (forall i :: 0 <= i < |s.nebulae| ==> NebulaInvariant(s.nebulae[i], tex))
    && ScarfyInvariant(s.scarfy, tex)
    && s.bgX > -(tex.backgroundWidth * 2) as real
    && s.mgX > -(tex.midgroundWidth * 2) as real
    && s.fgX > -(tex.foregroundWidth * 2) as real
    && 0.0 <= s.score
  }

  lemma InitializedInvariant(s: GameState, tex: Textures)
    requires s.bgX > -(tex.backgroundWidth * 2) as real
    requires s.mgX > -(tex.midgroundWidth * 2) as real
    requires s.fgX > -(tex.foregroundWidth * 2) as real
    ensures Invariant(Initialized(s, tex), tex)
  {
  }

  lemma StartInvariant(tex: Textures)
    ensures Invariant(Start(tex), tex)
  {
  }

  lemma SimulatedInvariant(s: GameState, dt: real, spacePressed: bool, tex: Textures)
    requires Invariant(s, tex) && 0.0 <= dt
    ensures Invariant(Simulated(s, dt, spacePressed, tex), tex)
  {
  }

  /** Every frame keeps the invariant, whether it simulates, freezes or restarts. */
  lemma StepInvariant(s: GameState, dt: real, spacePressed: bool, tex: Textures)
    requires Invariant(s, tex) && 0.0 <= dt
    ensures Invariant(Stepped(s, dt, spacePressed, tex), tex)
  {
  }
}
