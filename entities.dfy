/**
  The game's constants and its simple entities: the paddle, a block, a
  falling bonus, a rocket and a glass-shard particle, with the collision
  test they share. Floats are modelled as reals (rounding is not modelled);
  `u32`/`i32` fields as `nat`/`int`.
 */
module Entities {
  import Geometry

  const WindowWidth: int := 1280
  const WindowHeight: int := 720
  const PaddleWidth: int := 140
  const PaddleHeight: nat := 22
  const PaddleSpeed: int := 18
  const BallSize: nat := 12
  const BlockWidth: nat := 60
  const BlockHeight: nat := 20
  const BlockRows: nat := 10
  const BlockCols: nat := 20
  const BlockOffsetY: int := 80
  /** `(WINDOW_WIDTH - BLOCK_COLS * BLOCK_WIDTH) / 2`: the grid's left edge. */
  const BlockOffsetX: int := (WindowWidth - BlockCols * BlockWidth) / 2

  /** Cell `(row, col)` of the grid has row-major index `row * 20 + col`
      (20 is `BlockCols`, written out so that the index stays linear). */
  lemma CellIndex(row: nat, col: nat)
    requires col < BlockCols
    ensures (row * 20 + col) / 20 == row
    ensures (row * 20 + col) % 20 == col
    ensures row < BlockRows ==> row * 20 + col < BlockRows * BlockCols
  {
    var k := row * 20 + col;
    var q, m := k / 20, k % 20;
    assert k == 20 * q + m && 0 <= m < 20;
    assert 20 * (row - q) == m - col;
  }

  /** A smaller row-major index is an earlier row, or the same row and an
      earlier column. */
  lemma RowMajor(r1: int, c1: int, r2: int, c2: int)
    requires 0 <= c1 < BlockCols && 0 <= c2 < BlockCols
    requires r1 * 20 + c1 < r2 * 20 + c2
    ensures r1 < r2 || (r1 == r2 && c1 < c2)
  {
    assert r1 * 20 + c1 < r2 * 20 + c2;
    assert 20 * (r2 - r1) > c1 - c2;
  }

  type Byte = n: int | 0 <= n < 256

  datatype Color = Color(r: Byte, g: Byte, b: Byte)

  /** The rainbow palette of block rows. */
  const BlockColors: seq<Color> := [
    Color(255, 0, 0),
    Color(255, 165, 0),
    Color(255, 255, 0),
    Color(0, 255, 0),
    Color(0, 0, 255),
    Color(138, 43, 226)
  ]

  datatype BonusType = ExtraBall | LongPaddle | GhostBall | Rocket

  /** `check_collision`: SDL rectangle intersection, the same either way round. */
  function CheckCollision(a: Geometry.Rect, b: Geometry.Rect): (hit: bool)
    ensures hit == Geometry.HasIntersection(b, a)
  {
    Geometry.HasIntersection(a, b)
  }

  /** Two rectangles collide exactly when they share an integer point. */
  lemma CollisionIsCommonPoint(a: Geometry.Rect, b: Geometry.Rect)
    ensures CheckCollision(a, b) <==> exists px, py :: Geometry.ContainsPoint(a, px, py) && Geometry.ContainsPoint(b, px, py)
  {
    Geometry.IntersectionIsCommonPoint(a, b);
  }

  // ---------------------------------------------------------------- Block

  /** A block of the game grid. The game only ever clears `active`. */
  datatype Block = Block(x: int, y: int, color: Color, active: bool) {
    function Rect(): Geometry.Rect
    {
      Geometry.Rect(x, y, BlockWidth, BlockHeight)
    }
  }

  /** `Block::new`: every new block is active. */
  function NewBlock(x: int, y: int, color: Color): (b: Block)
    ensures b.active && b.x == x && b.y == y && b.color == color
  {
    Block(x, y, color, true)
  }

  // ---------------------------------------------------------------- Paddle

  /** All the fields of a paddle, as one value. */
  datatype PaddleState = PaddleState(
    x: int, y: int,
    width: nat, normalWidth: nat, longWidth: nat,
    bonusTimer: nat, ghostTimer: nat, rocketAmmo: nat,
    lastX: int, velX: int,
    spinIntensity: real)

  /** `Paddle::new` as a value: centred at the bottom, normal width, no
      bonus running, at rest. */
  function NewPaddle(): PaddleState
  {
    PaddleState((WindowWidth - PaddleWidth) / 2, WindowHeight - 50,
                PaddleWidth, PaddleWidth, PaddleWidth + 40,
                0, 0, 0,
                (WindowWidth - PaddleWidth) / 2, 0,
                0.0)
  }

  /** One tick of `Paddle::update` as a value. */
  function PaddleTick(p: PaddleState): PaddleState
  {
    var glow := p.spinIntensity * 0.9;
    p.(velX := p.x - p.lastX, lastX := p.x,
       spinIntensity := if glow < 0.01 then 0.0 else glow,
       bonusTimer := if p.bonusTimer > 0 then p.bonusTimer - 1 else 0,
       width := if p.bonusTimer == 1 then p.normalWidth else p.width,
       ghostTimer := if p.ghostTimer > 0 then p.ghostTimer - 1 else 0)
  }

  /** `activate_long_bonus` as a value. */
  function Lengthened(p: PaddleState): PaddleState
  {
    p.(width := p.longWidth, bonusTimer := 300)
  }

  /** The player's paddle. Its horizontal position is kept inside the window
      for its normal width; the long bonus widens it for 300 ticks and the
      ghost bonus runs its own 600-tick timer. */
  class Paddle {
    var x: int
    var y: int
    var width: int
    var normalWidth: int
    var longWidth: int
    var bonusTimer: nat
    var ghostTimer: nat
    var rocketAmmo: nat
    var lastX: int
    var velX: int
    var spinIntensity: real

    ghost predicate Valid()
      reads this
    {
      && normalWidth == PaddleWidth
      && longWidth == normalWidth + 40
      && y == WindowHeight - 50
      && (width == normalWidth || width == longWidth)
      && (width == longWidth <==> bonusTimer > 0)
      && bonusTimer <= 300
      && ghostTimer <= 600
      && 0 <= x <= WindowWidth - normalWidth
      && 0 <= lastX <= WindowWidth - normalWidth
      && spinIntensity >= 0.0
    }

    ghost function State(): PaddleState
      reads this
      requires Valid()
    {
      PaddleState(x, y, width, normalWidth, longWidth, bonusTimer, ghostTimer, rocketAmmo, lastX, velX, spinIntensity)
    }

    /** `Paddle::new`: centred, normal width, no bonus running. */
    constructor ()
      ensures Valid()
      ensures x == lastX == (WindowWidth - PaddleWidth) / 2 && width == PaddleWidth
      ensures bonusTimer == 0 && ghostTimer == 0 && rocketAmmo == 0 && velX == 0
      ensures spinIntensity == 0.0
      ensures State() == NewPaddle()
    {
      x := (WindowWidth - PaddleWidth) / 2;
      y := WindowHeight - 50;
      width := PaddleWidth;
      normalWidth := PaddleWidth;
      longWidth := PaddleWidth + 40;
      bonusTimer := 0;
      ghostTimer := 0;
      rocketAmmo := 0;
      lastX := (WindowWidth - PaddleWidth) / 2;
      velX := 0;
      spinIntensity := 0.0;
    }

    /** `move_left`: one step left, never past the left wall. */
    method MoveLeft()
      requires Valid()
      modifies this`x
      ensures Valid()
      ensures x == Geometry.Max(old(x) - PaddleSpeed, 0)
      ensures 0 <= x <= old(x)
    {
      x := Geometry.Max(x - PaddleSpeed, 0);
    }

    /** `move_right`: one step right, never beyond `WindowWidth - width`.
        With the long bonus on near the right wall this pulls the paddle
        back left, since the clamp uses the current width. */
    method MoveRight()
      requires Valid()
      modifies this`x
      ensures Valid()
      ensures x == Geometry.Min(old(x) + PaddleSpeed, WindowWidth - width)
      ensures x <= WindowWidth - width
    {
      x := Geometry.Min(x + PaddleSpeed, WindowWidth - width);
    }

    /** `set_x`: clamp the requested position to `[0, WindowWidth - width]`. */
    method SetX(target: int)
      requires Valid()
      modifies this`x
      ensures Valid()
      ensures 0 <= x <= WindowWidth - width
      ensures 0 <= target <= WindowWidth - width ==> x == target
      ensures target < 0 ==> x == 0
      ensures target > WindowWidth - width ==> x == WindowWidth - width
    {
      x := if target < 0 then 0 else if target > WindowWidth - width then WindowWidth - width else target;
    }

    /** `activate_long_bonus`. */
    method ActivateLongBonus()
      requires Valid()
      modifies this`width, this`bonusTimer
      ensures Valid()
      ensures width == normalWidth + 40 && bonusTimer == 300
      ensures State() == Lengthened(old(State()))
    {
      width := longWidth;
      bonusTimer := 300;
    }

    /** `activate_ghost_bonus`. */
    method ActivateGhostBonus()
      requires Valid()
      modifies this`ghostTimer
      ensures Valid()
      ensures ghostTimer == 600
    {
      ghostTimer := 600;
    }

    /** `add_rockets`: one more rocket. */
    method AddRockets()
      requires Valid()
      modifies this`rocketAmmo
      ensures Valid()
      ensures rocketAmmo == old(rocketAmmo) + 1
    {
      rocketAmmo := rocketAmmo + 1;
    }

    /** `Paddle::update`, once per tick: derive the paddle's velocity, decay
        the spin glow, and count both bonus timers down to zero; the width
        returns to normal on the tick the long-bonus timer reaches zero. */
    method Update()
      requires Valid()
      modifies this
      ensures Valid()
      ensures velX == old(x) - old(lastX) && lastX == x == old(x)
      ensures bonusTimer == if old(bonusTimer) > 0 then old(bonusTimer) - 1 else 0
      ensures ghostTimer == if old(ghostTimer) > 0 then old(ghostTimer) - 1 else 0
      ensures width == if old(bonusTimer) == 1 then normalWidth else old(width)
      ensures spinIntensity == if old(spinIntensity) * 0.9 < 0.01 then 0.0 else old(spinIntensity) * 0.9
      ensures y == old(y) && normalWidth == old(normalWidth) && longWidth == old(longWidth)
      ensures rocketAmmo == old(rocketAmmo)
      ensures State() == PaddleTick(old(State()))
    {
      velX := x - lastX;
      lastX := x;
      spinIntensity := spinIntensity * 0.9;
      if spinIntensity < 0.01 {
        spinIntensity := 0.0;
      }
      if bonusTimer > 0 {
        bonusTimer := bonusTimer - 1;
        if bonusTimer == 0 {
          width := normalWidth;
        }
      }
      if ghostTimer > 0 {
        ghostTimer := ghostTimer - 1;
      }
    }

    function Rect(): (r: Geometry.Rect)
      reads this
      requires Valid()
      ensures r.x == x && 0 <= r.x && r.y == WindowHeight - 50 && r.h == PaddleHeight
      ensures r.w == PaddleWidth || r.w == PaddleWidth + 40
      ensures r.w == PaddleWidth + 40 <==> bonusTimer > 0
    {
      Geometry.Rect(x, y, width, PaddleHeight)
    }
  }

  // ---------------------------------------------------------------- Bonus

  /** All the fields of a bonus, as one value. */
  datatype BonusState = BonusState(x: real, y: real, bonusType: BonusType, active: bool)

  /** One tick of `Bonus::update` as a value. */
  function Fallen(b: BonusState): BonusState
  {
    var y := b.y + 2.0;
    b.(y := y, active := b.active && y <= WindowHeight as real)
  }

  /** `Bonus::rect`: the 40-by-40 box at the truncated position. */
  function BonusBox(b: BonusState): Geometry.Rect
  {
    Geometry.Rect(Geometry.Trunc(b.x), Geometry.Trunc(b.y), 40, 40)
  }

  /** A power-up falling from a destroyed block. */
  class Bonus {
    var x: real
    var y: real
    var bonusType: BonusType
    var active: bool

    ghost function State(): BonusState
      reads this
    {
      BonusState(x, y, bonusType, active)
    }

    /** `Bonus::new`. */
    constructor (x0: real, y0: real, kind: BonusType)
      ensures x == x0 && y == y0 && bonusType == kind && active
      ensures State() == BonusState(x0, y0, kind, true)
    {
      x, y, bonusType, active := x0, y0, kind, true;
    }

    /** `Bonus::update`: fall 2 pixels; once below the window it is inactive
        for good. */
    method Update()
      modifies this
      ensures x == old(x) && y == old(y) + 2.0 && bonusType == old(bonusType)
      ensures active == (old(active) && y <= WindowHeight as real)
      ensures State() == Fallen(old(State()))
    {
      y := y + 2.0;
      if y > WindowHeight as real {
        active := false;
      }
    }

    function Rect(): (r: Geometry.Rect)
      reads this
      ensures r == BonusBox(State())
      ensures r.w == 40 && r.h == 40
      ensures -1.0 < r.x as real - x < 1.0 && -1.0 < r.y as real - y < 1.0
    {
      Geometry.Rect(Geometry.Trunc(x), Geometry.Trunc(y), 40, 40)
    }
  }

  // ---------------------------------------------------------------- Rocket

  /** A rocket fired upward from the paddle. */
  class Rocket {
    var x: real
    var y: real
    var active: bool

    /** `Rocket::new`. */
    constructor (x0: real, y0: real)
      ensures x == x0 && y == y0 && active
    {
      x, y, active := x0, y0, true;
    }

    /** `Rocket::update`: climb 8 pixels; above the window it is inactive
        for good. */
    method Update()
      modifies this
      ensures x == old(x) && y == old(y) - 8.0
      ensures active == (old(active) && y >= 0.0)
    {
      y := y - 8.0;
      if y < 0.0 {
        active := false;
      }
    }

    function Rect(): (r: Geometry.Rect)
      reads this
      ensures !r.IsEmpty() && r.w == 10 && r.h == 20
      ensures -1.0 < r.x as real - x < 1.0 && -1.0 < r.y as real - y < 1.0
    {
      Geometry.Rect(Geometry.Trunc(x), Geometry.Trunc(y), 10, 20)
    }
  }

  // ---------------------------------------------------------------- Particle

  /** All the fields of a particle, as one value. */
  datatype ParticleState = ParticleState(
    x: real, y: real, velX: real, velY: real,
    rotation: real, rotationSpeed: real,
    lifetime: nat, maxLifetime: nat,
    size: int, color: Color)
  {
    predicate Alive() { lifetime < maxLifetime }
  }

  /** One tick of `Particle::update` as a value: move, fall under gravity
      0.3, spin, age one tick. */
  function Drifted(p: ParticleState): ParticleState
  {
    p.(x := p.x + p.velX, y := p.y + p.velY, velY := p.velY + 0.3,
       rotation := p.rotation + p.rotationSpeed, lifetime := p.lifetime + 1)
  }

  /** `k` ticks of a particle. */
  function DriftedTimes(p: ParticleState, k: nat): ParticleState
    decreases k
  {
    if k == 0 then p else DriftedTimes(Drifted(p), k - 1)
  }

  /** A particle ages one tick per update and never changes its lifetime
      limit, so it is alive for exactly `maxLifetime - lifetime` more
      ticks. */
  lemma {:induction false} Lifespan(p: ParticleState, k: nat)
    ensures DriftedTimes(p, k).lifetime == p.lifetime + k
    ensures DriftedTimes(p, k).maxLifetime == p.maxLifetime
    ensures DriftedTimes(p, k).Alive() <==> p.lifetime + k < p.maxLifetime
    decreases k
  {
    if k > 0 {
      Lifespan(Drifted(p), k - 1);
    }
  }

  /** A cosmetic glass shard with gravity and a fixed lifetime in ticks. */
  class Particle {
    var x: real
    var y: real
    var velX: real
    var velY: real
    var rotation: real
    var rotationSpeed: real
    var lifetime: nat
    var maxLifetime: nat
    var size: int
    var color: Color

    ghost function State(): ParticleState
      reads this
    {
      ParticleState(x, y, velX, velY, rotation, rotationSpeed, lifetime, maxLifetime, size, color)
    }

    /** `Particle::new`; the rotation, spin, lifetime and size it draws at
        random are parameters here. */
    constructor (x0: real, y0: real, vx: real, vy: real, c: Color,
                 rot: real, rotSpeed: real, maxLife: nat, sz: int)
      ensures x == x0 && y == y0 && velX == vx && velY == vy && color == c
      ensures rotation == rot && rotationSpeed == rotSpeed && size == sz
      ensures lifetime == 0 && maxLifetime == maxLife
      ensures State() == ParticleState(x0, y0, vx, vy, rot, rotSpeed, 0, maxLife, sz, c)
    {
      x, y, velX, velY, color := x0, y0, vx, vy, c;
      rotation, rotationSpeed, size := rot, rotSpeed, sz;
      lifetime, maxLifetime := 0, maxLife;
    }

    /** `Particle::update`: move, fall under gravity, spin, age one tick. */
    method Update()
      modifies this
      ensures x == old(x) + old(velX) && y == old(y) + old(velY)
      ensures velX == old(velX) && velY == old(velY) + 0.3
      ensures rotation == old(rotation) + old(rotationSpeed) && rotationSpeed == old(rotationSpeed)
      ensures lifetime == old(lifetime) + 1 && maxLifetime == old(maxLifetime)
      ensures size == old(size) && color == old(color)
      ensures !old(IsAlive()) ==> !IsAlive()
      ensures State() == Drifted(old(State()))
    {
      x := x + velX;
      y := y + velY;
      velY := velY + 0.3;
      rotation := rotation + rotationSpeed;
      lifetime := lifetime + 1;
    }

    /** `is_alive`. */
    predicate IsAlive()
      reads this
      ensures IsAlive() == State().Alive()
    {
      lifetime < maxLifetime
    }
  }
}
