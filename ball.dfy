/**
  The ball (`Ball` in entities.rs). A ball starts attached, counts down its
  launch timer, launches upward in one of three directions, then moves with
  a spin term, bounces off the left, right and top walls, keeps a minimum
  horizontal speed, records a speed-dependent trail and is deactivated once
  it reaches the bottom of the window.

  `Step` states one tick of `Ball::update` on a value; the `Ball` class
  performs it field by field and is proved to agree with it.
 */
module Balls {
  import Geometry
  import opened Entities

  /** The right-most x a ball may occupy: `WINDOW_WIDTH - BALL_SIZE`. */
  const RightWall: real := (WindowWidth - BallSize) as real

  /** Speed tiers of the trail, compared squared: 60 ticks per second turn
      `60 * sqrt(vx^2 + vy^2) >= v` into `3600 * (vx^2 + vy^2) >= v^2`. */
  predicate UltraFast(vx: real, vy: real) { 3600.0 * (vx * vx + vy * vy) >= 1400.0 * 1400.0 }
  predicate Fast(vx: real, vy: real) { 3600.0 * (vx * vx + vy * vy) >= 800.0 * 800.0 }

  function Abs(r: real): real { if r < 0.0 then -r else r }

  /** All the fields of a ball, as one value. */
  datatype Motion = Motion(
    x: real, y: real,
    velX: real, velY: real,
    active: bool,
    spin: real,
    trail: seq<(real, real)>,
    attached: bool,
    launchTimer: nat)

  /** `Ball::rect`: the 12-by-12 box at the truncated position. */
  function Box(m: Motion): (r: Geometry.Rect)
    ensures r.w == BallSize && r.h == BallSize
    ensures Geometry.ContainsPoint(r, Geometry.Trunc(m.x), Geometry.Trunc(m.y))
  {
    Geometry.Rect(Geometry.Trunc(m.x), Geometry.Trunc(m.y), BallSize, BallSize)
  }

  /** `Ball::new`: at rest, attached, launching after 30 ticks. */
  function Fresh(x: real, y: real): (m: Motion)
    ensures m.active && m.attached && m.launchTimer == 30 && m.trail == []
    ensures m.x == x && m.y == y && m.velX == 0.0 && m.velY == 0.0
  {
    Motion(x, y, 0.0, 0.0, true, 0.0, [], true, 30)
  }

  /** The horizontal launch speed for the random draw `0..3`. */
  function LaunchVelX(direction: int): (vx: real)
    ensures vx == -4.0 || vx == 0.0 || vx == 4.0
    ensures direction == 0 <==> vx == -4.0
    ensures direction == 1 <==> vx == 0.0
  {
    match direction
    case 0 => -4.0
    case 1 => 0.0
    case _ => 4.0
  }

  /** `Ball::launch`: only an attached ball launches; it then moves up at
      speed 4 in one of three directions and is attached no more. */
  function Launched(m: Motion, direction: int): (r: Motion)
    ensures !m.attached ==> r == m
    ensures m.attached ==> !r.attached && r.velY == -4.0 && r.velX == LaunchVelX(direction)
    ensures r.x == m.x && r.y == m.y && r.active == m.active && r.trail == m.trail
    ensures r.spin == m.spin && r.launchTimer == m.launchTimer
  {
    if m.attached then m.(velX := LaunchVelX(direction), velY := -4.0, attached := false) else m
  }

  /** Push the current position onto the trail, dropping the oldest entry
      when the trail has grown beyond `cap`. */
  function Record(trail: seq<(real, real)>, pos: (real, real), cap: nat): (t: seq<(real, real)>)
    requires cap > 0
    ensures |trail| < cap ==> t == trail + [pos]
    ensures |trail| >= cap ==> t == trail[1..] + [pos]
  {
    var pushed := trail + [pos];
    if |pushed| > cap then pushed[1..] else pushed
  }

  /** The trail after a tick at velocity `(vx, vy)`: up to 20 positions when
      ultra fast, up to 8 more when fast (one entry leaves per tick), and
      none when slow. */
  function NextTrail(m: Motion): (t: seq<(real, real)>)
    ensures |m.trail| <= 20 ==> |t| <= 20
    ensures !Fast(m.velX, m.velY) ==> t == []
    ensures Fast(m.velX, m.velY) ==> |m.trail| <= |t| && 0 < |t| && t[|t| - 1] == (m.x, m.y)
    ensures Fast(m.velX, m.velY) ==> t[..|t| - 1] == m.trail || (0 < |m.trail| && t[..|t| - 1] == m.trail[1..])
    ensures Fast(m.velX, m.velY) && !UltraFast(m.velX, m.velY) && |m.trail| <= 8 ==> |t| <= 8
  {
    if UltraFast(m.velX, m.velY) then Record(m.trail, (m.x, m.y), 20)
    else if Fast(m.velX, m.velY) then Record(m.trail, (m.x, m.y), 8)
    else []
  }

  /** The move of a launched ball: the spin term, the wall bounces, the
      bottom edge and the minimum horizontal speed. */
  function Moved(m: Motion): (r: Motion)
    requires m.active
    ensures 0.0 <= r.x <= RightWall && r.y >= 0.0
    ensures Abs(r.velX) >= 2.0
    ensures r.active <==> r.y < WindowHeight as real
    ensures r.trail == m.trail && r.attached == m.attached && r.launchTimer == m.launchTimer
  {
    var vx := m.velX + m.spin * 0.05;
    var spin := m.spin * 0.98;
    var nx := m.x + vx;
    var ny := m.y + m.velY;
    var (x, bouncedX) :=
      if nx <= 0.0 then (0.0, Abs(vx))
      else if nx >= RightWall then (RightWall, -Abs(vx))
      else (nx, vx);
    var (y, vy) := if ny <= 0.0 then (0.0, Abs(m.velY)) else (ny, m.velY);
    var active := !(y >= WindowHeight as real);
    var finalX := if Abs(bouncedX) < 2.0 then (if bouncedX >= 0.0 then 2.0 else -2.0) else bouncedX;
    m.(x := x, y := y, velX := finalX, velY := vy, active := active, spin := spin)
  }

  /** One tick of a launched ball: the trail is recorded from the position
      and speed before the move, then the ball moves. */
  function Flight(m: Motion): (r: Motion)
    requires m.active && !m.attached
    ensures 0.0 <= r.x <= RightWall && r.y >= 0.0
    ensures Abs(r.velX) >= 2.0
    ensures r.active <==> r.y < WindowHeight as real
    ensures !r.attached && r.launchTimer == m.launchTimer
    ensures r.trail == NextTrail(m)
  {
    Moved(m.(trail := NextTrail(m)))
  }

  /** `Ball::update`: an inactive ball stays as it is; an attached ball only
      counts its timer down, and launches once it has reached zero; a
      launched ball flies. */
  function Step(m: Motion, direction: int): (r: Motion)
    ensures !m.active ==> r == m
    ensures m.active && m.attached && m.launchTimer > 0 ==> r == m.(launchTimer := m.launchTimer - 1)
    ensures m.active && m.attached && m.launchTimer == 0 ==> r == Launched(m, direction)
    ensures m.attached ==> r.x == m.x && r.y == m.y && r.active == m.active
    ensures !m.attached ==> !r.attached
    ensures r.active ==> m.active
    ensures |m.trail| <= 20 ==> |r.trail| <= 20
    ensures m.active && !m.attached ==> r == Flight(m)
  {
    if !m.active then m
    else if m.attached then
      if m.launchTimer > 0 then m.(launchTimer := m.launchTimer - 1) else Launched(m, direction)
    else Flight(m)
  }

  /** The ball after one tick per entry of `directions`, each entry being the
      random draw its tick would make if it launched. */
  function Run(m: Motion, directions: seq<int>): Motion
    decreases |directions|
  {
    if directions == [] then m else Run(Step(m, directions[0]), directions[1..])
  }

  /** An attached ball with launch timer `t` stays on its spot, attached, for
      exactly `t` ticks, and is launched by tick `t + 1`. */
  lemma {:induction false} AttachedCountdown(m: Motion, directions: seq<int>)
    requires m.active && m.attached
    requires |directions| == m.launchTimer + 1
    ensures var held := Run(m, directions[..m.launchTimer]);
            held.attached && held.launchTimer == 0 && held.x == m.x && held.y == m.y && held.active
    ensures var out := Run(m, directions);
            !out.attached && out.velY == -4.0 && out.x == m.x && out.y == m.y && out.active
    decreases m.launchTimer
  {
    if m.launchTimer == 0 {
      assert directions[..0] == [];
      assert directions[1..] == [];
    } else {
      var next := Step(m, directions[0]);
      assert directions[..m.launchTimer][0] == directions[0];
      assert directions[..m.launchTimer][1..] == directions[1..][..next.launchTimer];
      AttachedCountdown(next, directions[1..]);
    }
  }

  /** Once launched, a ball is never attached again, and once inactive it is
      never reactivated, however many ticks pass. */
  lemma {:induction false} LaunchAndLossAreFinal(m: Motion, directions: seq<int>)
    ensures !m.attached ==> !Run(m, directions).attached
    ensures !m.active ==> Run(m, directions) == m
    ensures Run(m, directions).active ==> m.active
    decreases |directions|
  {
    if directions != [] {
      LaunchAndLossAreFinal(Step(m, directions[0]), directions[1..]);
    }
  }

  /** A ball of the game. */
  class Ball {
    var x: real
    var y: real
    var velX: real
    var velY: real
    var active: bool
    var spin: real
    var trail: seq<(real, real)>
    var attached: bool
    var launchTimer: nat

    ghost function State(): Motion
      reads this
    {
      Motion(x, y, velX, velY, active, spin, trail, attached, launchTimer)
    }

    /** `Ball::new`. */
    constructor (x0: real, y0: real)
      ensures State() == Fresh(x0, y0)
    {
      x, y := x0, y0;
      velX, velY := 0.0, 0.0;
      active := true;
      spin := 0.0;
      trail := [];
      attached := true;
      launchTimer := 30;
    }

    /** `Ball::launch`; `direction` is the draw from `0..3`. */
    method Launch(direction: int)
      modifies this
      ensures State() == Launched(old(State()), direction)
    {
      if attached {
        velX := match direction
          case 0 => -4.0
          case 1 => 0.0
          case _ => 4.0;
        velY := -4.0;
        attached := false;
      }
    }

    /** `Ball::update`; `direction` is the draw a launch on this tick makes. */
    method Update(direction: int)
      modifies this
      ensures State() == Step(old(State()), direction)
    {
      if !active {
        return;
      }
      if attached {
        if launchTimer > 0 {
          launchTimer := launchTimer - 1;
        } else {
          Launch(direction);
        }
        return;
      }
      RecordTrail();
      Move();
    }

    /** The trail bookkeeping at the start of a launched ball's tick. */
    method RecordTrail()
      modifies this`trail
      ensures trail == NextTrail(old(State()))
    {
      if UltraFast(velX, velY) {
        trail := trail + [(x, y)];
        if |trail| > 20 {
          trail := trail[1..];
        }
      } else if Fast(velX, velY) {
        trail := trail + [(x, y)];
        if |trail| > 8 {
          trail := trail[1..];
        }
      } else {
        trail := [];
      }
    }

    /** The move, wall bounces and minimum horizontal speed of a launched
        ball's tick. */
    method Move()
      requires active
      modifies this`x, this`y, this`velX, this`velY, this`spin, this`active
      ensures State() == Moved(old(State()))
    {
      var vx, vy, sp := velX + spin * 0.05, velY, spin * 0.98;
      var nx, ny, live := x + vx, y + vy, active;
      if nx <= 0.0 {
        nx := 0.0;
        vx := Abs(vx);
      } else if nx >= RightWall {
        nx := RightWall;
        vx := -Abs(vx);
      }
      if ny <= 0.0 {
        ny := 0.0;
        vy := Abs(vy);
      }
      if ny >= WindowHeight as real {
        live := false;
      }
      if Abs(vx) < 2.0 {
        if vx >= 0.0 {
          vx := 2.0;
        } else {
          vx := -2.0;
        }
      }
      x, y, velX, velY, spin, active := nx, ny, vx, vy, sp, live;
    }

    /** `Ball::rect`. */
    function Rect(): (r: Geometry.Rect)
      reads this
      ensures r == Box(State())
    {
      Geometry.Rect(Geometry.Trunc(x), Geometry.Trunc(y), BallSize, BallSize)
    }
  }
}
