/**
  The penguin that flies in to steal a heart (`Penguin` in entities.rs): a
  four-state animation WalkingIn -> Grabbing -> RunningAway -> Done.

  While walking in, the source moves 5.5 pixels along the unit vector to the
  target, which needs a square root; here that step is a parameter, pinned
  down by `TowardTarget` without one. The reach test `dist <= 5` is
  `dx^2 + dy^2 <= 25`.
 */
module Penguins {
  import opened Entities

  datatype PenguinState = WalkingIn | Grabbing | RunningAway | Done

  /** The order in which the animation passes through its states. */
  function Rank(s: PenguinState): nat
  {
    match s
    case WalkingIn => 0
    case Grabbing => 1
    case RunningAway => 2
    case Done => 3
  }

  datatype Pose = Pose(x: real, y: real, targetX: real, targetY: real,
                       state: PenguinState, frameCount: nat)

  /** Still further than 5 pixels from the heart. */
  predicate Far(p: Pose)
  {
    var dx, dy := p.targetX - p.x, p.targetY - p.y;
    dx * dx + dy * dy > 25.0
  }

  /** `(sx, sy)` is `5.5 * (dx, dy) / |(dx, dy)|`: parallel to the offset to
      the target, pointing at it, and 5.5 long. */
  predicate TowardTarget(p: Pose, sx: real, sy: real)
  {
    var dx, dy := p.targetX - p.x, p.targetY - p.y;
    sx * dy == sy * dx && sx * dx + sy * dy > 0.0 && sx * sx + sy * sy == 5.5 * 5.5
  }

  /** The step the caller must supply: only a walking penguin far from the
      heart moves along it. */
  predicate StepIsValid(p: Pose, sx: real, sy: real)
  {
    p.state == WalkingIn && Far(p) ==> TowardTarget(p, sx, sy)
  }

  /** `Penguin::new`: bottom right, walking in, frame 0. */
  function Spawned(targetX: real, targetY: real): (p: Pose)
    ensures p.state == WalkingIn && p.frameCount == 0
    ensures p.targetX == targetX && p.targetY == targetY
  {
    Pose(WindowWidth as real - 50.0, WindowHeight as real - 100.0, targetX, targetY, WalkingIn, 0)
  }

  /** `Penguin::update` on a value. */
  function Tick(p: Pose, sx: real, sy: real): (r: Pose)
    ensures Rank(p.state) <= Rank(r.state) <= Rank(p.state) + 1
    ensures p.state == Done ==> r.state == Done
    ensures p.state != r.state && p.state != RunningAway ==> r.frameCount == 0
    ensures p.state == r.state ==> r.frameCount == p.frameCount + 1
    ensures p.state == Grabbing ==> (r.state == RunningAway <==> p.frameCount + 1 >= 30)
    ensures p.state == WalkingIn ==> (r.state == Grabbing <==> !Far(p))
    ensures p.state == WalkingIn && !Far(p) ==> r.x == p.targetX && r.y == p.targetY
    ensures p.state == WalkingIn && Far(p) ==> r.x == p.x + sx && r.y == p.y + sy
    ensures p.state == RunningAway ==> r.x == p.x + 7.0 && r.y == p.y + 5.0 && r.frameCount == p.frameCount + 1
    ensures p.state == RunningAway ==>
              (r.state == Done <==> (p.x + 7.0 > WindowWidth as real + 100.0 || p.y + 5.0 > WindowHeight as real + 100.0))
    ensures p.state == Grabbing || p.state == Done ==> r.x == p.x && r.y == p.y
    ensures r.targetX == p.targetX && r.targetY == p.targetY
  {
    var fc := p.frameCount + 1;
    match p.state
    case WalkingIn =>
      if Far(p) then p.(x := p.x + sx, y := p.y + sy, frameCount := fc)
      else p.(x := p.targetX, y := p.targetY, state := Grabbing, frameCount := 0)
    case Grabbing =>
      if fc >= 30 then p.(state := RunningAway, frameCount := 0) else p.(frameCount := fc)
    case RunningAway =>
      var x, y := p.x + 7.0, p.y + 5.0;
      if x > WindowWidth as real + 100.0 || y > WindowHeight as real + 100.0 then
        p.(x := x, y := y, state := Done, frameCount := fc)
      else p.(x := x, y := y, frameCount := fc)
    case Done =>
      p.(frameCount := fc)
  }

  /** `n` ticks of a penguin that is no longer walking in (the step
      parameter is then unused). */
  function Ticks(p: Pose, n: nat): Pose
    requires p.state != WalkingIn
    decreases n
  {
    if n == 0 then p else Ticks(Tick(p, 0.0, 0.0), n - 1)
  }

  /** The grab lasts exactly 30 ticks: a penguin that has just reached the
      heart is still grabbing after 29 more ticks and runs away, with its
      frame counter reset, on the 30th. */
  lemma GrabLastsThirtyTicks(p: Pose)
    requires p.state == Grabbing && p.frameCount == 0
    ensures forall k: nat :: k < 30 ==> Ticks(p, k).state == Grabbing && Ticks(p, k).frameCount == k
    ensures Ticks(p, 30).state == RunningAway && Ticks(p, 30).frameCount == 0
  {
    forall k: nat | k < 30
      ensures Ticks(p, k).state == Grabbing && Ticks(p, k).frameCount == k
    {
      GrabbingAfter(p, k);
    }
    GrabbingAfter(p, 29);
    TicksSplit(p, 29, 1);
  }

  lemma {:induction false} GrabbingAfter(p: Pose, k: nat)
    requires p.state == Grabbing && p.frameCount + k < 30
    ensures Ticks(p, k).state == Grabbing && Ticks(p, k).frameCount == p.frameCount + k
    decreases k
  {
    if k > 0 {
      GrabbingAfter(Tick(p, 0.0, 0.0), k - 1);
    }
  }

  lemma {:induction false} TicksSplit(p: Pose, a: nat, b: nat)
    requires p.state != WalkingIn
    ensures Ticks(p, a).state != WalkingIn
    ensures Ticks(p, a + b) == Ticks(Ticks(p, a), b)
    decreases a
  {
    if a > 0 {
      TicksSplit(Tick(p, 0.0, 0.0), a - 1, b);
    }
  }

  /** Done is absorbing: once done, the penguin stays done. */
  lemma {:induction false} DoneIsFinal(p: Pose, n: nat)
    requires p.state == Done
    ensures Ticks(p, n).state == Done
    decreases n
  {
    if n > 0 {
      DoneIsFinal(Tick(p, 0.0, 0.0), n - 1);
    }
  }

  /** While it runs away the penguin moves 7 right and 5 down per tick and
      is still running as long as it stays within 100 pixels past the
      window's right and bottom edges. */
  lemma {:induction false} RunningAfter(p: Pose, k: nat)
    requires p.state == RunningAway
    requires p.x + 7.0 * k as real <= WindowWidth as real + 100.0
    requires p.y + 5.0 * k as real <= WindowHeight as real + 100.0
    ensures Ticks(p, k) == p.(x := p.x + 7.0 * k as real, y := p.y + 5.0 * k as real, frameCount := p.frameCount + k)
    decreases k
  {
    if k > 0 {
      var q := Tick(p, 0.0, 0.0);
      RunningAfter(q, k - 1);
    }
  }

  /** A running penguin is done after `n` ticks once `n` steps of 7 pixels
      carry it past 100 pixels beyond the right edge. */
  lemma {:induction false} RunAwayFinishes(p: Pose, n: nat)
    requires p.state == RunningAway && n > 0
    requires p.x + 7.0 * n as real > WindowWidth as real + 100.0
    ensures Ticks(p, n).state == Done
    decreases n
  {
    var q := Tick(p, 0.0, 0.0);
    if q.state == Done {
      DoneIsFinal(q, n - 1);
    } else {
      RunAwayFinishes(q, n - 1);
    }
  }

  /** A penguin that starts running anywhere right of the window's left
      edge is done within 198 ticks (198 * 7 = 1386 > 1280 + 100). */
  lemma RunAwayWithinBound(p: Pose)
    requires p.state == RunningAway && p.x >= 0.0
    ensures Ticks(p, 198).state == Done
  {
    RunAwayFinishes(p, 198);
  }

  /** The penguin of the heart-theft animation. */
  class Penguin {
    var x: real
    var y: real
    var targetX: real
    var targetY: real
    var state: PenguinState
    var frameCount: nat

    ghost function Current(): Pose
      reads this
    {
      Pose(x, y, targetX, targetY, state, frameCount)
    }

    /** `Penguin::new`. */
    constructor (tx: real, ty: real)
      ensures Current() == Spawned(tx, ty)
    {
      x, y := WindowWidth as real - 50.0, WindowHeight as real - 100.0;
      targetX, targetY := tx, ty;
      state := WalkingIn;
      frameCount := 0;
    }

    /** `Penguin::update`; `(sx, sy)` is the walking step the source derives
        from the distance to the heart. */
    method Update(sx: real, sy: real)
      requires StepIsValid(Current(), sx, sy)
      modifies this
      ensures Current() == Tick(old(Current()), sx, sy)
    {
      frameCount := frameCount + 1;
      match state
      case WalkingIn =>
        var dx, dy := targetX - x, targetY - y;
        if dx * dx + dy * dy > 25.0 {
          x := x + sx;
          y := y + sy;
        } else {
          x, y := targetX, targetY;
          state := Grabbing;
          frameCount := 0;
        }
      case Grabbing =>
        if frameCount >= 30 {
          state := RunningAway;
          frameCount := 0;
        }
      case RunningAway =>
        x := x + 7.0;
        y := y + 5.0;
        if x > WindowWidth as real + 100.0 || y > WindowHeight as real + 100.0 {
          state := Done;
        }
      case Done =>
    }

    /** `is_done`: the animation has reached its final state. */
    predicate IsDone()
      reads this
      ensures IsDone() <==> Rank(Current().state) == 3
    {
      state == Done
    }
  }
}
