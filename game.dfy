/**
  A play session (`Game` in game.rs): the state machine over `GameState` and
  the per-tick update that moves the paddle and the balls, resolves the
  ball-paddle and ball-block hits, picks up bonuses, compacts the
  collections, takes a life when every ball is lost and detects a cleared
  level.

  The random draws of a tick come in as `Rolls`: the launch direction of
  each ball (by its index), and for the n-th block hit of the tick whether a
  bonus drops, which kind, and the glass shards of its burst.
 */
module Games {
  import Geometry
  import opened Entities
  import opened Balls
  import Levels
  import Text

  datatype GameState = Playing | Paused | GameOver | Victory | LevelTransition

  /** The last numbered level; finishing it wins the game. */
  const LastLevel: nat := 6

  /** `toggle_pause`: Playing and Paused swap, every other state stays. */
  function Toggled(s: GameState): (r: GameState)
    ensures s == Playing <==> r == Paused
    ensures s == Paused <==> r == Playing
    ensures s != Playing && s != Paused ==> r == s
  {
    match s
    case Playing => Paused
    case Paused => Playing
    case _ => s
  }

  /** Pausing and resuming returns to the state the game was in. */
  lemma ToggleTwice(s: GameState)
    ensures Toggled(Toggled(s)) == s
  {
  }

  /** The state `next_level` moves to from `level`. */
  function AfterLevel(level: nat): (s: GameState)
    ensures s == LevelTransition <==> level < LastLevel
    ensures s == Victory <==> level >= LastLevel
  {
    if level < LastLevel then LevelTransition else Victory
  }

  // ------------------------------------------------------------ block counts

  /** The number of blocks still to break. */
  function ActiveCount(bs: seq<Block>): (n: nat)
    ensures n <= |bs|
  {
    if bs == [] then 0 else (if bs[0].active then 1 else 0) + ActiveCount(bs[1..])
  }

  /** Every block is broken. */
  predicate AllCleared(bs: seq<Block>)
  {
    forall i :: 0 <= i < |bs| ==> !bs[i].active
  }

  lemma {:induction false} ClearedIffNoneActive(bs: seq<Block>)
    ensures AllCleared(bs) <==> ActiveCount(bs) == 0
  {
    if bs != [] {
      ClearedIffNoneActive(bs[1..]);
      if AllCleared(bs[1..]) && !bs[0].active {
        forall i | 0 <= i < |bs|
          ensures !bs[i].active
        {
          if i > 0 {
            assert bs[i] == bs[1..][i - 1];
          }
        }
      }
    }
  }

  lemma {:induction false} AllActiveCount(bs: seq<Block>)
    requires forall b <- bs :: b.active
    ensures ActiveCount(bs) == |bs|
  {
    if bs != [] {
      AllActiveCount(bs[1..]);
    }
  }

  /** Breaking one unbroken block lowers the count by exactly one. */
  lemma {:induction false} BreakOne(bs: seq<Block>, j: nat)
    requires j < |bs| && bs[j].active
    ensures ActiveCount(bs[j := bs[j].(active := false)]) == ActiveCount(bs) - 1
  {
    var after := bs[j := bs[j].(active := false)];
    if j == 0 {
      assert after[1..] == bs[1..];
    } else {
      assert after[1..] == bs[1..][j - 1 := bs[j].(active := false)];
      BreakOne(bs[1..], j - 1);
    }
  }

  /** `after` is `before` with some unbroken blocks broken and nothing else
      changed. */
  predicate OnlyBroken(before: seq<Block>, after: seq<Block>)
  {
    && |after| == |before|
    && forall i :: 0 <= i < |before| ==>
         after[i] == before[i] || (before[i].active && after[i] == before[i].(active := false))
  }

  /** Breaking blocks in two rounds only breaks blocks. */
  lemma OnlyBrokenTrans(a: seq<Block>, b: seq<Block>, c: seq<Block>)
    requires OnlyBroken(a, b) && OnlyBroken(b, c)
    ensures OnlyBroken(a, c)
  {
  }

  /** The first unbroken block the box `r` overlaps, or `|bs|` for none. */
  function FirstHit(bs: seq<Block>, r: Geometry.Rect): (j: nat)
    ensures j <= |bs|
    ensures j < |bs| ==> bs[j].active && CheckCollision(r, bs[j].Rect())
    ensures forall k :: 0 <= k < j ==> !(bs[k].active && CheckCollision(r, bs[k].Rect()))
  {
    FirstHitFrom(bs, r, 0)
  }

  function FirstHitFrom(bs: seq<Block>, r: Geometry.Rect, from: nat): (j: nat)
    requires from <= |bs|
    requires forall k :: 0 <= k < from ==> !(bs[k].active && CheckCollision(r, bs[k].Rect()))
    ensures from <= j <= |bs|
    ensures j < |bs| ==> bs[j].active && CheckCollision(r, bs[j].Rect())
    ensures forall k :: 0 <= k < j ==> !(bs[k].active && CheckCollision(r, bs[k].Rect()))
    decreases |bs| - from
  {
    if from == |bs| then from
    else if bs[from].active && CheckCollision(r, bs[from].Rect()) then from
    else FirstHitFrom(bs, r, from + 1)
  }

  // ------------------------------------------------------------ ball-paddle

  /** The rectangle of a paddle at `x` of width `width`. */
  function PaddleBox(x: int, width: nat): Geometry.Rect
  {
    Geometry.Rect(x, WindowHeight - 50, width, PaddleHeight)
  }

  /** The bounce off the paddle: the ball heads up, and gains horizontal
      speed in proportion to how far its centre is from the paddle's. */
  function PaddleBounce(m: Motion, paddleX: int, width: nat): (r: Motion)
    ensures r.velY <= 0.0 && Abs(r.velY) == Abs(m.velY)
    ensures var offset := Geometry.Trunc(m.x) + BallSize / 2 - (paddleX + width / 2);
            && (offset > 0 ==> r.velX > m.velX)
            && (offset < 0 ==> r.velX < m.velX)
            && (offset == 0 ==> r.velX == m.velX)
    ensures r == m.(velX := r.velX, velY := r.velY)
  {
    var offset := Geometry.Trunc(m.x) + BallSize / 2 - (paddleX + width / 2);
    m.(velY := -Abs(m.velY), velX := m.velX + offset as real * 0.1)
  }

  /** A ball's move for the tick followed by the paddle test: an active ball
      overlapping the paddle bounces off it. */
  function BallMove(m: Motion, direction: int, paddleX: int, width: nat): (r: Motion)
    ensures var s := Step(m, direction);
            r == (if s.active && CheckCollision(Box(s), PaddleBox(paddleX, width)) then PaddleBounce(s, paddleX, width) else s)
    ensures r.active ==> m.active
    ensures r.active == Step(m, direction).active && r.x == Step(m, direction).x && r.y == Step(m, direction).y
    ensures r.active && CheckCollision(Box(r), PaddleBox(paddleX, width)) ==> r.velY <= 0.0
  {
    var s := Step(m, direction);
    if s.active && CheckCollision(Box(s), PaddleBox(paddleX, width)) then PaddleBounce(s, paddleX, width) else s
  }

  // ------------------------------------------------------------ random draws

  /** The shape of one glass shard: velocity, spin, lifetime and size. */
  datatype Shard = Shard(velX: real, velY: real, rotation: real, rotationSpeed: real, maxLifetime: nat, size: int)

  /** Where a broken block bursts into shards. */
  datatype Burst = Burst(x: real, y: real, color: Color)

  /** The random draws of one tick. The launch, drop and bonus-kind draws
      are listed in the order the tick makes them; a draw past the end of
      its list reads as straight up, no drop and a long paddle. */
  datatype Rolls = Rolls(
    launch: seq<int>,            // launch direction of the ball at each index
    drop: seq<bool>,             // the n-th hit drops a bonus
    extraBall: seq<bool>,        // ... and it is an extra ball rather than a long paddle
    shards: nat -> seq<Shard>)   // the shards of the n-th hit's burst
  {
    /** The launch direction drawn for the ball at index `i`. */
    function Launch(i: nat): int
    {
      if i < |launch| then launch[i] else 1
    }

    /** Whether the `h`-th hit of the tick drops a bonus. */
    predicate Drop(h: nat)
    {
      h < |drop| && drop[h]
    }

    /** Whether the bonus the `h`-th hit drops is an extra ball. */
    predicate Extra(h: nat)
    {
      h < |extraBall| && extraBall[h]
    }
  }

  /** The number of shards the first `n` bursts of a tick spawn. */
  function ShardTotal(rolls: Rolls, n: nat): nat
  {
    if n == 0 then 0 else ShardTotal(rolls, n - 1) + |rolls.shards(n - 1)|
  }

  // ------------------------------------------------------------ one tick as values

  // A tick ends with three `retain`s: on the balls, the bonuses and the
  // particles. Each keeps the live elements, in their order.

  /** `balls.retain(|b| b.active)`. */
  function LiveBalls(s: seq<Motion>): (r: seq<Motion>)
    ensures |r| <= |s|
    ensures forall m :: m in r <==> m in s && m.active
  {
    if s == [] then [] else (if s[0].active then [s[0]] else []) + LiveBalls(s[1..])
  }

  /** Nothing survives the balls' `retain` exactly when no ball is in play. */
  lemma NoneLive(ms: seq<Motion>)
    ensures LiveBalls(ms) == [] <==> forall m <- ms :: !m.active
  {
    var r := LiveBalls(ms);
    if r != [] {
      assert r[0] in r;
    }
  }

  /** `bonuses.retain(|b| b.active)`. */
  function LiveBonuses(s: seq<BonusState>): (r: seq<BonusState>)
    ensures |r| <= |s|
    ensures forall b :: b in r <==> b in s && b.active
  {
    if s == [] then [] else (if s[0].active then [s[0]] else []) + LiveBonuses(s[1..])
  }

  /** `particles.retain(|p| p.is_alive())`. */
  function LiveParticles(s: seq<ParticleState>): (r: seq<ParticleState>)
    ensures |r| <= |s|
    ensures forall p :: p in r <==> p in s && p.Alive()
  {
    if s == [] then [] else (if s[0].Alive() then [s[0]] else []) + LiveParticles(s[1..])
  }

  /** The block a moved ball breaks: the first unbroken block it overlaps,
      or `|bs|` when it is out of play or overlaps none. */
  function Struck(m: Motion, bs: seq<Block>): (j: nat)
    ensures j <= |bs|
    ensures j < |bs| ==> m.active && bs[j].active && CheckCollision(Box(m), bs[j].Rect())
    ensures m.active && j == |bs| ==> forall k :: 0 <= k < |bs| ==> !(bs[k].active && CheckCollision(Box(m), bs[k].Rect()))
  {
    if m.active then FirstHit(bs, Box(m)) else |bs|
  }

  /** Where a broken block bursts: its centre, in its colour. */
  function BurstAt(b: Block): Burst
  {
    Burst(b.x as real + BlockWidth as real / 2.0, b.y as real + BlockHeight as real / 2.0, b.color)
  }

  /** The bonus a broken block drops: from the middle of its top edge. */
  function DropAt(b: Block, extraBall: bool): BonusState
  {
    BonusState(b.x as real + BlockWidth as real / 2.0, b.y as real, if extraBall then ExtraBall else LongPaddle, true)
  }

  /** What the ball loop has made of the balls so far: their new motions,
      the blocks, the bursts queued and the bonuses dropped. */
  datatype BallRound = BallRound(motions: seq<Motion>, blocks: seq<Block>, bursts: seq<Burst>, drops: seq<BonusState>)

  /** One turn of the ball loop, for the next ball `m0`: it moves and
      bounces off the paddle (`BallMove`, launched by the roll for its
      index), then breaks the block it strikes, if any, and its vertical
      speed flips; the `h`-th break of the tick queues a burst and, if
      drawn, drops a bonus. */
  function BallStep(r: BallRound, m0: Motion, rolls: Rolls, paddleX: int, width: nat): (r': BallRound)
    ensures |r'.motions| == |r.motions| + 1
    ensures forall k :: 0 <= k < |r.motions| ==> r'.motions[k] == r.motions[k]
  {
    var m := BallMove(m0, rolls.Launch(|r.motions|), paddleX, width);
    var j := Struck(m, r.blocks);
    if j == |r.blocks| then r.(motions := r.motions + [m])
    else
      var h := |r.bursts|;
      BallRound(r.motions + [m.(velY := -m.velY)],
                r.blocks[j := r.blocks[j].(active := false)],
                r.bursts + [BurstAt(r.blocks[j])],
                r.drops + if rolls.Drop(h) then [DropAt(r.blocks[j], rolls.Extra(h))] else [])
  }

  /** The ball loop over the first `n` balls of `ms`, in order, with the
      paddle at `paddleX` and `width` wide. */
  function BallLoop(ms: seq<Motion>, n: nat, bs: seq<Block>, rolls: Rolls, paddleX: int, width: nat): (r: BallRound)
    requires n <= |ms|
    ensures |r.motions| == n
    decreases n, 0
  {
    if n == 0 then BallRound([], bs, [], []) else BallTurn(ms, n - 1, bs, rolls, paddleX, width)
  }

  /** The ball loop up to ball `k` and then the turn of ball `k`. */
  function BallTurn(ms: seq<Motion>, k: nat, bs: seq<Block>, rolls: Rolls, paddleX: int, width: nat): (r: BallRound)
    requires k < |ms|
    ensures |r.motions| == k + 1
    decreases k, 1
  {
    BallStep(BallLoop(ms, k, bs, rolls, paddleX, width), ms[k], rolls, paddleX, width)
  }

  /** The ball loop over one more ball is one more turn. */
  lemma BallLoopSnoc(ms: seq<Motion>, k: nat, bs: seq<Block>, rolls: Rolls, paddleX: int, width: nat)
    requires k < |ms|
    ensures BallLoop(ms, k + 1, bs, rolls, paddleX, width)
         == BallStep(BallLoop(ms, k, bs, rolls, paddleX, width), ms[k], rolls, paddleX, width)
  {
    assert BallLoop(ms, k + 1, bs, rolls, paddleX, width) == BallTurn(ms, k, bs, rolls, paddleX, width);
  }

  /** What a ball loop over `n` balls may do to the blocks `bs`: break
      unbroken blocks only, one burst per break and at most one break per
      ball, at most one bonus per break, and a break leaves the ball that
      made it in play. */
  predicate BreaksOnly(bs: seq<Block>, n: nat, r: BallRound)
  {
    && |r.motions| == n
    && OnlyBroken(bs, r.blocks)
    && |r.bursts| == ActiveCount(bs) - ActiveCount(r.blocks) <= n
    && |r.drops| <= |r.bursts|
    && (|r.bursts| > 0 ==> exists k :: 0 <= k < n && r.motions[k].active)
  }

  lemma {:induction false} BallLoopBreaks(ms: seq<Motion>, n: nat, bs: seq<Block>, rolls: Rolls, paddleX: int, width: nat)
    requires n <= |ms|
    ensures BreaksOnly(bs, n, BallLoop(ms, n, bs, rolls, paddleX, width))
  {
    if n != 0 {
      var i := n - 1;
      var r := BallLoop(ms, i, bs, rolls, paddleX, width);
      BallLoopBreaks(ms, i, bs, rolls, paddleX, width);
      BallLoopSnoc(ms, i, bs, rolls, paddleX, width);
      var m := BallMove(ms[i], rolls.Launch(|r.motions|), paddleX, width);
      var j := Struck(m, r.blocks);
      var r' := BallLoop(ms, n, bs, rolls, paddleX, width);
      if j < |r.blocks| {
        BreakOne(r.blocks, j);
        OnlyBrokenTrans(bs, r.blocks, r'.blocks);
        assert r'.motions[i].active;
      } else if |r.bursts| > 0 {
        var k :| 0 <= k < i && r.motions[k].active;
        assert r'.motions[k] == r.motions[k];
      }
    }
  }

  /** What the bonus loop has made of the bonuses so far: their new states,
      the balls served, and whether the paddle has grown long. */
  datatype BonusRound = BonusRound(bonuses: seq<BonusState>, served: seq<Motion>, grown: bool)

  /** One turn of the bonus loop, for the next bonus `b`, with the paddle
      at `paddleX` and `width` wide until a long-paddle bonus makes it
      `longWidth` wide: the bonus falls; if still active and touching the
      paddle it is used up and serves a fresh ball above the paddle's centre
      (ExtraBall) or grows the paddle (LongPaddle); the two other kinds do
      nothing more here. */
  function BonusStep(r: BonusRound, b: BonusState, paddleX: int, width: nat, longWidth: nat): (r': BonusRound)
    ensures |r'.bonuses| == |r.bonuses| + 1
    ensures forall k :: 0 <= k < |r.bonuses| ==> r'.bonuses[k] == r.bonuses[k]
    ensures |r.served| <= |r'.served| && forall k :: 0 <= k < |r.served| ==> r'.served[k] == r.served[k]
  {
    var w := if r.grown then longWidth else width;
    var f := Fallen(b);
    if !(f.active && CheckCollision(BonusBox(f), PaddleBox(paddleX, w))) then r.(bonuses := r.bonuses + [f])
    else
      var used := r.(bonuses := r.bonuses + [f.(active := false)]);
      match f.bonusType
      case ExtraBall => used.(served := r.served + [Fresh(paddleX as real + w as real / 2.0, (WindowHeight - 50) as real - 20.0)])
      case LongPaddle => used.(grown := true)
      case _ => used
  }

  /** The bonus loop over the first `n` bonuses of `bs`, in order. */
  function BonusLoop(bs: seq<BonusState>, n: nat, paddleX: int, width: nat, longWidth: nat): (r: BonusRound)
    requires n <= |bs|
    ensures |r.bonuses| == n
    decreases n, 0
  {
    if n == 0 then BonusRound([], [], false) else BonusTurn(bs, n - 1, paddleX, width, longWidth)
  }

  /** The bonus loop up to bonus `k` and then the turn of bonus `k`. */
  function BonusTurn(bs: seq<BonusState>, k: nat, paddleX: int, width: nat, longWidth: nat): (r: BonusRound)
    requires k < |bs|
    ensures |r.bonuses| == k + 1
    decreases k, 1
  {
    BonusStep(BonusLoop(bs, k, paddleX, width, longWidth), bs[k], paddleX, width, longWidth)
  }

  /** The bonus loop over one more bonus is one more turn. */
  lemma BonusLoopSnoc(bs: seq<BonusState>, k: nat, paddleX: int, width: nat, longWidth: nat)
    requires k < |bs|
    ensures BonusLoop(bs, k + 1, paddleX, width, longWidth)
         == BonusStep(BonusLoop(bs, k, paddleX, width, longWidth), bs[k], paddleX, width, longWidth)
  {
    assert BonusLoop(bs, k + 1, paddleX, width, longWidth) == BonusTurn(bs, k, paddleX, width, longWidth);
  }

  /** The particle `create_particles` makes from one shard of a burst. */
  function ShardParticle(b: Burst, s: Shard): ParticleState
  {
    ParticleState(b.x, b.y, s.velX, s.velY, s.rotation, s.rotationSpeed, 0, s.maxLifetime, s.size, b.color)
  }

  /** The particles the queued bursts spawn, burst by burst and shard by
      shard. */
  function BurstParticles(bursts: seq<Burst>, rolls: Rolls): (ps: seq<ParticleState>)
    ensures |ps| == ShardTotal(rolls, |bursts|)
    decreases |bursts|
  {
    if bursts == [] then []
    else
      var h := |bursts| - 1;
      BurstParticles(bursts[..h], rolls) +
        seq(|rolls.shards(h)|, n requires 0 <= n < |rolls.shards(h)| => ShardParticle(bursts[h], rolls.shards(h)[n]))
  }

  /** Shard `n` of burst `h` becomes particle `ShardTotal(rolls, h) + n`: at
      the burst, in its colour, with the shard's speed, spin and lifetime. */
  lemma {:induction false} BurstParticlesAt(bursts: seq<Burst>, rolls: Rolls, h: nat, n: nat)
    requires h < |bursts| && n < |rolls.shards(h)|
    ensures ShardTotal(rolls, h) + n < |BurstParticles(bursts, rolls)|
    ensures BurstParticles(bursts, rolls)[ShardTotal(rolls, h) + n] == ShardParticle(bursts[h], rolls.shards(h)[n])
    decreases |bursts|
  {
    var last := |bursts| - 1;
    if h < last {
      BurstParticlesAt(bursts[..last], rolls, h, n);
      assert bursts[..last][h] == bursts[h];
    }
  }

  /** Every particle's tick. */
  function DriftAll(ps: seq<ParticleState>): (r: seq<ParticleState>)
  {
    seq(|ps|, k requires 0 <= k < |ps| => Drifted(ps[k]))
  }

  /** The moving part of one tick, as values. */
  datatype Moves = Moves(paddle: PaddleState, balls: seq<Motion>, blocks: seq<Block>,
                         bonuses: seq<BonusState>, particles: seq<ParticleState>, hits: nat)

  /** The paddle's tick, the ball loop, the bursts' particles, the bonus
      loop over the old and the newly dropped bonuses, and the particles'
      tick; the balls the bonus loop serves follow the old ones. */
  function MoveAll(p: PaddleState, ms: seq<Motion>, bs: seq<Block>, bonuses: seq<BonusState>,
                   ps: seq<ParticleState>, rolls: Rolls): (w: Moves)
    ensures |ms| <= |w.balls| && |bonuses| <= |w.bonuses|
    ensures |w.particles| == |ps| + ShardTotal(rolls, w.hits)
    ensures forall k :: 0 <= k < |ps| ==> w.particles[k] == Drifted(ps[k])
  {
    var p1 := PaddleTick(p);
    var r := BallLoop(ms, |ms|, bs, rolls, p1.x, p1.width);
    var q := BonusLoop(bonuses + r.drops, |bonuses + r.drops|, p1.x, p1.width, p1.longWidth);
    Moves(if q.grown then Lengthened(p1) else p1, r.motions + q.served, r.blocks, q.bonuses,
          DriftAll(ps + BurstParticles(r.bursts, rolls)), |r.bursts|)
  }

  /** A tick's moves break unbroken blocks only, at most one per old ball,
      count each break once, and a break leaves an old ball in play. */
  lemma MoveBreaks(p: PaddleState, ms: seq<Motion>, bs: seq<Block>, bonuses: seq<BonusState>,
                   ps: seq<ParticleState>, rolls: Rolls)
    ensures var w := MoveAll(p, ms, bs, bonuses, ps, rolls);
      && OnlyBroken(bs, w.blocks)
      && w.hits == ActiveCount(bs) - ActiveCount(w.blocks) <= |ms|
      && |ms| <= |w.balls|
      && (w.hits > 0 ==> exists k :: 0 <= k < |ms| && w.balls[k].active)
      && (w.hits > 0 ==> LiveBalls(w.balls) != [])
  {
    var p1 := PaddleTick(p);
    var r := BallLoop(ms, |ms|, bs, rolls, p1.x, p1.width);
    var q := BonusLoop(bonuses + r.drops, |bonuses + r.drops|, p1.x, p1.width, p1.longWidth);
    BallLoopBreaks(ms, |ms|, bs, rolls, p1.x, p1.width);
    if |r.bursts| > 0 {
      var k :| 0 <= k < |ms| && r.motions[k].active;
      assert (r.motions + q.served)[k] == r.motions[k];
      assert (r.motions + q.served)[k] in LiveBalls(r.motions + q.served);
    }
  }

  // ------------------------------------------------------------ the session

  class Game {
    var state: GameState
    var paddle: Paddle
    var balls: seq<Motion>
    var blocks: seq<Block>
    var bonuses: seq<BonusState>
    var particles: seq<ParticleState>
    var score: nat
    var lives: nat
    var currentLevel: nat

    /** The paddle keeps its own invariant. */
    ghost predicate Valid()
      reads this, paddle
    {
      paddle.Valid()
    }

    /** What the state machine keeps true: a session in play has a life to
        lose and, before the last level, a block to break; a level
        transition leads to a next level; only a cleared last level is a
        victory; and the game is over exactly when the lives ran out. */
    ghost predicate Consistent()
      reads this
    {
      && (state == Playing || state == Paused ==>
            lives >= 1 && (currentLevel >= LastLevel || ActiveCount(blocks) > 0))
      && (state == LevelTransition ==> lives >= 1 && currentLevel < LastLevel)
      && (state == Victory ==> currentLevel >= LastLevel)
      && (state == GameOver ==> lives == 0)
    }

    /** `Game::new_level`: a fresh paddle, one attached ball in the middle of
        the window, the level's blocks, 3 lives and no score. `Game::new` is
        `NewLevel(1, _)`. */
    constructor NewLevel(level: nat, oracle: Levels.Oracle)
      ensures Valid() && Consistent()
      ensures state == Playing && lives == 3 && score == 0 && currentLevel == level
      ensures blocks == Levels.Generate(level, oracle, 0)
      ensures fresh(paddle) && paddle.State() == NewPaddle()
      ensures balls == [Fresh(WindowWidth as real / 2.0, WindowHeight as real / 2.0)]
      ensures bonuses == [] && particles == []
    {
      var p := new Paddle();
      var b := Fresh(WindowWidth as real / 2.0, WindowHeight as real / 2.0);
      var bs := Levels.CreateBlocks(level, oracle);
      state := Playing;
      paddle := p;
      balls := [b];
      blocks := bs;
      bonuses := [];
      particles := [];
      score := 0;
      lives := 3;
      currentLevel := level;
      new;
      LevelHasBlocks(level, oracle);
    }

    /** A numbered level before the last always has a block to break. */
    static lemma LevelHasBlocks(level: nat, oracle: Levels.Oracle)
      ensures level < LastLevel ==> ActiveCount(Levels.Generate(level, oracle, 0)) > 0
    {
      if level < LastLevel {
        Levels.EarlyLevelsHaveBlocks(level, oracle);
        AllActiveCount(Levels.Generate(level, oracle, 0));
      }
    }

    /** `reset`: the session becomes `Game::new()`, that is `new_level(1)`. */
    method Reset(oracle: Levels.Oracle)
      modifies this
      ensures Valid() && Consistent()
      ensures state == Playing && lives == 3 && score == 0 && currentLevel == 1
      ensures blocks == Levels.Generate(1, oracle, 0)
      ensures fresh(paddle) && paddle.State() == NewPaddle()
      ensures balls == [Fresh(WindowWidth as real / 2.0, WindowHeight as real / 2.0)]
      ensures bonuses == [] && particles == []
    {
      Restart(1, oracle);
    }

    /** The state `new_level(level)` builds, written over this session. */
    method Restart(level: nat, oracle: Levels.Oracle)
      modifies this
      ensures Valid() && Consistent()
      ensures state == Playing && lives == 3 && score == 0 && currentLevel == level
      ensures blocks == Levels.Generate(level, oracle, 0)
      ensures fresh(paddle) && paddle.State() == NewPaddle()
      ensures balls == [Fresh(WindowWidth as real / 2.0, WindowHeight as real / 2.0)]
      ensures bonuses == [] && particles == []
    {
      var p := new Paddle();
      var b := Fresh(WindowWidth as real / 2.0, WindowHeight as real / 2.0);
      paddle, balls, score, lives := p, [b], 0, 3;
      EnterLevel(level, oracle);
    }

    /** What `new_level` and `start_next_level` both do to the level: its
        blocks, nothing falling, back in play. */
    method EnterLevel(level: nat, oracle: Levels.Oracle)
      modifies this`blocks, this`bonuses, this`particles, this`state, this`currentLevel
      ensures state == Playing && currentLevel == level
      ensures blocks == Levels.Generate(level, oracle, 0)
      ensures level < LastLevel ==> ActiveCount(blocks) > 0
      ensures bonuses == [] && particles == []
    {
      var bs := Levels.CreateBlocks(level, oracle);
      LevelHasBlocks(level, oracle);
      blocks, bonuses, particles := bs, [], [];
      state, currentLevel := Playing, level;
    }

    /** `toggle_pause`. */
    method TogglePause()
      modifies this`state
      ensures state == Toggled(old(state))
      ensures old(Consistent()) ==> Consistent()
    {
      state := match state
        case Playing => Paused
        case Paused => Playing
        case GameOver => GameOver
        case Victory => Victory
        case LevelTransition => LevelTransition;
    }

    /** `next_level`: a transition before the last level, victory after it. */
    method NextLevel()
      modifies this`state
      ensures state == AfterLevel(currentLevel)
    {
      if currentLevel < LastLevel {
        state := LevelTransition;
      } else {
        state := Victory;
      }
    }

    /** `start_next_level`: before the last level, move to the next one with
        a fresh paddle and ball, its blocks and no bonuses or particles,
        keeping score and lives; from the last level, nothing happens. The
        state machine stays consistent unless the call comes from GameOver,
        which the game loop never does. */
    method StartNextLevel(oracle: Levels.Oracle)
      requires Valid()
      modifies this
      ensures Valid()
      ensures old(currentLevel) >= LastLevel ==> unchanged(this)
      ensures old(currentLevel) < LastLevel ==>
        && currentLevel == old(currentLevel) + 1
        && state == Playing
        && score == old(score) && lives == old(lives)
        && blocks == Levels.Generate(currentLevel, oracle, 0)
        && fresh(paddle) && paddle.State() == NewPaddle()
        && balls == [Fresh(WindowWidth as real / 2.0, WindowHeight as real / 2.0)]
        && bonuses == [] && particles == []
      ensures old(Consistent()) && old(state) != GameOver ==> Consistent()
    {
      if currentLevel < LastLevel {
        var level := currentLevel + 1;
        var p := new Paddle();
        var b := Fresh(WindowWidth as real / 2.0, WindowHeight as real / 2.0);
        paddle, balls := p, [b];
        EnterLevel(level, oracle);
      }
    }

    /** `update`, one tick of play. Outside Playing nothing changes. In play
        the paddle, the balls, the blocks, the bonuses and the particles move
        as `MoveAll` says, and `retain` keeps the active balls, the active
        bonuses and the live particles; the score rises by 10 per broken
        block. When no ball is left in play (`lost`) a life goes, and either
        the game is over or one fresh ball is served; a cleared grid ends the
        level. */
    method Update(rolls: Rolls) returns (ghost lost: bool)
      requires Valid()
      requires state == Playing ==> lives >= 1
      modifies this, paddle
      ensures Valid()
      ensures old(state) != Playing ==> unchanged(this) && unchanged(paddle) && !lost
      ensures old(state) == Playing ==>
        var w := MoveAll(old(paddle.State()), old(balls), old(blocks), old(bonuses), old(particles), rolls);
        var survivors := LiveBalls(w.balls);
        && paddle.State() == w.paddle
        && blocks == w.blocks
        && score == old(score) + 10 * w.hits
        && bonuses == LiveBonuses(w.bonuses)
        && particles == LiveParticles(w.particles)
        && (lost <==> survivors == [])
        && (lost <==> forall m <- w.balls :: !m.active)
        && (!lost ==> balls == survivors)
        && (lost && lives > 0 ==> balls == [Fresh(WindowWidth as real / 2.0, WindowHeight as real / 2.0)])
        && (lost && lives == 0 ==> balls == [])
      ensures old(state) == Playing ==>
        && currentLevel == old(currentLevel)
        && OnlyBroken(old(blocks), blocks)
        && score == old(score) + 10 * (ActiveCount(old(blocks)) - ActiveCount(blocks))
        && ActiveCount(old(blocks)) - ActiveCount(blocks) <= |old(balls)|
        && (ActiveCount(blocks) < ActiveCount(old(blocks)) ==> !lost)
        && lives == old(lives) - (if lost then 1 else 0)
        && (AllCleared(blocks) ==> state == AfterLevel(currentLevel))
        && (!AllCleared(blocks) ==> state == (if lives == 0 then GameOver else Playing))
        && (forall m <- balls :: m.active)
        && (forall b <- bonuses :: b.active)
        && (forall p <- particles :: p.Alive())
      ensures old(Consistent()) ==> Consistent()
    {
      lost := false;
      if state != Playing {
        return;
      }
      ghost var w := MoveAll(paddle.State(), balls, blocks, bonuses, particles, rolls);
      MoveBreaks(paddle.State(), balls, blocks, bonuses, particles, rolls);
      lost := Tick(rolls);
    }

    /** The tick in play: the moves and the `retain`s, then the lost-ball
        and cleared-grid checks. */
    method Tick(rolls: Rolls) returns (ghost lost: bool)
      requires Valid() && state == Playing && lives >= 1
      modifies this, paddle
      ensures Valid()
      ensures var w := MoveAll(old(paddle.State()), old(balls), old(blocks), old(bonuses), old(particles), rolls);
        var survivors := LiveBalls(w.balls);
        && paddle.State() == w.paddle
        && blocks == w.blocks
        && score == old(score) + 10 * w.hits
        && bonuses == LiveBonuses(w.bonuses)
        && particles == LiveParticles(w.particles)
        && (lost <==> survivors == [])
        && (lost <==> forall m <- w.balls :: !m.active)
        && (!lost ==> balls == survivors)
        && (lost && lives > 0 ==> balls == [Fresh(WindowWidth as real / 2.0, WindowHeight as real / 2.0)])
        && (lost && lives == 0 ==> balls == [])
        && (survivors != [] || ActiveCount(blocks) > 0 || currentLevel >= LastLevel ==> Consistent())
      ensures currentLevel == old(currentLevel)
      ensures lives == old(lives) - (if lost then 1 else 0)
      ensures AllCleared(blocks) ==> state == AfterLevel(currentLevel)
      ensures !AllCleared(blocks) ==> state == (if lives == 0 then GameOver else Playing)
      ensures forall m <- balls :: m.active
      ensures forall b <- bonuses :: b.active
      ensures forall p <- particles :: p.Alive()
    {
      ghost var w := MoveAll(paddle.State(), balls, blocks, bonuses, particles, rolls);
      Advance(rolls);
      NoneLive(w.balls);
      lost := Settle();
    }

    /** The movement part of a tick and the three `retain`s that follow it. */
    method Advance(rolls: Rolls)
      requires Valid()
      modifies this`blocks, this`score, this`balls, this`bonuses, this`particles, paddle
      ensures Valid()
      ensures var w := MoveAll(old(paddle.State()), old(balls), old(blocks), old(bonuses), old(particles), rolls);
        && paddle.State() == w.paddle
        && blocks == w.blocks
        && score == old(score) + 10 * w.hits
        && balls == LiveBalls(w.balls)
        && bonuses == LiveBonuses(w.bonuses)
        && particles == LiveParticles(w.particles)
    {
      Move(rolls);
      Compact();
    }

    /** The paddle, ball, particle and bonus loops of a tick, in the order
        `update` runs them, end as `MoveAll` says. */
    method Move(rolls: Rolls)
      requires Valid()
      modifies this`blocks, this`score, this`balls, this`bonuses, this`particles, paddle
      ensures Valid()
      ensures var w := MoveAll(old(paddle.State()), old(balls), old(blocks), old(bonuses), old(particles), rolls);
        && paddle.State() == w.paddle
        && balls == w.balls
        && blocks == w.blocks
        && bonuses == w.bonuses
        && particles == w.particles
        && score == old(score) + 10 * w.hits
    {
      paddle.Update();
      var bursts := StepBalls(rolls);
      SpawnParticles(bursts, rolls);
      StepBonuses();
      StepParticles();
    }

    /** `retain` on the balls, the bonuses and the particles: the ones still
        in play, in their order. */
    method Compact()
      modifies this`balls, this`bonuses, this`particles
      ensures balls == LiveBalls(old(balls))
      ensures bonuses == LiveBonuses(old(bonuses))
      ensures particles == LiveParticles(old(particles))
      ensures forall m <- balls :: m.active
      ensures forall b <- bonuses :: b.active
      ensures forall p <- particles :: p.Alive()
    {
      balls := LiveBalls(balls);
      bonuses := LiveBonuses(bonuses);
      particles := LiveParticles(particles);
    }

    /** The end of a tick: with no ball left a life goes, and either the
        game is over or a fresh ball is served; with every block broken the
        level ends. */
    method Settle() returns (ghost lost: bool)
      requires state == Playing && lives >= 1
      modifies this`lives, this`state, this`balls
      ensures lost <==> old(balls) == []
      ensures lives == old(lives) - (if lost then 1 else 0)
      ensures !lost ==> balls == old(balls)
      ensures lost && lives == 0 ==> balls == []
      ensures lost && lives > 0 ==> balls == [Fresh(WindowWidth as real / 2.0, WindowHeight as real / 2.0)]
      ensures AllCleared(blocks) ==> state == AfterLevel(currentLevel)
      ensures !AllCleared(blocks) ==> state == (if lives == 0 then GameOver else Playing)
      ensures old(|balls| > 0 || ActiveCount(blocks) > 0 || currentLevel >= LastLevel) ==> Consistent()
    {
      ClearedIffNoneActive(blocks);
      lost := false;
      if |balls| == 0 {
        lost := true;
        lives := lives - 1;
        if lives == 0 {
          state := GameOver;
        } else {
          balls := [Fresh(WindowWidth as real / 2.0, WindowHeight as real / 2.0)];
        }
      }
      if forall i :: 0 <= i < |blocks| ==> !blocks[i].active {
        NextLevel();
      }
    }

    /** The ball loop of a tick: the balls, the blocks, the bursts and the
        dropped bonuses end as `BallLoop` says. */
    method StepBalls(rolls: Rolls) returns (bursts: seq<Burst>)
      requires Valid()
      modifies this`balls, this`blocks, this`score, this`bonuses
      ensures var r := BallLoop(old(balls), |old(balls)|, old(blocks), rolls, paddle.x, paddle.width);
        && balls == r.motions
        && blocks == r.blocks
        && bursts == r.bursts
        && score == old(score) + 10 * |r.bursts|
        && bonuses == old(bonuses) + r.drops
    {
      ghost var ms0, bs0, dropped, px, pw := balls, blocks, bonuses, paddle.x, paddle.width;
      ghost var round := BallLoop(ms0, 0, bs0, rolls, px, pw);
      bursts := [];
      var i := 0;
      while i < |balls|
        invariant 0 <= i <= |balls| == |ms0|
        invariant round == BallLoop(ms0, i, bs0, rolls, px, pw)
        invariant forall k :: 0 <= k < |balls| ==> balls[k] == if k < i then round.motions[k] else ms0[k]
        invariant blocks == round.blocks && bursts == round.bursts
        invariant score == old(score) + 10 * |round.bursts|
        invariant bonuses == dropped + round.drops
      {
        BallLoopSnoc(ms0, i, bs0, rolls, px, pw);
        bursts := TickOneBall(i, bursts, round, ms0[i], dropped, old(score), px, pw, rolls);
        round := BallStep(round, ms0[i], rolls, px, pw);
        i := i + 1;
      }
    }

    /** One iteration of the ball loop, on ball `i`, is the turn `BallStep`
        takes from the round `r` the loop has reached: the ball moves and
        bounces off the paddle (`BallMove`), then breaks the first unbroken
        block it overlaps, if any, and its vertical speed flips; the break
        scores 10, returns the burst at the block's centre and, if the
        tick's `h`-th break drops one, adds a bonus falling from the block. */
    method TickOneBall(i: nat, bursts: seq<Burst>, ghost r: BallRound, ghost m0: Motion,
                       ghost dropped: seq<BonusState>, ghost s0: int, ghost px: int, ghost pw: nat, rolls: Rolls)
      returns (bursts': seq<Burst>)
      requires i < |balls| && balls[i] == m0 && paddle.Valid() && paddle.x == px && paddle.width == pw
      requires |r.motions| == i && r.bursts == bursts && blocks == r.blocks && bonuses == dropped + r.drops
      requires score == s0 + 10 * |r.bursts|
      modifies this`balls, this`blocks, this`score, this`bonuses
      ensures var r' := BallStep(r, m0, rolls, px, pw);
        && balls == old(balls)[i := r'.motions[i]]
        && blocks == r'.blocks
        && bursts' == r'.bursts
        && score == s0 + 10 * |r'.bursts|
        && bonuses == dropped + r'.drops
    {
      BallTick(i, rolls.Launch(i));
      var hit, burst := HitFirstBlock(i, |bursts|, rolls);
      bursts' := if hit then bursts + [burst] else bursts;
    }

    /** `ball.update()` and the paddle test, for ball `i`: a moved ball in
        play that overlaps the paddle goes up again, with a sideways push
        proportional to how far from the paddle's centre it hit. */
    method BallTick(i: nat, direction: int)
      requires i < |balls| && paddle.Valid()
      modifies this`balls
      ensures balls == old(balls)[i := BallMove(old(balls[i]), direction, paddle.x, paddle.width)]
    {
      var ball := Step(balls[i], direction);
      if ball.active && CheckCollision(Box(ball), paddle.Rect()) {
        var paddleCenter := paddle.x + paddle.width / 2;
        var ballCenter := Geometry.Trunc(ball.x) + BallSize / 2;
        var offset := ballCenter - paddleCenter;
        ball := ball.(velY := -Abs(ball.velY), velX := ball.velX + offset as real * 0.1);
      }
      balls := balls[i := ball];
    }

    /** The search of the block loop: the index of the first unbroken
        block the ball overlaps, `|blocks|` when there is none or the ball
        is out of play. */
    method FindHit(ball: Motion) returns (j: nat)
      ensures j == Struck(ball, blocks)
    {
      j := 0;
      while j < |blocks| && !(blocks[j].active && ball.active && CheckCollision(Box(ball), blocks[j].Rect()))
        invariant j <= |blocks|
        invariant forall k :: 0 <= k < j ==> !(blocks[k].active && ball.active && CheckCollision(Box(ball), blocks[k].Rect()))
      {
        j := j + 1;
      }
    }

    /** The block loop for ball `i`: the first unbroken block the (active)
        ball overlaps is broken, the ball's vertical direction flips, 10
        points are scored, a burst is queued at the block's centre and, if
        the `h`-th hit of the tick drops one, a bonus starts falling from
        the block; then the loop stops. */
    method HitFirstBlock(i: nat, h: nat, rolls: Rolls) returns (hit: bool, burst: Burst)
      requires i < |balls|
      modifies this`balls, this`blocks, this`score, this`bonuses
      ensures var m, j := old(balls[i]), Struck(old(balls[i]), old(blocks));
        && hit == (j < |old(blocks)|)
        && (hit ==>
              && blocks == old(blocks)[j := old(blocks)[j].(active := false)]
              && balls == old(balls)[i := m.(velY := -m.velY)]
              && score == old(score) + 10
              && burst == BurstAt(old(blocks)[j])
              && bonuses == old(bonuses) + (if rolls.Drop(h) then [DropAt(old(blocks)[j], rolls.Extra(h))] else []))
        && (!hit ==> blocks == old(blocks) && balls == old(balls) && score == old(score) && bonuses == old(bonuses))
    {
      var ball := balls[i];
      var j := FindHit(ball);
      hit := j < |blocks|;
      if !hit {
        return hit, Burst(ball.x, ball.y, BlockColors[0]);
      }
      var block := blocks[j];
      blocks := blocks[j := block.(active := false)];
      balls := balls[i := ball.(velY := -ball.velY)];
      score := score + 10;
      burst := BurstAt(block);
      if rolls.Drop(h) {
        bonuses := bonuses + [DropAt(block, rolls.Extra(h))];
      }
    }

    /** `create_particles` for every queued burst: the `h`-th burst spawns
        the shards drawn for it, at its position, in its colour, after the
        existing particles (`BurstParticles`). */
    method SpawnParticles(bursts: seq<Burst>, rolls: Rolls)
      modifies this`particles
      ensures particles == old(particles) + BurstParticles(bursts, rolls)
    {
      var h := 0;
      while h < |bursts|
        invariant 0 <= h <= |bursts|
        invariant particles == old(particles) + BurstParticles(bursts[..h], rolls)
      {
        ghost var before := particles;
        var burst, shards := bursts[h], rolls.shards(h);
        var n := 0;
        while n < |shards|
          invariant 0 <= n <= |shards|
          invariant |particles| == |before| + n
          invariant particles[..|before|] == before
          invariant forall k :: 0 <= k < n ==> particles[|before| + k] == ShardParticle(burst, shards[k])
        {
          var s := shards[n];
          particles := particles + [ParticleState(burst.x, burst.y, s.velX, s.velY, s.rotation, s.rotationSpeed,
                                                  0, s.maxLifetime, s.size, burst.color)];
          n := n + 1;
        }
        assert bursts[..h + 1][..h] == bursts[..h];
        h := h + 1;
      }
      assert bursts[..h] == bursts;
    }

    /** The bonus loop of a tick: the bonuses, the balls served and the
        paddle end as `BonusLoop` says. */
    method StepBonuses()
      requires Valid()
      modifies this`bonuses, this`balls, paddle
      ensures Valid()
      ensures var p := old(paddle.State());
              var r := BonusLoop(old(bonuses), |old(bonuses)|, p.x, p.width, p.longWidth);
        && bonuses == r.bonuses
        && balls == old(balls) + r.served
        && paddle.State() == (if r.grown then Lengthened(p) else p)
    {
      ghost var p0, bs0, ms0 := paddle.State(), bonuses, balls;
      ghost var round := BonusLoop(bs0, 0, p0.x, p0.width, p0.longWidth);
      var i := 0;
      while i < |bonuses|
        invariant 0 <= i <= |bonuses| == |bs0| && paddle.Valid()
        invariant round == BonusLoop(bs0, i, p0.x, p0.width, p0.longWidth)
        invariant forall k :: 0 <= k < i ==> bonuses[k] == round.bonuses[k]
        invariant forall k :: i <= k < |bonuses| ==> bonuses[k] == bs0[k]
        invariant balls == ms0 + round.served
        invariant paddle.State() == (if round.grown then Lengthened(p0) else p0)
      {
        BonusLoopSnoc(bs0, i, p0.x, p0.width, p0.longWidth);
        TickBonus(i, round, bs0[i], ms0, p0);
        round := BonusStep(round, bs0[i], p0.x, p0.width, p0.longWidth);
        i := i + 1;
      }
    }

    /** One bonus of `update`: bonus `i` falls; if it is still active and
        touches the paddle it is used up, and an extra ball is served above
        the paddle's centre or the paddle grows long. */
    method TickBonus(i: nat, ghost r: BonusRound, ghost b0: BonusState, ghost ms0: seq<Motion>, ghost p0: PaddleState)
      requires i < |bonuses| && bonuses[i] == b0 && paddle.Valid()
      requires |r.bonuses| == i && balls == ms0 + r.served
      requires paddle.State() == (if r.grown then Lengthened(p0) else p0)
      modifies this`bonuses, this`balls, paddle
      ensures paddle.Valid()
      ensures var r' := BonusStep(r, b0, p0.x, p0.width, p0.longWidth);
        && bonuses == old(bonuses)[i := r'.bonuses[i]]
        && balls == ms0 + r'.served
        && paddle.State() == (if r'.grown then Lengthened(p0) else p0)
      ensures var p, f := old(paddle.State()), Fallen(old(bonuses[i]));
              var caught := f.active && CheckCollision(BonusBox(f), PaddleBox(p.x, p.width));
        && bonuses == old(bonuses)[i := if caught then f.(active := false) else f]
        && balls == old(balls) +
             (if caught && f.bonusType == ExtraBall
              then [Fresh(p.x as real + p.width as real / 2.0, p.y as real - 20.0)] else [])
        && paddle.State() == (if caught && f.bonusType == LongPaddle then Lengthened(p) else p)
    {
      var bonus := Fallen(bonuses[i]);
      if bonus.active && CheckCollision(BonusBox(bonus), paddle.Rect()) {
        bonus := bonus.(active := false);
        match bonus.bonusType
        case ExtraBall =>
          balls := balls + [Fresh(paddle.x as real + paddle.width as real / 2.0, paddle.y as real - 20.0)];
        case LongPaddle =>
          paddle.ActivateLongBonus();
        case GhostBall =>
        case Rocket =>
      }
      bonuses := bonuses[i := bonus];
    }

    /** Every particle moves and ages one tick. */
    method StepParticles()
      modifies this`particles
      ensures particles == DriftAll(old(particles))
    {
      var i := 0;
      while i < |particles|
        invariant 0 <= i <= |particles| == |old(particles)|
        invariant forall k :: 0 <= k < i ==> particles[k] == Drifted(old(particles)[k])
        invariant forall k :: i <= k < |particles| ==> particles[k] == old(particles)[k]
      {
        particles := particles[i := Drifted(particles[i])];
        i := i + 1;
      }
    }
  }
}
