# arkanoo brick-breaker — a verified Dafny model

This project models the core of the brick-breaker game *arkanoo*. The core has four parts:

- **The play session** (`Game`, src/game.rs): a state machine over Playing, Paused, GameOver, Victory and LevelTransition. Its per-tick `update`:
  - moves the paddle and the balls;
  - bounces balls off the paddle;
  - breaks at most one block per ball per tick, scoring 10 points each;
  - drops and picks up bonuses;
  - compacts the ball, bonus and particle lists;
  - takes a life when the last ball is lost;
  - ends the level when the grid is cleared.
- **The entities** (src/entities.rs):
  - the paddle, with its clamping and bonus timers;
  - the ball: attach, countdown, launch, wall bounces, minimum horizontal speed and a speed-dependent trail;
  - falling bonuses, rockets and glass-shard particles;
  - the four-state penguin animation;
  - the SDL rectangle collision test;
  - `create_blocks`, the block layout of each level with its retry loop.
- **The level editor** (src/editor.rs):
  - the one-character-per-cell text format of a 10×20 pattern, with its writer and its line-based reader;
  - turning a pattern into blocks;
  - snapped add and remove of blocks, and the drag gestures;
  - the grid that `save_pattern` builds from the blocks;
  - the clear confirmation, the background cycler and the message timer.
- **The menus** (src/menu.rs):
  - buttons whose hit test is SDL's half-open `contains_point`;
  - the volume sliders;
  - the display toggles and their captions;
  - the resolution presets and the 300-frame confirmation countdown;
  - the first-match click dispatch `handle_menu_click`.

Some state is held in a class, mirroring the source: `Paddle`, `Ball`, `Bonus`, `Rocket`, `Particle`, `Penguin`, `Game`, `LevelEditor`, `VolumeSlider` and `Menu`. Their methods carry `modifies` clauses and state the new state. The behaviour of a tick is also given as a pure function where that helps: `Balls.Step`, `Penguins.Tick`, `Editor.MessageStep`, `Menus.SliderStep` and `Menus.TimerTick`. The class methods are proved to agree with these functions, and lemmas about the functions give the multi-tick properties.

Conventions:
- `f32` is modelled as `real`, with no rounding.
- `as i32` is truncation toward zero (`Geometry.Trunc`).
- Speeds are compared squared instead of through `sqrt`.
- Randomness is an input:
  - the launch direction;
  - the bonus drop and its kind;
  - the shards of a burst (`Games.Rolls`);
  - the cell tests of level 7 and of levels 10 and up (`Levels.Oracle`);
  - the penguin's walking step.
- Reading and writing files is an input or an output (`Editor.LevelEditor.SavePattern`, `Editor.LevelEditor.LoadPattern`).

Files:

| file | module | contents |
|---|---|---|
| wrappers.dfy | Wrappers | Option and Result |
| geometry.dfy | Geometry | SDL rectangles, intersection, `contains_point`, truncation |
| text.dfy | Text | decimal rendering of naturals, background paths |
| entities.dfy | Entities | constants, Block, Paddle, Bonus, Rocket, Particle, `check_collision` |
| ball.dfy | Balls | the ball as a step function and as a class |
| penguin.dfy | Penguins | the penguin state machine |
| levels.dfy | Levels | `create_blocks` |
| game.dfy | Games | the session and its tick |
| pattern.dfy | Patterns | the pattern text codec, reader and block conversion |
| editor.dfy | Editor | the level editor |
| menu.dfy | Menus | buttons, sliders, resolution confirmation, click dispatch |

## Model

| member | source | states |
|---|---|---|
| Geometry.NewRect | src/menu.rs:18-24 | `Rect::new` keeps the corner and any non-zero size; a zero width or height becomes 1, so the rectangle is never empty |
| Geometry.HasIntersection | src/entities.rs:669-671 | SDL's test: two rectangles meet iff neither is empty and each starts before the other ends, on both axes |
| Geometry.ContainsPoint | src/menu.rs:30-32 | SDL's `contains_point` (left and top inclusive, right and bottom exclusive) holds only for a non-empty rectangle |
| Geometry.PointIsUnitRect | src/menu.rs:30-32 | a point lies in a rectangle iff the 1×1 rectangle at that point meets it |
| Geometry.IntersectionIsCommonPoint | src/entities.rs:669-671 | SDL's interval intersection test holds exactly when some integer point lies in both rectangles (both directions) |
| Geometry.Trunc | src/entities.rs:242-244 | `as i32` truncates toward zero: for non-negative input it is the floor, for negative input the ceiling |
| Text.NatToString | src/menu.rs:163 | `{}` of an unsigned number is a non-empty string of decimal digits with no leading zero |
| Text.ParseNatToString | src/menu.rs:163 | reading back the decimal rendering gives the number, so distinct numbers render differently |
| Text.BackgroundPath | src/game.rs:77-79 | the background path is `assets/background`, then digits whose value is the level (or the editor's background, src/editor.rs:487-489), then `.png` |
| Entities.CheckCollision | src/entities.rs:669-671 | the collision test gives the same answer with the rectangles swapped |
| Entities.CollisionIsCommonPoint | src/entities.rs:669-671 | two rectangles collide iff some integer point lies in both |
| Entities.NewBlock | src/entities.rs:255-262 | a new block is active, at the given position and colour |
| Entities.Paddle.constructor | src/entities.rs:53-68 | the paddle starts centred, at normal width, with both bonus timers, ammo, velocity and spin zero |
| Entities.Paddle.MoveLeft | src/entities.rs:70-72 | moves 18 left but never past 0, and never moves right; keeps the paddle invariant |
| Entities.Paddle.MoveRight | src/entities.rs:74-76 | moves 18 right but never beyond `1280 - width`, and keeps x non-negative |
| Entities.Paddle.SetX | src/entities.rs:78-80 | clamps the target into `[0, 1280 - width]`: kept inside, the nearer bound outside |
| Entities.Paddle.ActivateLongBonus | src/entities.rs:82-85 | width becomes normal width + 40 and the bonus timer 300 |
| Entities.Paddle.ActivateGhostBonus | src/entities.rs:87-89 | the ghost timer becomes 600 |
| Entities.Paddle.AddRockets | src/entities.rs:91-93 | ammo rises by exactly one |
| Entities.Paddle.Update | src/entities.rs:95-115 | velocity is x minus the old last x, and last x becomes x; both timers count down and saturate at 0; the width returns to normal exactly on the tick the bonus timer reaches 0; the spin decays by 0.9 and snaps to 0 below 0.01 |
| Entities.Paddle.Rect | src/entities.rs:117-119 | the paddle's rectangle is at its x (never negative) with its top 50 pixels above the window's bottom, 22 high, and 140 wide or, exactly while the long-paddle timer runs, 180 wide |
| Entities.Bonus.constructor | src/entities.rs:277-284 | a new bonus is active, at the given position and of the given kind |
| Entities.Bonus.Update | src/entities.rs:286-291 | falls 2 pixels; it stays active iff it was active and is not below the window |
| Entities.Bonus.Rect | src/entities.rs:293-295 | a 40×40 box, `BonusBox` of the bonus, whose corner is within one pixel of the bonus's position |
| Entities.Rocket.constructor | src/entities.rs:305-311 | a new rocket is active at the given position |
| Entities.Rocket.Update | src/entities.rs:313-318 | climbs 8 pixels; it stays active iff it was active and is not above the window |
| Entities.Rocket.Rect | src/entities.rs:320-322 | a non-empty 10×20 box whose corner is within one pixel of the rocket's position |
| Entities.Particle.constructor | src/entities.rs:340-356 | a new shard has age 0 and the given motion, colour and lifetime |
| Entities.Particle.Update | src/entities.rs:358-364 | the shard moves by its velocity, gains 0.3 of downward speed, spins and ages one tick; a dead shard stays dead |
| Entities.Particle.IsAlive | src/entities.rs:366-368 | a shard is alive iff its age is below its lifetime (`ParticleState.Alive`) |
| Entities.Lifespan | src/entities.rs:358-368 | after k updates a shard's age has risen by k and its lifetime is unchanged, so it is alive for exactly `maxLifetime − lifetime` more ticks |
| Balls.Box | src/entities.rs:242-244 | the ball's rectangle is 12×12 and contains its truncated position |
| Balls.Fresh | src/entities.rs:135-147 | a new ball is active, at rest, attached, with an empty trail and launch timer 30 |
| Balls.LaunchVelX | src/entities.rs:154-160 | the launch speed is -4, 0 or 4; draw 0 gives -4 and draw 1 gives 0 |
| Balls.Launched | src/entities.rs:149-164 | only an attached ball launches: it then moves up at 4 with one of the three horizontal speeds and is detached; position, trail and the rest are unchanged |
| Balls.Record | src/entities.rs:186-198 | the position is pushed at the back, and the oldest entry is dropped once the trail is over its cap |
| Balls.NextTrail | src/entities.rs:186-202 | a trail of at most 20 stays at most 20; it is empty after a tick below 800 px/s; at speed it ends with the current position and loses at most its oldest entry; in the 800–1400 px/s tier a trail of at most 8 stays at most 8 |
| Balls.Moved | src/entities.rs:204-239 | after the move: 0 ≤ x ≤ 1268 and y ≥ 0; the horizontal speed is at least 2; the ball is active iff y < 720 |
| Balls.Flight | src/entities.rs:182-239 | a launched ball's tick records the trail from the speed before the move, then moves within the walls |
| Balls.Step | src/entities.rs:166-240 | an inactive ball is unchanged; an attached ball only counts its timer down, then launches, without moving; a launched ball flies and never re-attaches; a lost ball is never reactivated; the trail stays within 20 |
| Balls.AttachedCountdown | src/entities.rs:171-180 | an attached ball with timer t stays put and attached for t ticks and is launched upward, still in place, on tick t + 1 |
| Balls.LaunchAndLossAreFinal | src/entities.rs:166-240 | over any number of ticks a launched ball stays launched and an inactive ball stays exactly as it is |
| Balls.Ball.constructor | src/entities.rs:135-147 | the new ball's fields are `Fresh` |
| Balls.Ball.Launch | src/entities.rs:149-164 | the ball's new state is `Launched` of its old state |
| Balls.Ball.Update | src/entities.rs:166-240 | the ball's new state is `Step` of its old state |
| Balls.Ball.RecordTrail | src/entities.rs:186-202 | the new trail is `NextTrail` of the old state |
| Balls.Ball.Move | src/entities.rs:204-239 | the new state is `Moved` of the old state |
| Balls.Ball.Rect | src/entities.rs:242-244 | the ball's rectangle is `Box` of its state |
| Penguins.Spawned | src/entities.rs:396-405 | a new penguin is walking in, at frame 0, aimed at the given heart |
| Penguins.Tick | src/entities.rs:407-450 | the state only advances WalkingIn → Grabbing → RunningAway → Done, one step at most; Done is absorbing; the frame counter resets on the first two transitions and counts otherwise; the grab ends when the counter reaches 30; the penguin reaches the heart exactly when within 5 pixels; a grabbing or finished penguin stays put; a running penguin moves by (+7, +5) and is done exactly when its new x passes 1380 or its new y passes 820 |
| Penguins.GrabLastsThirtyTicks | src/entities.rs:429-435 | a penguin that has just reached the heart is still grabbing for ticks 0–29 and runs away, counter reset, on tick 30 |
| Penguins.GrabbingAfter | src/entities.rs:429-435 | while the counter stays below 30 the penguin keeps grabbing and the counter rises by one per tick |
| Penguins.TicksSplit | src/entities.rs:407-450 | a + b ticks are a ticks followed by b ticks |
| Penguins.DoneIsFinal | src/entities.rs:446-454 | a finished penguin stays finished however many ticks pass |
| Penguins.RunningAfter | src/entities.rs:436-444 | a running penguin whose next k steps stay within 1380 × 820 is still running after k ticks, moved by (7k, 5k), its counter up by k |
| Penguins.RunAwayFinishes | src/entities.rs:436-444 | a running penguin is done after n ≥ 1 ticks once x + 7n passes 1380 |
| Penguins.RunAwayWithinBound | src/entities.rs:436-444 | a penguin that starts running at x ≥ 0 is done within 198 ticks |
| Penguins.Penguin.constructor | src/entities.rs:396-405 | the new penguin is `Spawned` |
| Penguins.Penguin.Update | src/entities.rs:407-450 | the new pose is `Tick` of the old one, given the 5.5-pixel step toward the heart |
| Penguins.Penguin.IsDone | src/entities.rs:452-454 | `is_done` holds iff the pose is in the last state of the animation, which RunAwayFinishes shows every running penguin reaches |
| Levels.ISqrt | src/entities.rs:515-522 | `sqrt(n) as i32` for a whole number n is the r with r² ≤ n < (r+1)² |
| Levels.CellBlock | src/entities.rs:480-484 | the block of cell (row, col) is active, at x = 40 + 60·col and y = 80 + 20·row, with colour `BLOCK_COLORS[row % 6]` |
| Levels.CellCoordinates | src/entities.rs:480-484 | a cell's block lies in that cell's row and column |
| Levels.ShouldAdd | src/entities.rs:486-650 | level 1 places every block; level 7 and levels 10 and up place exactly what the unmodelled cell test answers (the other levels' shapes are in the lemmas below) |
| Levels.CreateBlocks | src/entities.rs:468-667 | the loop returns `Generate(level, _, 0)`, the first pass the loop accepts |
| Levels.ScanStep | src/entities.rs:480-656 | visiting one more cell appends that cell's block exactly when the level places one there |
| Levels.ScanShape | src/entities.rs:480-656 | the scan holds at most one block per visited cell, each the block of a visited cell, in strict row-major order |
| Levels.ScanMembership | src/entities.rs:480-656 | a cell's block is in the scan iff the cell was visited and the level places a block there |
| Levels.LayoutShape | src/entities.rs:480-656 | a pass yields at most 200 blocks, each the block of a grid cell, positions distinct and in row-major order |
| Levels.LayoutMembership | src/entities.rs:480-656 | a cell's block is in a pass iff the level's cell test holds for it |
| Levels.CheckerboardAndStripes | src/entities.rs:489-491 | level 2 places a block iff row + col is even, level 3 iff the row is even |
| Levels.FramePyramidAndHoles | src/entities.rs:492-528 | level 4 fills its top and bottom rows; level 5's top row holds only the middle column; level 9 has no block where row and column are both 1 mod 4 or where row + col is a multiple of 7 |
| Levels.FullScan | src/entities.rs:489 | level 1 places a block in every visited cell |
| Levels.FullGrid | src/entities.rs:489 | level 1 yields all 200 blocks |
| Levels.ScanIgnoresOracle | src/entities.rs:486-531 | for levels up to 9 other than 7 the scan depends on neither the attempt nor the random source |
| Levels.FixedLevelsAreDeterministic | src/entities.rs:658-662 | levels up to 9 return their first pass, and levels up to 9 other than 7 always yield the same blocks |
| Levels.GenerateFrom | src/entities.rs:660-666 | starting from any pass, the loop returns the first accepted pass at or after it, and at most the 10th retry |
| Levels.FirstAcceptedPass | src/entities.rs:660-666 | the loop makes at most 11 passes; it returns the first with at least 20 blocks, or the 11th, or (levels up to 9) the first; every pass before it had fewer than 20 blocks |
| Levels.Generate | src/entities.rs:658-666 | levels up to 9 return the pass it starts with; a level above 9 with fewer than 20 blocks is the layout of the 10th retry |
| Levels.EarlyLevelsHaveBlocks | src/entities.rs:486-504 | levels up to 6 have at least one block, all active |
| Games.Toggled | src/game.rs:212-220 | Playing and Paused swap (both directions); every other state is unchanged |
| Games.ToggleTwice | src/game.rs:212-220 | toggling twice restores the state |
| Games.AfterLevel | src/game.rs:54-60 | the next state is LevelTransition iff the level is below 6, and Victory iff it is 6 or more |
| Games.ClearedIffNoneActive | src/game.rs:193-195 | every block is broken iff the count of unbroken blocks is zero |
| Games.AllActiveCount | src/game.rs:41 | a freshly built level counts all its blocks as unbroken |
| Games.BreakOne | src/game.rs:108-112 | breaking one unbroken block lowers the unbroken count by exactly one |
| Games.FirstHit | src/game.rs:108-109 | the index found is the first unbroken block the ball overlaps, or past the end if there is none |
| Games.PaddleBounce | src/game.rs:97-103 | after the paddle bounce the ball moves up at the same vertical speed; its horizontal speed rises, falls or stays as the ball's centre is right of, left of or at the paddle's centre |
| Games.BallMove | src/game.rs:93-105 | a ball's tick is `Step` followed by the paddle bounce if the moved ball overlaps the paddle; afterwards a ball overlapping the paddle is not moving down |
| Games.LiveBalls | src/game.rs:174 | `retain` on the balls: a motion survives iff it was in the list and active, and the list never grows |
| Games.NoneLive | src/game.rs:174-179 | the retained ball list is empty iff no ball was active, which is when a life is taken |
| Games.LiveBonuses | src/game.rs:175 | `retain` on the bonuses: a bonus survives iff it was in the list and active, and the list never grows |
| Games.LiveParticles | src/game.rs:176 | `retain` on the particles: a particle survives iff it was in the list and alive, and the list never grows |
| Games.Struck | src/game.rs:107-109 | the block a moved ball breaks is an unbroken block it overlaps, with no unbroken overlapped block before it; an active ball overlapping none, or an inactive ball, breaks none |
| Games.BallStep | src/game.rs:93-138 | one turn of the ball loop adds the motion of exactly the next ball and leaves the balls already handled as they were |
| Games.BallLoop | src/game.rs:92-139 | the loop over the first n balls yields one motion per ball |
| Games.BallLoopSnoc | src/game.rs:92-139 | the loop over k + 1 balls is the loop over k balls followed by the turn of ball k, so the balls are handled in order |
| Games.BallLoopBreaks | src/game.rs:92-139 | over the ball loop blocks are only broken, never restored; one burst is queued per break; at most one block breaks per ball; at most one bonus drops per break; any break leaves a ball in play |
| Games.BonusStep | src/game.rs:147-165 | one turn of the bonus loop adds the state of exactly the next bonus, keeps those already handled, and only appends served balls |
| Games.BonusLoop | src/game.rs:146-166 | the loop over the first n bonuses yields one state per bonus |
| Games.BonusLoopSnoc | src/game.rs:146-166 | the loop over k + 1 bonuses is the loop over k bonuses followed by the turn of bonus k |
| Games.BurstParticles | src/game.rs:141-144 | the queued bursts spawn exactly as many particles as shards were drawn for them |
| Games.BurstParticlesAt | src/game.rs:198-210 | shard n of burst h is the particle at `ShardTotal(h) + n`: at the burst's point, in its colour, at age 0, with the shard's speed, spin, lifetime and size |
| Games.MoveBreaks | src/game.rs:86-176 | a tick's moves only break unbroken blocks; the hit count is the drop in unbroken blocks and at most the number of balls; the old balls stay at the front; after a break some ball survives the `retain` |
| Games.MoveAll | src/game.rs:86-176 | the old balls and bonuses all stay in the lists; the particles are the old ones, each `Drifted` in place, followed by one per shard of the tick's bursts |
| Games.Game.NewLevel | src/game.rs:30-48 | a new session is Playing with 3 lives, score 0, the level's blocks, a paddle in the state `Paddle::new` gives, one attached ball at the window centre, and no bonuses or particles; it is consistent |
| Games.Game.LevelHasBlocks | src/game.rs:30-48 | a level below 6 starts with at least one unbroken block |
| Games.Game.Reset | src/game.rs:50-52 | reset gives the state of `new_level(1)`, new paddle state included |
| Games.Game.Restart | src/game.rs:30-52 | the session is overwritten with the state `new_level(level)` builds: Playing, 3 lives, score 0, the level's blocks, a paddle in its new state and one fresh attached ball, nothing falling; it is consistent |
| Games.Game.EnterLevel | src/game.rs:62-75 | the level part shared by `new_level` and `start_next_level`: the level's blocks, no bonuses or particles, Playing, and a block to break before the last level |
| Games.Game.TogglePause | src/game.rs:212-220 | the state becomes `Toggled` of the old state, and the session invariant is kept |
| Games.Game.NextLevel | src/game.rs:54-60 | the state becomes `AfterLevel(current_level)` |
| Games.Game.StartNextLevel | src/game.rs:62-75 | below level 6: the level rises by exactly 1, with a paddle in its new state, one fresh ball, the new level's blocks, no bonuses or particles, state Playing, and score and lives kept; from level 6 on nothing changes |
| Games.Game.Update | src/game.rs:81-196 | outside Playing nothing changes. In play the paddle, blocks, bonuses and particles end as the moves (`MoveAll`) and the `retain`s make them; the score rises by 10 per break; a life goes iff no moved ball is active, and then one fresh ball is served at the centre unless the lives reach 0; blocks are only broken, at most one per old ball, and a break means no life is lost; a cleared grid gives `AfterLevel`, otherwise Playing, or GameOver at 0 lives; every ball and bonus left is active and every particle alive; the session invariant is kept |
| Games.Game.Tick | src/game.rs:86-195 | the tick in play, as for `Update`; the session invariant holds afterwards whenever a ball survives, a block remains or the level is the last |
| Games.Game.Advance | src/game.rs:86-176 | paddle, blocks and score end as `MoveAll` says, and balls, bonuses and particles are the survivors of `MoveAll`'s lists |
| Games.Game.Move | src/game.rs:86-171 | the paddle, ball, particle-spawning, bonus and particle loops, in that order, end exactly as `MoveAll` says, with 10 points per break |
| Games.Game.Compact | src/game.rs:173-176 | each list becomes its `retain` (`LiveBalls`, `LiveBonuses`, `LiveParticles`), so every ball and bonus left is active and every particle alive |
| Games.Game.Settle | src/game.rs:178-195 | a life goes iff the retained ball list is empty; at 0 lives the game is over with no ball, otherwise one fresh ball is served at the centre; a cleared grid gives `AfterLevel`, otherwise Playing or GameOver; the session invariant holds when a ball, a block or the last level remains |
| Games.Game.StepBalls | src/game.rs:92-139 | balls, blocks, queued bursts and dropped bonuses end as `BallLoop` over the old balls says, with 10 points per burst |
| Games.Game.TickOneBall | src/game.rs:93-138 | one iteration is `BallStep` from the round the loop has reached: only ball i changes, and blocks, bursts, score and dropped bonuses follow |
| Games.Game.BallTick | src/game.rs:94-105 | one ball's update and paddle test give `BallMove` of its old state; no other ball changes |
| Games.Game.FindHit | src/game.rs:108-109 | the inner loop's search stops at `Struck`: the first unbroken block the active ball overlaps, or past the end |
| Games.Game.HitFirstBlock | src/game.rs:107-138 | on a hit, exactly the struck block is broken, the ball's vertical speed flips, 10 points are scored, the burst is at the block's centre in its colour, and a drawn bonus falls from the middle of the block's top edge; with no hit nothing changes |
| Games.Game.SpawnParticles | src/game.rs:141-144 | the particles become the old ones followed by `BurstParticles` of the queued bursts |
| Games.Game.StepBonuses | src/game.rs:146-166 | bonuses, served balls and the paddle end as `BonusLoop` over the old bonuses says |
| Games.Game.TickBonus | src/game.rs:147-165 | the bonus falls; it is caught iff still active and overlapping the paddle; a caught bonus is used up, and an extra ball adds a fresh ball at (paddle x + width/2, paddle y − 20) while a long paddle lengthens the paddle; otherwise only the fall happens |
| Games.Game.StepParticles | src/game.rs:168-171 | every particle takes its own tick (`Drifted`), keeping count and order |
| Patterns.EmptyGrid | src/editor.rs:75 | the grid is 10×20 and every cell is empty |
| Patterns.NewPattern | src/editor.rs:25-30 | a new pattern has the given name and an all-empty 10×20 grid |
| Patterns.EncodeCell | src/editor.rs:52-62 | the character is `*` iff the cell is empty; otherwise it is a digit |
| Patterns.DecodeChar | src/editor.rs:96-107 | every character decodes to a representable cell; characters outside `012345678IEU` give an empty cell; `I`, `E`, `U` read as `6`, `7`, `8` |
| Patterns.CellRoundTrip | src/editor.rs:52-62 | decoding the character written for an empty cell, a normal cell of colour 0–5, or a special cell of colour 0 gives the cell back |
| Patterns.CharRoundTrip | src/editor.rs:96-107 | encoding the cell read from `*` or `0`–`8` gives the character back |
| Patterns.RowText | src/editor.rs:49-65 | a row's line has one character per cell, each the cell's encoding |
| Patterns.SaveContent | src/editor.rs:41-66 | the text built is the name line, the legend line, a blank line, then one line of 20 characters per grid row |
| Patterns.EncodeRow | src/editor.rs:50-64 | the inner loop writes one character per cell, giving `RowText` of the row |
| Patterns.LineEnd | src/editor.rs:85 | the first newline of the text, or its end |
| Patterns.Parse | src/editor.rs:73-115 | the parsed grid is 10×20 and every cell is representable |
| Patterns.Load | src/editor.rs:73-115 | the loop fills the grid `Parse` describes: comment and blank lines skipped, at most 10 rows, at most 20 characters per row, unread cells empty |
| Patterns.ReadLines | src/editor.rs:85-112 | the line loop turns an empty grid into the cells `Parse` reads: comment and blank lines skipped, stopping after 10 grid lines |
| Patterns.ReadRow | src/editor.rs:95-109 | reading one line changes only its grid row: the first 20 characters are decoded into their cells, cells past the line's end keep their value |
| Patterns.ParsedPrefix | src/editor.rs:85-93 | stopping after 10 grid lines, or when the text ends, reads the same grid as reading every grid line |
| Patterns.LinesCons | src/editor.rs:85 | a line ended by a newline splits off as the first line |
| Patterns.Lines | src/editor.rs:85 | `str::lines` yields no more lines than characters, none for the empty text and at least one otherwise, and no line holds a newline |
| Patterns.DataLinesAppend | src/editor.rs:87-89 | the skip filter distributes over concatenation |
| Patterns.RowLine | src/editor.rs:49-65 | a written row line has no newline, no final carriage return, and is not skipped |
| Patterns.GridText | src/editor.rs:49-66 | the written grid is empty iff the grid has no rows, and otherwise ends with a newline |
| Patterns.Content | src/editor.rs:45-66 | the saved text starts with `# Pattern: ` and the name and ends with a newline; ContentData and SaveLoadRoundTrip read it back |
| Patterns.GridLines | src/editor.rs:49-66 | the written grid reads back as exactly its row lines |
| Patterns.RowTextsAreData | src/editor.rs:87-89 | no written row line is skipped |
| Patterns.DataLinesSingle | src/editor.rs:87-89 | a single line is dropped iff it starts with `#` or is all whitespace |
| Patterns.NameLine | src/editor.rs:45 | the name line reads back as one line starting with `#` |
| Patterns.LegendIsComment | src/editor.rs:46 | the legend is one line starting with `#` |
| Patterns.CommentAndBlank | src/editor.rs:46 | a comment line and a blank line split off as two lines |
| Patterns.HeaderLines | src/editor.rs:45-46 | the header splits into the name line, the legend and a blank line |
| Patterns.HeaderData | src/editor.rs:87-89 | the three header lines are all skipped |
| Patterns.ContentData | src/editor.rs:45-66 | the lines the reader keeps from a saved file are exactly the grid's row lines |
| Patterns.SaveLoadRoundTrip | src/editor.rs:38-115 | loading the saved text of a grid of representable cells gives the grid back |
| Patterns.CellBlock | src/editor.rs:144-150 | the block of a non-empty cell is active, at x = 40 + 60·col and y = 80 + 20·row, with colour `BLOCK_COLORS[index % 6]` and the cell's type |
| Patterns.CreateBlocksFromPattern | src/editor.rs:137-156 | the two loops return the blocks of every row, top to bottom (`PatternScan`) |
| Patterns.PatternScan | src/editor.rs:137-156 | every block of a pattern is active (PatternBlocks: one per non-empty cell, in row-major order) |
| Patterns.PushRow | src/editor.rs:143-153 | the inner loop appends the blocks of the row's non-empty cells, left to right (`RowScan`) |
| Patterns.CellBlockPlace | src/editor.rs:144-150 | a cell's block lies in that cell's row and column |
| Patterns.RowScanMembers | src/editor.rs:143-152 | every block pushed for a row is the block of a non-empty cell of that row among the columns visited, at most one per column |
| Patterns.RowScanSorted | src/editor.rs:143-152 | the blocks of one row are pushed strictly left to right |
| Patterns.RowScanMembership | src/editor.rs:143-152 | a cell's block is pushed for its row iff its column was visited and the cell is not empty |
| Patterns.GridScanMembers | src/editor.rs:142-153 | every block pushed for the visited rows is the block of a non-empty cell in one of them |
| Patterns.GridScanSorted | src/editor.rs:142-153 | the blocks of the visited rows are pushed in strictly row-major order |
| Patterns.GridScanMembership | src/editor.rs:142-153 | a cell's block is pushed iff its row was visited and the cell is not empty |
| Patterns.PatternBlocks | src/editor.rs:137-156 | one block per non-empty cell and no other, in row-major order |
| Editor.TruncDiv | src/editor.rs:327-328 | Rust's `/` on `i32`: the quotient rounds toward zero |
| Editor.SnapTo | src/editor.rs:394-398 | a point inside the grid snaps to the top-left corner of the cell containing it |
| Editor.Style | src/editor.rs:406-411 | palette entries 6, 7, 8 give Ice, Explosive, Undestroyable in colour 0, each iff; any other entry gives a normal block of colour `index % 6` |
| Editor.AddedAt | src/editor.rs:382-414 | outside the grid nothing changes; otherwise the snapped cell is occupied afterwards; at most one block is appended, and only to a free cell, with the selected style; existing blocks are kept in order; distinct positions are preserved |
| Editor.Retained | src/editor.rs:434 | `retain` keeps exactly the blocks not at the position |
| Editor.RetainedAppend | src/editor.rs:434 | `retain` distributes over concatenation, so order is kept |
| Editor.RetainedSnoc | src/editor.rs:434 | retaining one more block keeps it exactly when it is not at the position |
| Editor.RetainedUnoccupied | src/editor.rs:434 | removing from an empty cell changes nothing |
| Editor.RetainedKeepsDistinct | src/editor.rs:434 | removal keeps the editor's blocks well placed |
| Editor.Retain | src/editor.rs:434 | the loop computes `Retained` |
| Editor.RemovedAt | src/editor.rs:416-435 | outside the grid nothing changes; otherwise exactly the blocks at the snapped cell go |
| Editor.AddThenRemove | src/editor.rs:382-435 | adding to a free cell and then removing at the same point restores the block list |
| Editor.NextBackground | src/editor.rs:479-481 | the next background is in 1..6 |
| Editor.PrevBackground | src/editor.rs:483-485 | from any background up to 7 the previous one is in 1..6 |
| Editor.BackgroundCycle | src/editor.rs:479-485 | on 1..6 next and previous are inverses, six steps return to the start, and neither step is ever a fixed point |
| Editor.MessageStep | src/editor.rs:491-499 | the timer counts down to 0 and the message is cleared on the tick it reaches 0 |
| Editor.MessageCountsDown | src/editor.rs:491-499 | before the timer runs out the message stays and the timer falls by one per tick |
| Editor.MessageStaysCleared | src/editor.rs:491-499 | a cleared message stays cleared |
| Editor.MessageLifetime | src/editor.rs:501-504 | a message shown stays for exactly 180 ticks and is gone from tick 180 on |
| Editor.MessageStepsSplit | src/editor.rs:491-499 | a + b ticks are a ticks followed by b ticks |
| Editor.PaletteIndex | src/editor.rs:332-340 | the index is that of the first palette colour equal to the block's colour, or 6 if there is none |
| Editor.Written | src/editor.rs:325-343 | each cell is empty or holds a palette index below 6 |
| Editor.SavedGrid | src/editor.rs:319-343 | the grid built for saving is 10×20 |
| Editor.BuildGrid | src/editor.rs:319-343 | the loop over the blocks builds `SavedGrid`, the last block written to a cell winning |
| Editor.WriteBlock | src/editor.rs:325-341 | one block writes its palette index and type into its own cell exactly when it is active, over the grid and in a palette colour; every other cell is unchanged |
| Editor.RowFilledZero | src/editor.rs:346-349 | a row counts no blocks iff all its cells are empty |
| Editor.FilledCountZero | src/editor.rs:346-349 | the grid counts no blocks iff all its cells are empty |
| Editor.WrittenIffSaved | src/editor.rs:325-343 | a cell is filled iff some active block of palette colour lies in it |
| Editor.SaveRefusedIffNothingSaved | src/editor.rs:345-353 | saving is refused iff no block is active, inside the grid and of a palette colour |
| Editor.PlacedCell | src/editor.rs:327-340 | a well-placed block is saved to its own cell as its palette index and type, which the format can carry |
| Editor.WrittenByOwner | src/editor.rs:325-343 | with distinct positions, each block's cell holds that block's own entry |
| Editor.WrittenRepresentable | src/editor.rs:325-343 | every cell written from the editor's blocks is representable and comes from a block in it |
| Editor.LoadedBlock | src/editor.rs:285-302 | a saved cell loads back as the very block it came from |
| Editor.EditorRoundTrip | src/editor.rs:277-362 | saving the editor's blocks and loading the text gives exactly the same blocks, in row-major order |
| Editor.SavedGridRepresentable | src/editor.rs:325-341 | every cell of the grid saved from well-placed blocks can be written to text |
| Editor.SavedBlocksLoad | src/editor.rs:277-362 | every block of the editor comes back when its saved grid is loaded |
| Editor.LoadedBlocksWereSaved | src/editor.rs:277-362 | every block loaded from the saved grid is one of the editor's blocks |
| Editor.LoadedWellPlaced | src/editor.rs:285-305 | blocks loaded from a pattern are well placed, so the editor's invariant holds after a load |
| Editor.LevelEditor.constructor | src/editor.rs:212-256 | the editor starts empty: palette entry 0, name `my_pattern`, no message, background 1, no drag, no pending clear |
| Editor.LevelEditor.ShowMessage | src/editor.rs:501-504 | the message is set and its timer is 180; nothing else changes |
| Editor.LevelEditor.AddBlockAt | src/editor.rs:382-414 | the blocks become `AddedAt` of the old blocks, and the invariant is kept |
| Editor.AnyAt | src/editor.rs:400 | the scan finds a block exactly when one is at the snapped position |
| Editor.LevelEditor.RemoveBlockAt | src/editor.rs:416-435 | the blocks become `RemovedAt` of the old blocks |
| Editor.LevelEditor.StartDragLeft | src/editor.rs:437-441 | left drag starts at the point and a block is added there; only the left-drag flag, the drag position and the blocks change |
| Editor.LevelEditor.StartDragRight | src/editor.rs:443-447 | right drag starts at the point and the block there is removed; only the right-drag flag, the drag position and the blocks change |
| Editor.LevelEditor.UpdateDrag | src/editor.rs:449-457 | a left drag adds, else a right drag removes, at the point, which becomes the last drag position; with no drag nothing changes; only the blocks and the drag position can change |
| Editor.LevelEditor.StopDrag | src/editor.rs:459-463 | both drags end and no drag position remains |
| Editor.LevelEditor.RequestClear | src/editor.rs:364-369 | with no blocks nothing changes; otherwise a clear is pending and the prompt is shown; nothing else changes |
| Editor.LevelEditor.Clear | src/editor.rs:371-375 | all blocks go, no clear is pending, and `Pattern cleared` is shown; nothing else changes |
| Editor.LevelEditor.CancelClear | src/editor.rs:377-380 | no clear is pending and the message is empty |
| Editor.LevelEditor.NextBackgroundPressed | src/editor.rs:479-481 | the background becomes `NextBackground` of the old one |
| Editor.LevelEditor.PrevBackgroundPressed | src/editor.rs:483-485 | the background becomes `PrevBackground` of the old one |
| Editor.LevelEditor.Update | src/editor.rs:491-499 | the frame counter wraps at 2^64, and message and timer take one `MessageStep` |
| Editor.LevelEditor.HandleTextInput | src/editor.rs:506-510 | while editing, the text is appended to the name; otherwise nothing changes |
| Editor.LevelEditor.HandleBackspace | src/editor.rs:512-516 | while editing a non-empty name its last character goes; otherwise nothing changes |
| Editor.LevelEditor.SavePattern | src/editor.rs:318-362 | an empty grid is refused with `Pattern must have at least one block`; a write error is reported with `Failed to save: `; otherwise the file `patterns/<name>.txt` holds `Content` of the grid and `Saved: <name>.txt` is shown |
| Editor.LevelEditor.LoadPattern | src/editor.rs:277-316 | a read error is reported and shown, and blocks and name are kept; otherwise the blocks are those of the parsed pattern, the name is taken, and `Loaded pattern: <name>` is shown; only blocks, name and message change |
| Menus.NewButton | src/menu.rs:18-24 | a button has `Rect::new` of its geometry and the given caption |
| Menus.IsClicked | src/menu.rs:30-32 | a click lands only on a non-empty button, at or right of and below its corner |
| Menus.ButtonCorners | src/menu.rs:30-32 | a button takes clicks on its top-left and bottom-right pixels but not one pixel past its right or bottom edge |
| Menus.Clamp | src/menu.rs:69-71 | the result is within the bounds, equal to the input inside them and to the nearer bound outside |
| Menus.SliderValue | src/menu.rs:59-62 | the volume under the mouse is in 0..128: 0 at or left of the slider, 128 at or right of its end |
| Menus.ScaleBounds | src/menu.rs:60-61 | an offset within the slider's width scales into 0..128, with 0 at 0 and 128 at the full width |
| Menus.SliderMonotone | src/menu.rs:59-62 | moving the mouse right never lowers the volume |
| Menus.SliderStep | src/menu.rs:50-63 | dragging afterwards iff the button is down and the slider was being dragged or is pressed now; the value changes only while dragging, and then to the volume under the mouse |
| Menus.SliderStaysInRange | src/menu.rs:50-63 | a volume in 0..128 stays in 0..128 whatever the mouse does |
| Menus.VolumeSlider.constructor | src/menu.rs:42-48 | a slider is 20 high, at volume 64, not dragging |
| Menus.VolumeSlider.Update | src/menu.rs:50-63 | value and dragging become `SliderStep` of the old ones; the rectangle is kept |
| Menus.VolumeSlider.SetValue | src/menu.rs:69-71 | the value is the input clamped to 0..128 |
| Menus.ResolutionLabel | src/menu.rs:163 | the label is the width's digits, `x`, the height's digits |
| Menus.IndexOf | src/menu.rs:293-298 | the first index holding the resolution, or none iff it is not a preset |
| Menus.PresetSelectsItself | src/menu.rs:118-124 | the presets are distinct, so choosing preset i selects index i |
| Menus.TimerTick | src/menu.rs:310-322 | with no timer: false and unchanged; with t > 0: decrement and false; at 0: true and unchanged |
| Menus.TimerCountsDown | src/menu.rs:310-322 | n ticks from k ≥ n leave k − n |
| Menus.TimerStaysExpired | src/menu.rs:310-322 | an expired timer stays at 0 |
| Menus.ConfirmationWindow | src/menu.rs:305-322 | after the confirmation starts, the timer reports expiry exactly from its 301st call on |
| Menus.TimerAfterSplit | src/menu.rs:310-322 | a + b ticks are a ticks followed by b ticks |
| Menus.Menu.constructor | src/menu.rs:113-194 | the main menu; every button at its place and size with its caption (`New Game`, `Restart`, `Gravity Mode`, `Level Editor`, `Settings`, `Quit`, the toggles, `Keep`, `Revert`, `Back`, `Github`); both sliders 200×20 at their rows, at volume 64, not dragging; one 200×30 button per preset stacked 35 apart below the toggles, label `1280x720`, preset 0 selected, nothing pending, only vsync on |
| Menus.Menu.ResolutionButtons | src/menu.rs:152-168 | one button per preset, in order: 200×30, labelled `<w>x<h>`, the j-th 35·j below the first |
| Menus.Menu.UpdateSlider | src/menu.rs:231-236 | the sliders take one `SliderStep` in the settings menu and are unchanged elsewhere |
| Menus.Menu.SetMusicMuted | src/menu.rs:240-247 | the flag is set and the caption reads `Music: OFF` or `Music: ON` |
| Menus.Menu.SetSfxMuted | src/menu.rs:249-256 | the flag is set and the caption reads `SFX: OFF` or `SFX: ON` |
| Menus.Menu.SetFullscreen | src/menu.rs:258-265 | the flag is set and the caption reads `Fullscreen` or `Windowed` |
| Menus.Menu.SetGravityMode | src/menu.rs:267-270 | the flag is set and the caption is kept |
| Menus.Menu.SetVsync | src/menu.rs:272-279 | the flag is set and the caption reads `VSync: ON` or `VSync: OFF` |
| Menus.Menu.SetGameStarted | src/menu.rs:281-288 | the flag is set and the first button reads `Resume` or `New Game` |
| Menus.Menu.SetResolution | src/menu.rs:290-299 | the label shows any resolution; the selection moves to the first matching preset, stays otherwise, and remains a valid preset index |
| Menus.Menu.SelectedResolution | src/menu.rs:301-303 | the selected resolution is always one of the presets, never out of bounds |
| Menus.Menu.StartResolutionConfirmation | src/menu.rs:305-308 | the previous resolution is pending and the timer is 300 |
| Menus.Menu.UpdateResolutionTimer | src/menu.rs:310-322 | timer and result are `TimerTick` of the old timer |
| Menus.Menu.ConfirmResolution | src/menu.rs:324-327 | nothing pending and no timer |
| Menus.Menu.CancelResolution | src/menu.rs:329-334 | returns the pending resolution, then nothing pending and no timer |
| Menus.FirstClicked | src/menu.rs:413-417 | the first resolution button under the mouse, or none if none is |
| Menus.HandleMenuClick | src/menu.rs:357-425 | the action is the first match of the current menu's buttons, as `ClickAction` lists them |
| Menus.ClickAction | src/menu.rs:357-425 | the main menu yields only its own actions; while a resolution change awaits confirmation only its confirm and cancel buttons respond; Resume needs a started game and New Game its absence; a selected resolution is one of the buttons |
| Menus.ConfirmationBlocksSettings | src/menu.rs:387-398 | in settings with a confirmation running, a click gives only Keep, Revert or nothing, and Keep iff the Keep button is under the mouse |
| Menus.ResumeOrNewGame | src/menu.rs:358-367 | in the main menu the first button gives Resume iff a game has started and NewGame iff not, ahead of every other button |
| Menus.SelectionIsFirstHit | src/menu.rs:399-417 | a resolution is selected only in settings with no confirmation, on the first preset button under the mouse, with no toggle above the list under it |
| Menus.ActionNeedsButton | src/menu.rs:357-425 | any click that does something lies on a button of the current menu |

## Left out

- Rendering (src/rendering.rs), audio (src/audio.rs), settings persistence (src/settings.rs) and the SDL event loop (src/main.rs) are not part of this model. They are drawing, a sound library, JSON file I/O and the window loop.
- Hover highlighting is presentation. This covers `Button::update_hover`, `Menu::update_hover`, `LevelEditor::update_hover` and the editor's `ColorButton`.
- `VolumeSlider::get_value` only reads the `value` field. `Particle::alpha` is a drawing value.
- `version_string` of the menu is fixed when the program is built.
- The editor's button layout, its pattern browser fields, `discover_patterns` and `load_all_patterns` are left out. They are directory listing and presentation.
- Games.Game.Update: the `play_sound` callback is not modelled; it only triggers audio.
- Games.Game.Update: `create_particles` draws 10–15 shards at random angles and speeds. Here the shards of each burst are an input (`Rolls.shards`); their count and range are not constrained.
- Games.Game.Update: the 15% bonus-drop chance and the coin flip for its kind are the inputs `Rolls.drop` and `Rolls.extraBall`, listed per break in the order the tick breaks blocks. Probabilities are not modelled.
- Games.Rolls: a draw past the end of its list reads as launch direction 1 (straight up), no drop and a long paddle. Any sequence of draws the game can make is a list long enough to need none of these.
- Games.Game: balls, bonuses and particles are held as values (`Motion`, `BonusState`, `ParticleState`), since a Rust `Vec` owns its elements. Their ticks are `Balls.Step` with `Games.BallMove`, `Entities.Fallen` and `Entities.Drifted`. The classes `Balls.Ball`, `Entities.Bonus` and `Entities.Particle` model the same methods on a single object and agree with these functions.
- Games.Game.StepBonuses: game.rs matches only ExtraBall and LongPaddle although entities.rs declares four kinds. A caught GhostBall or Rocket bonus has no effect here; the game never drops those two kinds.
- Games.Game.StartNextLevel: the session invariant is kept unless the call comes from GameOver. The game loop only calls it from LevelTransition.
- Balls.Step: the launch direction drawn by `rand::thread_rng` is the parameter `direction`.
- Penguins.Penguin.Update: the walking step `5.5 * (dx, dy) / dist` needs a square root. It is a parameter constrained by `TowardTarget`: parallel to the offset, pointing at the heart, of length 5.5.
- Entities.Particle.constructor: the rotation, spin, lifetime and size drawn at random are parameters.
- Levels.CreateBlocks: level 7 (`atan2` and `sin`) and levels 10 and up (a seeded `StdRng` and trigonometry) are given by the `Oracle` parameter. Only the retry loop around them is modelled.
- Levels.ISqrt: level 8 takes `f32` `sqrt` of a whole number and truncates it. The model uses the exact integer square root, which assumes the float square root of these small numbers is exact enough to truncate to the same value.
- Floating-point rounding is not modelled: `f32` values are exact reals. Integer widths are not modelled either: `u32` score and lives and `i32` positions are unbounded. The only wrap-around the source relies on, the editor's `u64` frame counter, is modelled.
- Editor.LevelEditor.LoadPattern: `load_from_file` takes the pattern name from the file stem of `patterns/<name>.txt`. Here that stem is the requested name. A `.` in the name is harmless, since the stem drops only the last extension. The stem differs for a name containing a `/`, and for the empty name, whose file `patterns/.txt` has the stem `.txt`.
- Editor.LevelEditor.LoadPattern: the editor's loaded blocks also carry `health` and `max_health` set to 1. The editor's `Block` here has no health.
- Editor.LevelEditor.SavePattern: creating the directory and writing the file are the `writeError` input. The result returns the path and content instead of writing them.
- Patterns.SaveLoadRoundTrip: requires the pattern name to hold no newline. Such a name would put its tail on a line of its own, which the reader would take as a grid row.
- Patterns.Lines: `str::lines` is modelled on characters. A `\r` is dropped only before a `\n`, and `trim` uses Unicode White_Space.
