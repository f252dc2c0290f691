# Space Invaders simulation core in Dafny

This project models the simulation core of a small Space Invaders game written in Rust on the ggez engine. Every game object is one `GameObj` record: a kind tag, a sprite value, a position, a speed, a direction, a hit-circle size and hit points. The game state owns the player plus four collections: enemies, barriers, player shots and enemy shots. It also holds the score, the level, three countdown timers and a flag saying the on-screen texts need rebuilding.

One fixed-length tick runs three phases:

1. **Fire phase.** The sprite timer and both fire cooldowns run down, and each side may add one shot.
2. **Motion phase.**
   - The player moves and is clamped to the playing field.
   - Shots move and are marked dead when they leave the screen.
   - Every enemy gets the shared formation speed and, when the sprite timer has run out, flips its sprite.
   - The edge and bottom tests run over every enemy.
   - If any enemy is past a side bound, the whole formation drops 15 units and turns around.
   - Every enemy moves.
3. **Resolve phase.**
   - The seven pairwise collision rules change hit points, barrier sprite stages and the score.
   - Dead objects (hit points exactly 0) are purged.
   - When the last enemy is gone, a new wave is spawned.
   - The refresh flag is flushed.
   - The game ends once the player's hit points are at or below 0.

The source contains the logic twice. `space_invaders/src/main.rs` has it inline. `ms.rs`, `go.rs` and `asse.rs` hold a modular copy that works through getters and setters. Both copies do the same thing, and the model follows both. Positions, sizes, speeds and times are `real`; hit points, sprite values, score and level are `int`.

Modules, in dependency order:

- `Entity` (`entity.dfy`): the record, its setters, the motion step and the per-kind constructors.
- `Sprites` (`sprites.dfy`): the image chosen for a (kind, sprite value) pair.
- `Formation` (`formation.dfy`): the 5 x 11 enemy grid and the row of four barriers.
- `Bounds` (`bounds.dfy`): the player clamp, the shot cull, the per-enemy edge test, the formation scan and the descend-and-reverse sweep.
- `State` (`state.dfy`): the game state record and its kind discipline.
- `Collisions` (`collisions.dfy`): the seven rules as the source's nested loops, each proved equal to a closed form.
  - The overlap test reads only positions and sizes, and no rule writes either.
  - The closed form therefore counts overlaps in the state as it was before the pass.
- `Lifecycle` (`lifecycle.dfy`): the purge and the wave respawn.
  - The purge is defined as an order-preserving filter.
  - The source's index-list removal is proved to compute exactly that filter.
- `Game` (`game.dfy`): shot activation, the cooldown rule, the three phases, the tick, and the invariant every tick keeps.

Two details of the code are easy to misread, and the model follows the code in both:

- **Hit points have no floor.** A shot on a barrier subtracts 1 (`space_invaders/src/main.rs` lines 433 and 461, `go.rs` line 185), and so does an enemy shot on the player (`main.rs` line 451). None of these clamps at 0. The purge at `main.rs` lines 370-404 removes only objects whose hit points are exactly 0. So a barrier hit by more shots in one tick than it has hit points ends below 0 and stays in the game. `OverkilledBarrierSurvives` proves this and `OverkillExample` exhibits it.
- **Enemy sprites alternate by row.** The comment at `main.rs` line 134 (and `ms.rs` line 65) says each column gets its own sprite. The toggle, however, sits after the inner column loop (`main.rs` lines 134-139), so the sprite switches once per row of the grid.

## Model

| member | source | states |
|---|---|---|
| Entity.GameObj.UpdatePosition | space_invaders/src/go.rs:99-102 | the position advances by exactly direction x speed x dt on each axis and no other field changes |
| Entity.GameObj.SetCurrSprite | space_invaders/src/go.rs:111-113 | only the sprite value is written |
| Entity.GameObj.SetPos | space_invaders/src/go.rs:127-129 | only the position is written |
| Entity.GameObj.SetPosX | space_invaders/src/go.rs:131-133 | only `pos.x` is written; `pos.y` and every other field are kept |
| Entity.GameObj.SetPosY | space_invaders/src/go.rs:135-137 | only `pos.y` is written |
| Entity.GameObj.SetSpeed | space_invaders/src/go.rs:143-145 | only the speed is written |
| Entity.GameObj.SetDirection | space_invaders/src/go.rs:159-161 | only the direction is written |
| Entity.GameObj.SetDirectionX | space_invaders/src/go.rs:163-165 | only the direction's x component is written |
| Entity.GameObj.SetDirectionY | space_invaders/src/go.rs:167-169 | only the direction's y component is written |
| Entity.GameObj.SetHitPoints | space_invaders/src/go.rs:179-181 | only the hit points are written |
| Entity.GameObj.SubHitPoints | space_invaders/src/go.rs:184-186 | hit points drop by exactly one with no lower clamp; nothing else changes |
| Entity.New | space_invaders/src/go.rs:48-58 | a new object shows sprite 0 and stores every other argument unchanged |
| Entity.NewPlayer | space_invaders/src/go.rs:60-68 | a Player at (0, -290) with 3 hit points, size 12, speed 300 and zero direction |
| Entity.NewShot | space_invaders/src/go.rs:69-77 | a Shot with 1 hit point, size 6, speed 300 and the caller's position and direction |
| Entity.NewEnemy | space_invaders/src/go.rs:79-87 | an Enemy with 1 hit point, size 6, speed 600 and direction (1, 0) |
| Entity.NewBarrier | space_invaders/src/go.rs:89-97 | a Barrier with 4 hit points, size 12, speed 0 and zero direction |
| Entity.BarrierNeverMoves | space_invaders/src/go.rs:89-102 | no time step moves a fresh barrier |
| Entity.SettersKeepTagAndSize | space_invaders/src/go.rs:99-186 | no setter and no motion step changes an object's kind or size |
| Sprites.GameObjSprite | space_invaders/src/asse.rs:83-104 | the lookup is total; Player and Shot map to their single image whatever the sprite value; an enemy with sprite 1, -1, 2 or -2 shows frame 2, 1, 4 or 3, and frame 2 for any other value; a barrier with sprite k in 0..3 shows stage k+1, and stage 1 for any other value |
| Sprites.EnemyToggleSwapsFrame | space_invaders/src/asse.rs:86-90 | negating an enemy's sprite value switches to the other frame of the same design |
| Sprites.BarrierStagesDistinct | space_invaders/src/asse.rs:95-99 | the four damage stages 0..3 show four different images |
| Sprites.PlayerAndShotIgnoreSprite | space_invaders/src/asse.rs:84-103 | the player and shot images do not depend on the sprite value |
| Formation.EnemyRow | space_invaders/src/ms.rs:59-64 | the inner loop yields n enemies `spacing` apart from the start x, all with the row's sprite |
| Formation.EnemyRows | space_invaders/src/ms.rs:57-72 | the outer loop yields rows x 11 enemies in row-major order, each row `spacing` lower with the sprite toggled |
| Formation.CreateEnemies | space_invaders/src/ms.rs:47-74 | exactly 55 enemies, enemy k standing in row k/11 and column k%11 of the grid |
| Formation.CreateEnemiesLayout | space_invaders/src/main.rs:111-143 | enemy k has 1 hit point, size 6, speed 600, direction (1, 0), sprite 1 in even rows and 2 in odd rows, and y = 250 - 35·diff - (k/11)·spacing |
| Formation.GridEnemyNextRow | space_invaders/src/ms.rs:65-71 | the enemy 11 places later is the same column one row lower with the other sprite |
| Formation.BarrierRow | space_invaders/src/ms.rs:84-88 | the barrier loop yields n barriers `spacing` apart at y = -200 |
| Formation.CreateBarriers | space_invaders/src/ms.rs:76-91 | exactly 4 barriers at y = -200 with 4 hit points, sprite 0, speed 0, zero direction, and x rising by the constant (w - 120)/4 |
| Bounds.CheckPlayerBounds | space_invaders/src/ms.rs:96-105 | afterwards abs(x) <= sx/2 - 30; y and every other field are kept; a player already inside is unchanged and one outside is put on the nearer bound |
| Bounds.CheckPlayerBoundsIdempotent | space_invaders/src/main.rs:533-542 | a second clamp changes nothing |
| Bounds.CheckShotBounds | space_invaders/src/ms.rs:107-116 | a shot with abs(y) > sy/2 gets 0 hit points; otherwise it is unchanged; nothing but hit points is ever written |
| Bounds.EnemyPosCalculator | space_invaders/src/ms.rs:24-44 | the returned flag is the incoming flag or abs(x) > boundX, so it never drops; the player's hit points are zeroed exactly when the enemy is below -boundY; the enemy is only read |
| Bounds.ScanFormation | space_invaders/src/ms.rs:454-467 | every enemy gets the shared speed and, when the timer has run out, its sprite negated; the final flag is "some enemy is past a side bound"; the player is zeroed exactly when some enemy is past the bottom bound |
| Bounds.DescendAndReverse | space_invaders/src/ms.rs:473-480 | every enemy, none skipped, moves down exactly 15 and gets direction (-dx, 0); nothing else changes |
| Collisions.OverlapsIsNormTest | space_invaders/src/main.rs:419-420 | the squared-distance test equals the source's test "distance < size sum" for every pair of objects |
| Collisions.Overlaps | space_invaders/src/main.rs:419-420 | the collision test never holds when the two sizes sum to 0 or less, and gives the same answer with its arguments swapped |
| Collisions.OverlapsSymmetric | space_invaders/src/main.rs:468-470 | the overlap test is symmetric in its two arguments |
| Collisions.TouchingIsNotOverlapping | space_invaders/src/main.rs:440-441 | centres exactly one size sum apart do not collide, and any move closer does |
| Collisions.Chip | space_invaders/src/ms.rs:330-332 | a shot on a barrier lowers its hit points by 1 and raises its sprite stage by 1 |
| Collisions.MutualKill | space_invaders/src/main.rs:418-427 | one shot against every target: every overlapped target is killed, the shot is killed if it overlapped any, the overlaps are counted, and positions and sizes are kept |
| Collisions.ShotIntoBarriers | space_invaders/src/main.rs:429-436 | one shot against every barrier: each overlapped barrier is chipped once, and the shot is killed if it overlapped any |
| Collisions.EnemyOverBarriers | space_invaders/src/main.rs:474-479 | one enemy against every barrier: each overlapped barrier goes to 0 hit points with its sprite kept |
| Collisions.PlayerShotsPass | space_invaders/src/main.rs:417-445 | the first outer loop keeps every object's kind, position, speed, direction and size in all four collections and keeps their lengths; what it does to hit points is stated by the `PlayerShotsPass...` lemmas |
| Collisions.PlayerShotsPassShots | space_invaders/src/main.rs:417-445 | a player shot ends dead exactly when it overlaps some enemy, barrier or enemy shot |
| Collisions.PlayerShotsPassEnemies | space_invaders/src/main.rs:417-427 | an enemy ends dead exactly when some player shot overlaps it |
| Collisions.PlayerShotsPassBarriers | space_invaders/src/main.rs:429-436 | a barrier loses one hit point and gains one sprite stage per overlapping player shot |
| Collisions.PlayerShotsPassEnemyShots | space_invaders/src/main.rs:438-444 | an enemy shot ends dead exactly when some player shot overlaps it |
| Collisions.PlayerShotsPassKills | space_invaders/src/main.rs:420-424 | one point per overlapping (player shot, enemy) pair, with no short-circuit after a kill |
| Collisions.EnemyShotsPass | space_invaders/src/main.rs:447-455 | the player loses exactly one hit point per overlapping enemy shot, unclamped, and shapes are kept |
| Collisions.EnemyShotsPassShots | space_invaders/src/main.rs:447-465 | an enemy shot ends dead exactly when it overlaps the player or a barrier |
| Collisions.EnemyShotsPassBarriers | space_invaders/src/main.rs:457-463 | a barrier loses one hit point and gains one sprite stage per overlapping enemy shot |
| Collisions.EnemiesPass | space_invaders/src/main.rs:468-480 | the player is zeroed exactly when some enemy overlaps it, and a barrier is zeroed exactly when some enemy overlaps it |
| Collisions.Collide | space_invaders/src/main.rs:415-481 | positions, sizes, directions, kinds and collection lengths are kept; the score rises by exactly the number of overlapping (player shot, enemy) pairs and never falls; the refresh flag is raised exactly when some player shot hit an enemy or some enemy shot hit the player |
| Collisions.CollideShotsPlayer | space_invaders/src/main.rs:417-445 | closed form of each player shot's fate against the state before the pass |
| Collisions.CollideEnemies | space_invaders/src/main.rs:417-427 | closed form of each enemy's fate: killed exactly when some player shot overlaps it, sprite kept |
| Collisions.CollideShotsEnemy | space_invaders/src/main.rs:438-465 | an enemy shot ends dead exactly when a player shot, the player or a barrier overlaps it |
| Collisions.CollideBarriers | space_invaders/src/main.rs:429-478 | each barrier loses one hit point and gains one stage per overlapping shot of either side, and then goes to 0 if an enemy overlaps it |
| Collisions.CollidePlayer | space_invaders/src/main.rs:447-472 | the player goes to 0 if an enemy overlaps it, and otherwise loses one hit point per overlapping enemy shot |
| Lifecycle.Alive | space_invaders/src/main.rs:369-378 | the survivors all have hit points other than 0 and are no more than the input |
| Lifecycle.AliveMembers | space_invaders/src/main.rs:369-378 | an object survives exactly when it was present with hit points other than 0 |
| Lifecycle.AliveConcat | space_invaders/src/main.rs:365-413 | the filter distributes over concatenation |
| Lifecycle.AliveKeepsLiving | space_invaders/src/main.rs:365-413 | a collection without dead objects is left as it is |
| Lifecycle.AliveIdempotent | space_invaders/src/main.rs:365-413 | filtering twice is filtering once |
| Lifecycle.CollectDead | space_invaders/src/ms.rs:257-262 | the index list holds, in increasing order, exactly the indices of the dead objects |
| Lifecycle.RemoveListed | space_invaders/src/ms.rs:264-268 | popping the list from the back and removing each index yields exactly the in-order survivors |
| Lifecycle.RemoveDead | space_invaders/src/ms.rs:255-268 | one collection's two loops compute exactly the order-preserving filter on hit points other than 0 |
| Lifecycle.RemoveObjects | space_invaders/src/ms.rs:253-309 | the four collections become their filters; the player is untouched; no enemy or barrier at 0 remains |
| Lifecycle.Purged | space_invaders/src/main.rs:365-413 | an object is in a collection after the purge exactly when it was there before with hit points other than 0; the player and every other field are kept |
| Lifecycle.PurgedIdempotent | space_invaders/src/main.rs:365-413 | a second purge is a no-op |
| Lifecycle.PurgedWellFormed | space_invaders/src/main.rs:365-413 | the purge keeps every collection of its own kind |
| Lifecycle.DiffLevel | space_invaders/src/ms.rs:386-391 | the wave difficulty is the level, capped at 7 |
| Lifecycle.CheckForLevelRespawn | space_invaders/src/ms.rs:383-397 | with no enemies, the level rises by one, 55 fresh enemies for the capped difficulty and 4 fresh barriers appear and the refresh flag is set; otherwise nothing changes; the enemies are never empty afterwards |
| Lifecycle.OverkilledBarrierSurvives | space_invaders/src/main.rs:429-436 | a barrier hit by more shots than its hit points, with no enemy touching it, ends below 0 and is not purged |
| Lifecycle.OverkillExample | space_invaders/src/main.rs:370-404 | a 1-hit-point barrier under two player shots ends at -1 hit points and stays in the game |
| Game.Init | space_invaders/src/ms.rs:203-227 | a new game: the fresh player, 55 enemies of difficulty 0, 4 barriers, no shots, score and level 0, all three timers at 0 (so both sides fire and the sprites flip on the first tick), refresh pending, and a well-formed state |
| Game.ActivatePlayerShot | space_invaders/src/ms.rs:243-251 | the cooldown restarts at 0.5 and one upward shot is appended 20 above the player, the earlier shots kept |
| Game.ActivateEnemyShot | space_invaders/src/ms.rs:232-241 | the cooldown restarts at 1.0 and one downward shot is appended 20 below the chosen enemy |
| Game.Cooldown | space_invaders/src/main.rs:574-581 | a side fires exactly when it wants to and its timeout minus dt is below 0; firing restarts the timeout at the reset value, otherwise the timeout falls by dt |
| Game.QuietTicks | space_invaders/src/main.rs:574-577 | while the timeout stays at or above 0, a held trigger fires nothing and the timeout falls by dt per tick |
| Game.PlayerFireRate | space_invaders/src/main.rs:574-577 | with fire held, at 30 ticks a second, the player fires exactly once every 16 ticks |
| Game.EnemyFireRate | space_invaders/src/main.rs:578-581 | the enemies fire exactly once every 31 ticks |
| Game.FireStep | space_invaders/src/ms.rs:422-431 | each side adds a shot exactly when its cooldown fires, at most one, earlier shots kept: the player's is an upward shot 20 above the player, the enemies' a downward shot 20 below the enemy at the drawn index; the sprite timer runs down by dt; the player's direction becomes (xaxis, 0) |
| Game.MoveShots | space_invaders/src/ms.rs:436-445 | every shot moves once and gets 0 hit points exactly when it ends up off screen |
| Game.MoveEnemies | space_invaders/src/ms.rs:482-484 | every enemy moves once, in order, none skipped |
| Game.Marched | space_invaders/src/main.rs:604-631 | one enemy through the motion phase: speed set to the formation speed, sprite negated when the timer ran out, and either moved by direction x speed x dt or, when the formation turns, moved back along x by dx x speed x dt and lowered by exactly 15; kind, size and hit points kept |
| Game.SpriteTimerReset | space_invaders/src/main.rs:618-620 | the restart value 10/speed equals (number of enemies)/60 seconds and is positive, so a smaller formation also animates faster |
| Game.MarchedFormation | space_invaders/src/main.rs:604-631 | the scan loop, the optional descend-and-reverse loop and the motion loop together leave every enemy, in order, as `Marched` describes it |
| Game.FormationSpeed | space_invaders/src/ms.rs:452 | speed times the number of enemies is 600, so fewer enemies move faster |
| Game.MoveStep | space_invaders/src/ms.rs:433-484 | every enemy ends as `Marched` describes it, turned exactly when some enemy was past a side bound; the player is moved, clamped, and zeroed exactly when some enemy is past the bottom bound; both shot lists are moved and culled as `MoveShots` states; when the sprite timer ran out it restarts at (number of enemies)/60, otherwise it is kept |
| Game.Resolve | space_invaders/src/main.rs:633-644 | the enemies are non-empty afterwards; the score gains the exact pair count; the level rises by at most one; the refresh flag is flushed; the game is over exactly when the player's hit points are at or below 0 |
| Game.Tick | space_invaders/src/main.rs:569-644 | the enemies are never empty; the score never falls; the level rises by at most one; each side adds at most one shot, and only when its cooldown fires; the game is over exactly when hit points are at or below 0 |
| Game.InitInvariant | space_invaders/src/ms.rs:203-227 | a new game satisfies the between-ticks invariant |
| Game.TickInvariant | space_invaders/src/ms.rs:419-513 | every tick keeps: kinds and sizes per collection; 1 to 55 enemies; enemy sprite values in ±1, ±2; at most 4 barriers |
| Game.MoveStepSettled | space_invaders/src/ms.rs:454-459 | the sprite flip keeps every enemy's sprite value in ±1, ±2 |
| Game.CollideSettled | space_invaders/src/ms.rs:311-381 | the collision pass keeps the kind discipline and the enemy sprite values |
| Game.RespawnInvariant | space_invaders/src/ms.rs:383-397 | the respawn brings back a non-empty, well-formed formation of at most 55 enemies and at most 4 barriers |

## Left out

- Rendering, fonts, HUD texts and coordinate conversion are engine I/O with no game logic to prove. This covers `Assets::new`, `update_ui`, `draw`, `draw_game_obj` and `world_to_screen_coords`. The model keeps only the flush of the refresh flag and reports it as `Outcome.refreshHud`.
- Sound cues (`.play()` calls) are fire-and-forget engine calls.
- The real-time step accumulator `timer::check_update_time` is left out. One tick is modelled, with the frame length `dt` as a parameter; the source always uses 1/30 s (`FrameSeconds`).
- Keyboard events (`key_down_event`, `key_up_event`) only set the input state, so the tick takes `Input(xaxis, isFiring)` directly.
- The random enemy shooter (`rand::thread_rng().gen_range`) is replaced by an index parameter in [0, number of enemies).
- `f32` rounding is not modelled: positions, sizes, speeds and timers are exact reals. The square root of the distance test is replaced by an equivalent squared comparison, proved equal by `OverlapsIsNormTest`.
- `i32` and `u32` overflow is not modelled. Score, level and hit points are unbounded integers; the screen size is a `nat`.
- Getters such as `get_pos`, `get_hit_points` and `get_size` are read as field selectors.
- The `drop(...)` calls of the modular copy are no-ops. `ctx.quit()` is modelled as the monotone `over` flag.
- `main_withtrait.rs` is an abandoned draft that does not compile, and is not part of this model.
- Game.Tick: requires a non-empty formation. The source needs one for the random draw. `InitInvariant` and `TickInvariant` prove that every reachable state has one.
- Game.Tick: the interface flag is stated only as "a pending refresh is reported and then cleared" (`w.guiDirty ==> r.refreshHud`), not as the full list of events that raise it. `Collide` and `CheckForLevelRespawn` state those events separately.
- Game.Resolve: the interface flag is stated as for `Tick`.
- Game.MoveEnemies: the contract names the motion step per enemy rather than restating the arithmetic, which `Entity.GameObj.UpdatePosition` states.
- Collisions.PlayerShotsPass: the contract itself only keeps shapes. The per-collection results are the lemmas `PlayerShotsPassShots`, `PlayerShotsPassEnemies`, `PlayerShotsPassBarriers`, `PlayerShotsPassEnemyShots` and `PlayerShotsPassKills`.
