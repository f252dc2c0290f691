/** One fixed-length tick of the game loop, in the order the source runs
    it: the fire phase (sprite timer, player direction, both fire
    cooldowns), the motion phase (player, shots, enemy formation), and the
    resolve phase (collisions, purge, respawn, interface flush, game-over
    test). The frame length and the randomly chosen enemy shooter are
    parameters. */
module Game {
  import opened Entity
  import opened State
  import opened Formation
  import opened Bounds
  import opened Collisions
  import opened Lifecycle

  /** Length of one tick: the loop runs at 30 ticks per second. */
  const FrameSeconds := 1.0 / 30.0

  /** Cooldowns after a player shot and after an enemy shot. */
  const PlayerShotTime := 0.5
  const EnemyShotTime := 1.0

  /** A new shot starts this far above the player or below the enemy. */
  const ShotOffset := 20.0

  /** The keyboard state read by a tick: the horizontal axis and whether
      the fire key is held. */
  datatype Input = Input(xaxis: real, isFiring: bool)

  /** The state of a new game: the player at its start, the level-0 grid,
      four barriers, no shots, all three timers at 0 and the interface
      flagged for refresh. */
  function Init(width: nat, height: nat): (w: World)
    ensures WellFormed(w)
    ensures w.player == NewPlayer()
    ensures |w.enemies| == 55 && w.enemies == CreateEnemies(width, 0)
    ensures |w.barriers| == 4 && w.barriers == CreateBarriers(width)
    ensures w.shotsPlayer == [] && w.shotsEnemy == []
    ensures w.level == 0 && w.score == 0 && w.guiDirty && !w.over
    ensures w.screenWidth == width && w.screenHeight == height
    ensures w.playerShotTimeout == 0.0 && w.enemyShotTimeout == 0.0 && w.enemySpriteTimer == 0.0
  {
    var w := World(NewPlayer(), CreateEnemies(width, 0), CreateBarriers(width), [], [], 0, 0,
                   width, height, 0.0, 0.0, 0.0, true, false);
    CreatedOfKind(width, 0);
    w
  }

  /** Every enemy of a fresh grid and every fresh barrier has its kind's size. */
  lemma CreatedOfKind(width: nat, diffLevel: int)
    ensures AllOfKind(CreateEnemies(width, diffLevel), Enemy)
    ensures AllOfKind(CreateBarriers(width), Barrier)
  {
    var es := CreateEnemies(width, diffLevel);
    forall k | 0 <= k < |es|
      ensures es[k].tag == Enemy && es[k].size == SizeOf(Enemy)
    {
      CreateEnemiesLayout(width, diffLevel, k);
    }
  }

  /** `activate_player_shot`: the cooldown is reset and one upward shot is
      appended, 20 units above the player. */
  function ActivatePlayerShot(w: World): (r: World)
    ensures r == w.(shotsPlayer := r.shotsPlayer, playerShotTimeout := r.playerShotTimeout)
    ensures r.playerShotTimeout == PlayerShotTime
    ensures |r.shotsPlayer| == |w.shotsPlayer| + 1 && r.shotsPlayer[..|w.shotsPlayer|] == w.shotsPlayer
    ensures var s := r.shotsPlayer[|w.shotsPlayer|];
            && s.tag == Shot && s.hitPoints == 1 && s.size == 6.0 && s.speed == 300.0
            && s.pos == Vec2(w.player.pos.x, w.player.pos.y + 20.0) && s.direction == Vec2(0.0, 1.0)
  {
    var shot := NewShot(w.player.pos.Add(Vec2(0.0, ShotOffset)), Vec2(0.0, 1.0));
    w.(playerShotTimeout := PlayerShotTime, shotsPlayer := w.shotsPlayer + [shot])
  }

  /** `activate_enemy_shot`: the cooldown is reset and one downward shot is
      appended, 20 units below the enemy at index `shooter`, which stands
      for the random draw from [0, number of enemies). */
  function ActivateEnemyShot(w: World, shooter: nat): (r: World)
    requires shooter < |w.enemies|
    ensures r == w.(shotsEnemy := r.shotsEnemy, enemyShotTimeout := r.enemyShotTimeout)
    ensures r.enemyShotTimeout == EnemyShotTime
    ensures |r.shotsEnemy| == |w.shotsEnemy| + 1 && r.shotsEnemy[..|w.shotsEnemy|] == w.shotsEnemy
    ensures var s := r.shotsEnemy[|w.shotsEnemy|];
            var e := w.enemies[shooter];
            && s.tag == Shot && s.hitPoints == 1 && s.size == 6.0 && s.speed == 300.0
            && s.pos == Vec2(e.pos.x, e.pos.y - 20.0) && s.direction == Vec2(0.0, -1.0)
  {
    var shot := NewShot(w.enemies[shooter].pos.Add(Vec2(0.0, -ShotOffset)), Vec2(0.0, -1.0));
    w.(enemyShotTimeout := EnemyShotTime, shotsEnemy := w.shotsEnemy + [shot])
  }

  /** The outcome of one tick of a fire cooldown. */
  datatype Trigger = Trigger(timeout: real, fired: bool)

  /** The cooldown rule shared by both sides: the timeout runs down by `dt`;
      if the side wants to fire and the timeout is now below 0, it fires and
      the timeout starts again at `reset`. */
  function Cooldown(timeout: real, wantsFire: bool, dt: real, reset: real): (r: Trigger)
    ensures r.fired <==> wantsFire && timeout - dt < 0.0
    ensures r.fired ==> r.timeout == reset
    ensures !r.fired ==> r.timeout == timeout - dt
    ensures wantsFire && timeout < dt ==> r.fired
  {
    var t := timeout - dt;
    if wantsFire && t < 0.0 then Trigger(reset, true) else Trigger(t, false)
  }

  /** `k` consecutive ticks of a cooldown with the trigger held down. */
  datatype Burst = Burst(timeout: real, shots: nat)

  function HeldTicks(timeout: real, dt: real, reset: real, k: nat): Burst
    decreases k
  {
    if k == 0 then Burst(timeout, 0)
    else
      var before := HeldTicks(timeout, dt, reset, k - 1);
      var c := Cooldown(before.timeout, true, dt, reset);
      Burst(c.timeout, before.shots + (if c.fired then 1 else 0))
  }

  /** As long as the timeout has not gone below 0, holding the trigger
      fires nothing and the timeout falls by `dt` per tick. */
  lemma {:induction false} QuietTicks(timeout: real, dt: real, reset: real, k: nat)
    requires 0.0 < dt && 0.0 <= timeout - (k as real) * dt
    ensures HeldTicks(timeout, dt, reset, k) == Burst(timeout - (k as real) * dt, 0)
    decreases k
  {
    if k > 0 {
      QuietTicks(timeout, dt, reset, k - 1);
      assert timeout - ((k - 1) as real) * dt - dt == timeout - (k as real) * dt;
    }
  }

  /** With the fire key held, the player fires once every 16 ticks: the
      0.5 s cooldown is exactly 15 ticks of 1/30 s, and the test is strictly
      below 0. */
  lemma PlayerFireRate()
    ensures HeldTicks(PlayerShotTime, FrameSeconds, PlayerShotTime, 15).shots == 0
    ensures HeldTicks(PlayerShotTime, FrameSeconds, PlayerShotTime, 16) == Burst(PlayerShotTime, 1)
  {
    QuietTicks(PlayerShotTime, FrameSeconds, PlayerShotTime, 15);
  }

  /** The enemies fire once every 31 ticks. */
  lemma EnemyFireRate()
    ensures HeldTicks(EnemyShotTime, FrameSeconds, EnemyShotTime, 30).shots == 0
    ensures HeldTicks(EnemyShotTime, FrameSeconds, EnemyShotTime, 31) == Burst(EnemyShotTime, 1)
  {
    QuietTicks(EnemyShotTime, FrameSeconds, EnemyShotTime, 30);
  }

  /** The fire phase of a tick: the sprite timer runs down, the player
      takes the horizontal input as its direction, then the player's and
      the enemies' cooldowns run in that order, each adding at most one
      shot. */
  function FireStep(w: World, input: Input, shooter: nat, dt: real): (r: World)
    requires shooter < |w.enemies|
    ensures var p := Cooldown(w.playerShotTimeout, input.isFiring, dt, PlayerShotTime);
            && r.playerShotTimeout == p.timeout
            && |r.shotsPlayer| == |w.shotsPlayer| + (if p.fired then 1 else 0)
            && r.shotsPlayer[..|w.shotsPlayer|] == w.shotsPlayer
            && (p.fired ==> r.shotsPlayer[|w.shotsPlayer|] == NewShot(w.player.pos.Add(Vec2(0.0, ShotOffset)), Vec2(0.0, 1.0)))
    ensures var e := Cooldown(w.enemyShotTimeout, true, dt, EnemyShotTime);
            && r.enemyShotTimeout == e.timeout
            && |r.shotsEnemy| == |w.shotsEnemy| + (if e.fired then 1 else 0)
            && r.shotsEnemy[..|w.shotsEnemy|] == w.shotsEnemy
            && (e.fired ==> r.shotsEnemy[|w.shotsEnemy|]
                              == NewShot(w.enemies[shooter].pos.Add(Vec2(0.0, -ShotOffset)), Vec2(0.0, -1.0)))
    ensures r.enemySpriteTimer == w.enemySpriteTimer - dt
    ensures r.player == w.player.(direction := Vec2(input.xaxis, 0.0))
    ensures r == w.(player := r.player, shotsPlayer := r.shotsPlayer, shotsEnemy := r.shotsEnemy,
                    playerShotTimeout := r.playerShotTimeout, enemyShotTimeout := r.enemyShotTimeout,
                    enemySpriteTimer := r.enemySpriteTimer)
    ensures WellFormed(w) ==> WellFormed(r)
  {
    var w1 := w.(enemySpriteTimer := w.enemySpriteTimer - dt,
                 player := w.player.SetDirection(Vec2(input.xaxis, 0.0)),
                 playerShotTimeout := w.playerShotTimeout - dt);
    var w2 := if input.isFiring && w1.playerShotTimeout < 0.0 then ActivatePlayerShot(w1) else w1;
    var w3 := w2.(enemyShotTimeout := w2.enemyShotTimeout - dt);
    var w4 := if w3.enemyShotTimeout < 0.0 then ActivateEnemyShot(w3, shooter) else w3;
    assert w2.shotsPlayer[..|w.shotsPlayer|] == w.shotsPlayer;
    assert w4.shotsEnemy[..|w.shotsEnemy|] == w.shotsEnemy;
    w4
  }

  /** One shot's motion step and bounds check, for every shot. */
  function MoveShots(shots: seq<GameObj>, dt: real, sy: real): (r: seq<GameObj>)
    ensures |r| == |shots|
    ensures forall k :: 0 <= k < |shots| ==>
              var moved := shots[k].UpdatePosition(dt);
              && r[k] == moved.(hitPoints := r[k].hitPoints)
              && r[k].hitPoints == if Abs(moved.pos.y) > sy / 2.0 then 0 else shots[k].hitPoints
    decreases |shots|
  {
    if shots == [] then []
    else [CheckShotBounds(shots[0].UpdatePosition(dt), sy)] + MoveShots(shots[1..], dt, sy)
  }

  /** Every enemy's motion step. */
  function MoveEnemies(enemies: seq<GameObj>, dt: real): (r: seq<GameObj>)
    ensures |r| == |enemies|
    ensures forall k :: 0 <= k < |enemies| ==> r[k] == enemies[k].UpdatePosition(dt)
    decreases |enemies|
  {
    if enemies == [] then []
    else [enemies[0].UpdatePosition(dt)] + MoveEnemies(enemies[1..], dt)
  }

  /** The enemy speed law: 600 units per second shared out over the
      enemies left, so the formation speeds up as it thins out. */
  function FormationSpeed(count: nat): (speed: real)
    requires count > 0
    ensures speed > 0.0
    ensures speed * (count as real) == EnemySpeed
  {
    EnemySpeed / (count as real)
  }

  function BoundX(w: World): real {
    w.screenWidth as real / 2.0 - GameBounds
  }

  function BoundY(w: World): real {
    w.screenHeight as real / 2.0 - GameBounds
  }

  /** The motion phase of a tick: the player moves and is clamped, every
      shot moves and is marked when it leaves the screen, every enemy gets
      the formation speed (and its sprite flipped when the sprite timer has
      run out) while the edge and bottom tests run, the formation descends
      and turns around when some enemy is past a side bound, and then every
      enemy moves. */
  function MoveStep(w: World, dt: real): (r: World)
    requires |w.enemies| > 0
    ensures r == w.(player := r.player, enemies := r.enemies, shotsPlayer := r.shotsPlayer,
                    shotsEnemy := r.shotsEnemy, enemySpriteTimer := r.enemySpriteTimer)
    ensures |r.enemies| == |w.enemies|
    ensures |r.shotsPlayer| == |w.shotsPlayer| && |r.shotsEnemy| == |w.shotsEnemy|
    ensures forall k :: 0 <= k < |w.enemies| ==>
              r.enemies[k] == Marched(w.enemies[k], w.enemySpriteTimer < 0.0, FormationSpeed(|w.enemies|),
                                      PastSide(w.enemies, BoundX(w)), dt)
    ensures w.enemySpriteTimer < 0.0 ==> r.enemySpriteTimer == (|w.enemies| as real) / 60.0 && r.enemySpriteTimer > 0.0
    ensures w.enemySpriteTimer >= 0.0 ==> r.enemySpriteTimer == w.enemySpriteTimer
    ensures var p := CheckPlayerBounds(w.player.UpdatePosition(dt), w.screenWidth as real);
            r.player == if PastBottom(w.enemies, BoundY(w)) then p.SetHitPoints(0) else p
    ensures r.shotsPlayer == MoveShots(w.shotsPlayer, dt, w.screenHeight as real)
    ensures r.shotsEnemy == MoveShots(w.shotsEnemy, dt, w.screenHeight as real)
    ensures r.player.hitPoints == if PastBottom(w.enemies, BoundY(w)) then 0 else w.player.hitPoints
    ensures 0.0 <= BoundX(w) ==> Abs(r.player.pos.x) <= BoundX(w)
    ensures r.player.tag == w.player.tag && r.player.size == w.player.size
    ensures forall k :: 0 <= k < |w.shotsPlayer| ==>
              r.shotsPlayer[k].tag == w.shotsPlayer[k].tag && r.shotsPlayer[k].size == w.shotsPlayer[k].size
    ensures forall k :: 0 <= k < |w.shotsEnemy| ==>
              r.shotsEnemy[k].tag == w.shotsEnemy[k].tag && r.shotsEnemy[k].size == w.shotsEnemy[k].size
  {
    var player := CheckPlayerBounds(w.player.UpdatePosition(dt), w.screenWidth as real);
    var shotsPlayer := MoveShots(w.shotsPlayer, dt, w.screenHeight as real);
    var shotsEnemy := MoveShots(w.shotsEnemy, dt, w.screenHeight as real);
    var speed := FormationSpeed(|w.enemies|);
    var toggle := w.enemySpriteTimer < 0.0;
    var scan := ScanFormation(w.enemies, player, false, toggle, speed, BoundX(w), BoundY(w));
    var timer := if toggle then SpriteTimerReset(|w.enemies|) else w.enemySpriteTimer;
    var turned := if scan.reachedCorner then DescendAndReverse(scan.enemies) else scan.enemies;
    var enemies := MoveEnemies(turned, dt);
    MarchedFormation(w.enemies, player, toggle, speed, BoundX(w), BoundY(w), dt);
    w.(player := scan.player, shotsPlayer := shotsPlayer, shotsEnemy := shotsEnemy,
       enemies := enemies, enemySpriteTimer := timer)
  }

  /** The sprite timer's restart value, `10 / speed`: with the formation
      speed `600 / count` it is `count / 60` seconds. */
  function SpriteTimerReset(count: nat): (t: real)
    requires count > 0
    ensures t == (count as real) / 60.0 && t > 0.0
  {
    var speed := FormationSpeed(count);
    var n := count as real;
    var t := 10.0 / speed;
    assert t * speed == 10.0;
    assert speed * n == 600.0;
    assert (t * speed) * n == t * (speed * n);
    assert t * 600.0 == 10.0 * n;
    t
  }

  /** The scan, the optional turn and the motion step together leave every
      enemy as `Marched` describes it. */
  lemma MarchedFormation(enemies: seq<GameObj>, player: GameObj, toggle: bool, speed: real,
                         boundX: real, boundY: real, dt: real)
    ensures var scan := ScanFormation(enemies, player, false, toggle, speed, boundX, boundY);
            var turned := if scan.reachedCorner then DescendAndReverse(scan.enemies) else scan.enemies;
            var moved := MoveEnemies(turned, dt);
            && |moved| == |enemies|
            && forall k :: 0 <= k < |enemies| ==> moved[k] == Marched(enemies[k], toggle, speed, scan.reachedCorner, dt)
  {
    var scan := ScanFormation(enemies, player, false, toggle, speed, boundX, boundY);
    var turned := if scan.reachedCorner then DescendAndReverse(scan.enemies) else scan.enemies;
    forall k | 0 <= k < |enemies|
      ensures MoveEnemies(turned, dt)[k] == Marched(enemies[k], toggle, speed, scan.reachedCorner, dt)
    {
      assert scan.enemies[k] == Prepared(enemies[k], toggle, speed);
      if scan.reachedCorner {
        assert turned[k] == Descended(scan.enemies[k]);
      }
    }
  }

  /** One enemy through the motion phase: speed and sprite set by the scan,
      turned and lowered when the formation is past a side bound, then
      moved for `dt` at the new speed in the new direction. */
  function Marched(e: GameObj, toggle: bool, speed: real, turn: bool, dt: real): (r: GameObj)
    ensures r.speed == speed && r.currSprite == (if toggle then -e.currSprite else e.currSprite)
    ensures r.tag == e.tag && r.size == e.size && r.hitPoints == e.hitPoints
    ensures r.direction == if turn then Vec2(-e.direction.x, 0.0) else e.direction
    ensures r.pos == if turn then Vec2(e.pos.x + (-e.direction.x) * speed * dt, e.pos.y - DescendStep)
                     else Vec2(e.pos.x + e.direction.x * speed * dt, e.pos.y + e.direction.y * speed * dt)
  {
    var q := Prepared(e, toggle, speed);
    var t := if turn then Descended(q) else q;
    assert t.direction.y * speed * dt == (if turn then 0.0 else e.direction.y * speed * dt);
    t.UpdatePosition(dt)
  }

  /** What a tick leaves: the new state, and whether the score, level and
      lives texts were rebuilt during the tick. */
  datatype Outcome = Outcome(world: World, refreshHud: bool)

  /** The resolve phase: collisions, the purge and the respawn, then the
      interface flush and the game-over test. */
  function Resolve(w: World): (r: Outcome)
    ensures |r.world.enemies| > 0
    ensures r.world.score == w.score + PairCount(w.shotsPlayer, w.enemies)
    ensures r.world.level == w.level || r.world.level == w.level + 1
    ensures !r.world.guiDirty && (w.guiDirty ==> r.refreshHud)
    ensures r.world.over <==> w.over || r.world.player.hitPoints <= 0
    ensures r.world.player.hitPoints
              == if OverlapsAny(w.player, w.enemies) then 0
                 else w.player.hitPoints - CountOverlapping(w.player, w.shotsEnemy)
    ensures r.world.screenWidth == w.screenWidth && r.world.screenHeight == w.screenHeight
    ensures r.world.playerShotTimeout == w.playerShotTimeout && r.world.enemyShotTimeout == w.enemyShotTimeout
    ensures |r.world.shotsPlayer| <= |w.shotsPlayer| && |r.world.shotsEnemy| <= |w.shotsEnemy|
  {
    var resolved := CheckForLevelRespawn(Purged(Collide(w)));
    CollidePlayer(w);
    Outcome(resolved.(guiDirty := false, over := resolved.over || resolved.player.hitPoints <= 0), resolved.guiDirty)
  }

  /** One tick of `update`. The caller supplies the frame length (1/30 s in
      the source) and the index the random draw picked; the enemies are
      never empty at the start of a tick (see `InitInvariant` and `TickInvariant`), so the
      draw and the speed law are defined. */
  function Tick(w: World, input: Input, shooter: nat, dt: real): (r: Outcome)
    requires 0 < |w.enemies| && shooter < |w.enemies|
    ensures |r.world.enemies| > 0
    ensures r.world.score >= w.score
    ensures r.world.level == w.level || r.world.level == w.level + 1
    ensures !r.world.guiDirty && (w.guiDirty ==> r.refreshHud)
    ensures r.world.over <==> w.over || r.world.player.hitPoints <= 0
    ensures r.world.screenWidth == w.screenWidth && r.world.screenHeight == w.screenHeight
    ensures var p := Cooldown(w.playerShotTimeout, input.isFiring, dt, PlayerShotTime);
            && r.world.playerShotTimeout == p.timeout
            && |r.world.shotsPlayer| <= |w.shotsPlayer| + (if p.fired then 1 else 0)
    ensures var e := Cooldown(w.enemyShotTimeout, true, dt, EnemyShotTime);
            && r.world.enemyShotTimeout == e.timeout
            && |r.world.shotsEnemy| <= |w.shotsEnemy| + (if e.fired then 1 else 0)
  {
    var fired := FireStep(w, input, shooter, dt);
    Resolve(MoveStep(fired, dt))
  }

  /** The sprite values an enemy can carry: the two designs, each in
      either animation frame. */
  predicate EnemySprite(s: int) {
    s == 1 || s == -1 || s == 2 || s == -2
  }

  predicate EnemySpritesValid(enemies: seq<GameObj>) {
    forall k :: 0 <= k < |enemies| ==> EnemySprite(enemies[k].currSprite)
  }

  /** What holds at every phase boundary of a tick: the kind discipline,
      at most 55 enemies showing valid sprites, and at most 4 barriers. */
  predicate Settled(w: World) {
    && WellFormed(w)
    && |w.enemies| <= 55
    && EnemySpritesValid(w.enemies)
    && |w.barriers| <= 4
  }

  /** What holds between ticks: a settled state with a non-empty formation. */
  predicate Invariant(w: World) {
    Settled(w) && 0 < |w.enemies|
  }

  lemma InitInvariant(width: nat, height: nat)
    ensures Invariant(Init(width, height))
  {
    FreshGridSprites(width, 0);
  }

  /** Every enemy of a fresh grid shows sprite 1 or 2. */
  lemma FreshGridSprites(width: nat, diffLevel: int)
    ensures EnemySpritesValid(CreateEnemies(width, diffLevel))
  {
    var es := CreateEnemies(width, diffLevel);
    forall k | 0 <= k < |es|
      ensures EnemySprite(es[k].currSprite)
    {
      CreateEnemiesLayout(width, diffLevel, k);
    }
  }

  lemma FireStepSettled(w: World, input: Input, shooter: nat, dt: real)
    requires Settled(w) && shooter < |w.enemies|
    ensures Settled(FireStep(w, input, shooter, dt))
  {
  }

  /** The sprite flip negates a valid sprite value into a valid one. */
  lemma MoveStepSettled(w: World, dt: real)
    requires Settled(w) && 0 < |w.enemies|
    ensures Settled(MoveStep(w, dt))
  {
    var r := MoveStep(w, dt);
    assert AllOfKind(r.enemies, Enemy);
    assert AllOfKind(r.shotsPlayer, Shot) && AllOfKind(r.shotsEnemy, Shot);
  }

  /** Collisions only write hit points, barrier sprites and counters. */
  lemma CollideSettled(w: World)
    requires Settled(w)
    ensures Settled(Collide(w))
  {
    CollideEnemies(w);
    var r := Collide(w);
    assert AllOfKind(r.enemies, Enemy) && AllOfKind(r.barriers, Barrier);
    assert AllOfKind(r.shotsPlayer, Shot) && AllOfKind(r.shotsEnemy, Shot);
  }

  lemma PurgedSettled(w: World)
    requires Settled(w)
    ensures Settled(Purged(w))
  {
    PurgedWellFormed(w);
    AliveEnemySprites(w.enemies);
  }

  lemma RespawnInvariant(w: World)
    requires Settled(w)
    ensures Invariant(CheckForLevelRespawn(w))
  {
    if |w.enemies| == 0 {
      CreatedOfKind(w.screenWidth, DiffLevel(w.level + 1));
      FreshGridSprites(w.screenWidth, DiffLevel(w.level + 1));
    }
  }

  /** Every tick keeps the invariant, whatever the input, the frame length
      and the shooter drawn. */
  lemma TickInvariant(w: World, input: Input, shooter: nat, dt: real)
    requires Invariant(w) && shooter < |w.enemies|
    ensures Invariant(Tick(w, input, shooter, dt).world)
  {
    var fired := FireStep(w, input, shooter, dt);
    FireStepSettled(w, input, shooter, dt);
    var moved := MoveStep(fired, dt);
    MoveStepSettled(fired, dt);
    CollideSettled(moved);
    PurgedSettled(Collide(moved));
    RespawnInvariant(Purged(Collide(moved)));
  }

  lemma AliveEnemySprites(enemies: seq<GameObj>)
    requires EnemySpritesValid(enemies)
    ensures EnemySpritesValid(Alive(enemies))
  {
    var r := Alive(enemies);
    forall k | 0 <= k < |r|
      ensures EnemySprite(r[k].currSprite)
    {
      AliveMembers(enemies, r[k]);
    }
  }
}
