/** The boundary rules applied after each motion step: the player's
    horizontal clamp, the removal mark on shots that leave the screen, the
    per-enemy edge and bottom test, the formation-wide scan that runs that
    test over every enemy, and the descend-and-reverse sweep. */
module Bounds {
  import opened Entity

  /** Margin between the playing field and the screen's side edges. */
  const GameBounds := 30.0

  /** Vertical step of the descend-and-reverse sweep. */
  const DescendStep := 15.0

  function Abs(x: real): real {
    if x < 0.0 then -x else x
  }

  /** `check_player_bounds`: pulls the player's x back into
      [-(sx/2 - 30), sx/2 - 30]. Only x is written. */
  function CheckPlayerBounds(player: GameObj, sx: real): (r: GameObj)
    ensures r.pos.y == player.pos.y
    ensures r == player.(pos := r.pos)
    ensures 0.0 <= sx / 2.0 - GameBounds ==> Abs(r.pos.x) <= sx / 2.0 - GameBounds
    ensures Abs(player.pos.x) <= sx / 2.0 - GameBounds ==> r == player
    ensures 0.0 <= sx / 2.0 - GameBounds < Abs(player.pos.x) ==>
              r.pos.x == if player.pos.x < 0.0 then -(sx / 2.0 - GameBounds) else sx / 2.0 - GameBounds
  {
    var bound := sx / 2.0 - GameBounds;
    if player.pos.x > bound then player.SetPosX(bound)
    else if player.pos.x < -bound then player.SetPosX(-bound)
    else player
  }

  /** Clamping twice is clamping once, as long as the playing field is not
      narrower than its two margins. */
  lemma CheckPlayerBoundsIdempotent(player: GameObj, sx: real)
    requires 0.0 <= sx / 2.0 - GameBounds
    ensures CheckPlayerBounds(CheckPlayerBounds(player, sx), sx) == CheckPlayerBounds(player, sx)
  {
  }

  /** `check_shot_bounds`: a shot above the top or below the bottom of the
      screen is marked dead. Nothing else about it changes. */
  function CheckShotBounds(shot: GameObj, sy: real): (r: GameObj)
    ensures r == shot.(hitPoints := r.hitPoints)
    ensures Abs(shot.pos.y) > sy / 2.0 ==> r.hitPoints == 0
    ensures Abs(shot.pos.y) <= sy / 2.0 ==> r == shot
  {
    var bound := sy / 2.0;
    if shot.pos.y > bound then shot.SetHitPoints(0)
    else if shot.pos.y < -bound then shot.SetHitPoints(0)
    else shot
  }

  /** Result of the per-enemy test: the running "reached a side edge" flag
      and the player, whose hit points the test may zero. */
  datatype Edge = Edge(reachedCorner: bool, player: GameObj)

  /** `enemy_pos_calculator`: raises the flag when the enemy is beyond a
      side bound and zeroes the player's hit points when the enemy has come
      below the bottom bound. The enemy itself is only read. */
  function EnemyPosCalculator(enemy: GameObj, player: GameObj, reachedCorner: bool, boundX: real, boundY: real): (r: Edge)
    ensures r.reachedCorner <==> reachedCorner || Abs(enemy.pos.x) > boundX
    ensures reachedCorner ==> r.reachedCorner
    ensures r.player == player.(hitPoints := r.player.hitPoints)
    ensures enemy.pos.y < -boundY ==> r.player.hitPoints == 0
    ensures enemy.pos.y >= -boundY ==> r.player == player
  {
    var corner :=
      if enemy.pos.x > boundX then true
      else if enemy.pos.x < -boundX then true
      else reachedCorner;
    var p := if enemy.pos.y < -boundY then player.SetHitPoints(0) else player;
    Edge(corner, p)
  }

  /** One enemy as the formation scan leaves it: animation frame flipped
      when the sprite timer has run out, and speed set to the shared
      formation speed. */
  function Prepared(enemy: GameObj, toggle: bool, speed: real): GameObj {
    enemy.SetCurrSprite(if toggle then -enemy.currSprite else enemy.currSprite).SetSpeed(speed)
  }

  predicate PastSide(enemies: seq<GameObj>, boundX: real) {
    exists k :: 0 <= k < |enemies| && Abs(enemies[k].pos.x) > boundX
  }

  predicate PastBottom(enemies: seq<GameObj>, boundY: real) {
    exists k :: 0 <= k < |enemies| && enemies[k].pos.y < -boundY
  }

  datatype Scan = Scan(enemies: seq<GameObj>, player: GameObj, reachedCorner: bool)

  /** The formation loop of the tick: every enemy, in order, gets its sprite
      toggled (if `toggle`) and the shared speed, then goes through
      `EnemyPosCalculator` with the flag threaded from enemy to enemy. Once
      the flag is up it stays up, so the result is "some enemy is past a side
      bound"; the player is zeroed exactly when some enemy is past the
      bottom bound. */
  function ScanFormation(enemies: seq<GameObj>, player: GameObj, reachedCorner: bool,
                         toggle: bool, speed: real, boundX: real, boundY: real): (r: Scan)
    ensures |r.enemies| == |enemies|
    ensures forall k :: 0 <= k < |enemies| ==> r.enemies[k] == Prepared(enemies[k], toggle, speed)
    ensures r.reachedCorner <==> reachedCorner || PastSide(enemies, boundX)
    ensures r.player == if PastBottom(enemies, boundY) then player.SetHitPoints(0) else player
    decreases |enemies|
  {
    if enemies == [] then Scan([], player, reachedCorner)
    else
      var e := Prepared(enemies[0], toggle, speed);
      var edge := EnemyPosCalculator(e, player, reachedCorner, boundX, boundY);
      var rest := ScanFormation(enemies[1..], edge.player, edge.reachedCorner, toggle, speed, boundX, boundY);
      assert PastSide(enemies, boundX) <==> Abs(enemies[0].pos.x) > boundX || PastSide(enemies[1..], boundX) by {
        if PastSide(enemies[1..], boundX) {
          var k :| 0 <= k < |enemies[1..]| && Abs(enemies[1..][k].pos.x) > boundX;
          assert enemies[k + 1] == enemies[1..][k];
        }
      }
      assert PastBottom(enemies, boundY) <==> enemies[0].pos.y < -boundY || PastBottom(enemies[1..], boundY) by {
        if PastBottom(enemies[1..], boundY) {
          var k :| 0 <= k < |enemies[1..]| && enemies[1..][k].pos.y < -boundY;
          assert enemies[k + 1] == enemies[1..][k];
        }
      }
      Scan([e] + rest.enemies, rest.player, rest.reachedCorner)
  }

  /** One enemy after the sweep: 15 units lower, horizontal direction
      negated, vertical direction cleared. */
  function Descended(enemy: GameObj): GameObj {
    enemy.SetPosY(enemy.pos.y - DescendStep).SetDirection(Vec2(-enemy.direction.x, 0.0))
  }

  /** The descend-and-reverse loop: every enemy, none skipped, moves down
      by exactly 15 and turns around; nothing else about it changes. */
  function DescendAndReverse(enemies: seq<GameObj>): (r: seq<GameObj>)
    ensures |r| == |enemies|
    ensures forall k :: 0 <= k < |enemies| ==>
              && r[k].pos == Vec2(enemies[k].pos.x, enemies[k].pos.y - 15.0)
              && r[k].direction == Vec2(-enemies[k].direction.x, 0.0)
              && r[k] == enemies[k].(pos := r[k].pos, direction := r[k].direction)
    decreases |enemies|
  {
    if enemies == [] then []
    else [Descended(enemies[0])] + DescendAndReverse(enemies[1..])
  }
}
