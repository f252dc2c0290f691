/** The collision resolver. The seven pairwise rules run as the source's
    nested loops run them: every player shot against every enemy, every
    barrier and every enemy shot; then every enemy shot against the player
    and every barrier; then every enemy against the player and every barrier.
    Each rule only writes hit points, a barrier's sprite stage, the score and
    the refresh flag, while every overlap test reads only positions and
    sizes. The order of the loops therefore cannot change any test, and
    `Collide` is proved equal to a closed form that counts overlaps in the
    state as it was before the pass. */
module Collisions {
  import opened Entity
  import opened State

  /** The overlap test of every rule: `|b.pos - a.pos| < a.size + b.size`,
      strict. A distance is never negative, so when the radius sum is
      positive the test is the same as comparing squares, and when it is not
      the test fails; see `OverlapsIsNormTest`. */
  predicate Overlaps(a: GameObj, b: GameObj): (r: bool)
    ensures r ==> 0.0 < a.size + b.size
    ensures r == CirclesOverlap(b.pos, b.size, a.pos, a.size)
  {
    var d, e := b.pos.Sub(a.pos), a.pos.Sub(b.pos);
    assert e.x * e.x == d.x * d.x && e.y * e.y == d.y * d.y;
    CirclesOverlap(a.pos, a.size, b.pos, b.size)
  }

  /** Strict overlap of the circle of radius `ra` around `pa` and the circle
      of radius `rb` around `pb`, without a square root. */
  predicate CirclesOverlap(pa: Vec2, ra: real, pb: Vec2, rb: real) {
    var reach := ra + rb;
    0.0 < reach && pb.Sub(pa).NormSquared() < reach * reach
  }

  /** `Overlaps` is exactly the source's test on the Euclidean distance, for
      every pair of objects, whatever their sizes. */
  lemma OverlapsIsNormTest(a: GameObj, b: GameObj, distance: real)
    requires 0.0 <= distance && distance * distance == b.pos.Sub(a.pos).NormSquared()
    ensures Overlaps(a, b) <==> distance < a.size + b.size
  {
    var reach := a.size + b.size;
    if distance < reach {
      SquareStrictlyMonotone(distance, reach);
    }
    if 0.0 < reach && distance >= reach {
      SquareMonotone(reach, distance);
    }
  }

  lemma SquareStrictlyMonotone(x: real, y: real)
    requires 0.0 <= x < y
    ensures x * x < y * y
  {
    calc {
      x * x;
    <=  { MultiplyMonotone(x, x, y); }
      x * y;
    <  { assert (y - x) * y > 0.0; }
      y * y;
    }
  }

  lemma MultiplyMonotone(k: real, a: real, b: real)
    requires 0.0 <= k && a <= b
    ensures k * a <= k * b
  {
    assert k * (b - a) >= 0.0;
  }

  lemma SquareMonotone(x: real, y: real)
    requires 0.0 <= x <= y
    ensures x * x <= y * y
  {
    MultiplyMonotone(x, x, y);
    MultiplyMonotone(y, x, y);
  }

  /** The overlap test does not depend on the order of its arguments. */
  lemma OverlapsSymmetric(a: GameObj, b: GameObj)
    ensures Overlaps(a, b) <==> Overlaps(b, a)
  {
    var d := b.pos.Sub(a.pos);
    var e := a.pos.Sub(b.pos);
    assert e.x * e.x == d.x * d.x && e.y * e.y == d.y * d.y;
  }

  /** Two objects whose centres are exactly the sum of their sizes apart do
      not collide, and moving one of them closer by any amount up to that sum
      makes them collide. */
  lemma TouchingIsNotOverlapping(a: GameObj, b: GameObj, eps: real)
    requires 0.0 < a.size + b.size
    requires b.pos == Vec2(a.pos.x, a.pos.y + a.size + b.size)
    requires 0.0 < eps <= a.size + b.size
    ensures !Overlaps(a, b)
    ensures Overlaps(a, b.(pos := Vec2(b.pos.x, b.pos.y - eps)))
  {
    var reach := a.size + b.size;
    var d := reach - eps;
    SquareStrictlyMonotone(d, reach);
  }

  /** The two objects agree on everything the collision rules read or must
      leave alone: only hit points and the sprite may differ. */
  predicate SameBody(a: GameObj, b: GameObj) {
    a.tag == b.tag && a.pos == b.pos && a.speed == b.speed && a.direction == b.direction && a.size == b.size
  }

  predicate SameBodies(xs: seq<GameObj>, ys: seq<GameObj>) {
    |xs| == |ys| && forall k :: 0 <= k < |xs| ==> SameBody(xs[k], ys[k])
  }

  /** The object marked for removal. */
  function Kill(o: GameObj): (r: GameObj)
    ensures SameBody(r, o) && r.hitPoints == 0 && r.currSprite == o.currSprite
  {
    o.SetHitPoints(0)
  }

  /** A barrier after `n` hits: `n` hit points fewer and `n` sprite stages
      further, with no lower clamp. */
  function Chipped(b: GameObj, n: nat): (r: GameObj)
    ensures SameBody(r, b) && r.hitPoints == b.hitPoints - n && r.currSprite == b.currSprite + n
  {
    b.(hitPoints := b.hitPoints - n, currSprite := b.currSprite + n)
  }

  /** A barrier after one shot: `sub_hit_points` and the next sprite stage. */
  function Chip(b: GameObj): (r: GameObj)
    ensures r == Chipped(b, 1)
  {
    b.SubHitPoints().SetCurrSprite(b.currSprite + 1)
  }

  /** Whether `a` overlaps some object of `ys`. */
  predicate OverlapsAny(a: GameObj, ys: seq<GameObj>) {
    exists k :: 0 <= k < |ys| && Overlaps(a, ys[k])
  }

  /** Whether some object of `xs` overlaps `b`. */
  predicate OverlappedByAny(xs: seq<GameObj>, b: GameObj) {
    exists k :: 0 <= k < |xs| && Overlaps(xs[k], b)
  }

  /** How many objects of `ys` the object `a` overlaps. */
  function CountOverlapping(a: GameObj, ys: seq<GameObj>): nat
    decreases |ys|
  {
    if ys == [] then 0 else (if Overlaps(a, ys[0]) then 1 else 0) + CountOverlapping(a, ys[1..])
  }

  /** How many objects of `xs` overlap `b`. */
  function CountOverlappedBy(xs: seq<GameObj>, b: GameObj): nat
    decreases |xs|
  {
    if xs == [] then 0 else (if Overlaps(xs[0], b) then 1 else 0) + CountOverlappedBy(xs[1..], b)
  }

  /** How many pairs (x, y) with x from `xs` and y from `ys` overlap. */
  function PairCount(xs: seq<GameObj>, ys: seq<GameObj>): nat
    decreases |xs|
  {
    if xs == [] then 0 else CountOverlapping(xs[0], ys) + PairCount(xs[1..], ys)
  }

  lemma {:induction false} CountOverlappingPositive(a: GameObj, ys: seq<GameObj>)
    ensures CountOverlapping(a, ys) > 0 <==> OverlapsAny(a, ys)
    decreases |ys|
  {
    if ys != [] {
      CountOverlappingPositive(a, ys[1..]);
      OverlapsAnyUnfold(a, ys);
    }
  }

  lemma OverlapsAnyUnfold(a: GameObj, ys: seq<GameObj>)
    requires ys != []
    ensures OverlapsAny(a, ys) <==> Overlaps(a, ys[0]) || OverlapsAny(a, ys[1..])
  {
    if OverlapsAny(a, ys[1..]) {
      var k :| 0 <= k < |ys[1..]| && Overlaps(a, ys[1..][k]);
      assert ys[k + 1] == ys[1..][k];
    }
    if OverlapsAny(a, ys) && !Overlaps(a, ys[0]) {
      var k :| 0 <= k < |ys| && Overlaps(a, ys[k]);
      assert ys[1..][k - 1] == ys[k];
    }
  }

  lemma OverlappedByAnyUnfold(xs: seq<GameObj>, b: GameObj)
    requires xs != []
    ensures OverlappedByAny(xs, b) <==> Overlaps(xs[0], b) || OverlappedByAny(xs[1..], b)
  {
    if OverlappedByAny(xs[1..], b) {
      var k :| 0 <= k < |xs[1..]| && Overlaps(xs[1..][k], b);
      assert xs[k + 1] == xs[1..][k];
    }
    if OverlappedByAny(xs, b) && !Overlaps(xs[0], b) {
      var k :| 0 <= k < |xs| && Overlaps(xs[k], b);
      assert xs[1..][k - 1] == xs[k];
    }
  }

  lemma {:induction false} CountOverlappingCongruent(a: GameObj, a': GameObj, ys: seq<GameObj>, ys': seq<GameObj>)
    requires SameBody(a, a') && SameBodies(ys, ys')
    ensures CountOverlapping(a, ys) == CountOverlapping(a', ys')
    ensures OverlapsAny(a, ys) == OverlapsAny(a', ys')
    decreases |ys|
  {
    if ys != [] {
      CountOverlappingCongruent(a, a', ys[1..], ys'[1..]);
    }
    CountOverlappingPositive(a, ys);
    CountOverlappingPositive(a', ys');
  }

  lemma {:induction false} CountOverlappedByPositive(xs: seq<GameObj>, b: GameObj)
    ensures CountOverlappedBy(xs, b) > 0 <==> OverlappedByAny(xs, b)
    decreases |xs|
  {
    if xs != [] {
      CountOverlappedByPositive(xs[1..], b);
      OverlappedByAnyUnfold(xs, b);
    }
  }

  lemma {:induction false} CountOverlappedByCongruent(xs: seq<GameObj>, xs': seq<GameObj>, b: GameObj, b': GameObj)
    requires SameBodies(xs, xs') && SameBody(b, b')
    ensures CountOverlappedBy(xs, b) == CountOverlappedBy(xs', b')
    ensures OverlappedByAny(xs, b) == OverlappedByAny(xs', b')
    decreases |xs|
  {
    if xs != [] {
      CountOverlappedByCongruent(xs[1..], xs'[1..], b, b');
    }
    CountOverlappedByPositive(xs, b);
    CountOverlappedByPositive(xs', b');
  }

  lemma {:induction false} PairCountCongruent(xs: seq<GameObj>, ys: seq<GameObj>, ys': seq<GameObj>)
    requires SameBodies(ys, ys')
    ensures PairCount(xs, ys) == PairCount(xs, ys')
    decreases |xs|
  {
    if xs != [] {
      CountOverlappingCongruent(xs[0], xs[0], ys, ys');
      PairCountCongruent(xs[1..], ys, ys');
    }
  }

  /** What one inner loop leaves behind: the object of the outer loop, the
      collection of the inner loop, and how many overlaps were found. */
  datatype Sweep = Sweep(actor: GameObj, targets: seq<GameObj>, hits: nat)

  /** The inner loops where both parties die (player shot x enemy, and
      player shot x enemy shot): the shot dies if it overlaps any target,
      every target it overlaps dies, and the overlaps are counted. A shot
      that has already died goes on hitting later targets. */
  function MutualKill(shot: GameObj, targets: seq<GameObj>): (r: Sweep)
    ensures r.actor == if OverlapsAny(shot, targets) then Kill(shot) else shot
    ensures SameBodies(r.targets, targets)
    ensures forall k :: 0 <= k < |targets| ==>
              r.targets[k] == if Overlaps(shot, targets[k]) then Kill(targets[k]) else targets[k]
    ensures r.hits == CountOverlapping(shot, targets)
    decreases |targets|
  {
    if targets == [] then Sweep(shot, [], 0)
    else
      var hit := Overlaps(shot, targets[0]);
      var shot' := if hit then Kill(shot) else shot;
      var rest := MutualKill(shot', targets[1..]);
      OverlapsAnyUnfold(shot, targets);
      CountOverlappingCongruent(shot', shot, targets[1..], targets[1..]);
      var r := Sweep(rest.actor, [if hit then Kill(targets[0]) else targets[0]] + rest.targets,
                     (if hit then 1 else 0) + rest.hits);
      assert forall k :: 1 <= k < |targets| ==> r.targets[k] == rest.targets[k - 1];
      r
  }

  /** The inner loops over the barriers (player shot x barrier, and enemy
      shot x barrier): the shot dies if it overlaps any barrier, and every
      barrier it overlaps loses one hit point and moves one sprite stage on. */
  function ShotIntoBarriers(shot: GameObj, barriers: seq<GameObj>): (r: Sweep)
    ensures r.actor == if OverlapsAny(shot, barriers) then Kill(shot) else shot
    ensures SameBodies(r.targets, barriers)
    ensures forall k :: 0 <= k < |barriers| ==>
              r.targets[k] == Chipped(barriers[k], if Overlaps(shot, barriers[k]) then 1 else 0)
    ensures r.hits == CountOverlapping(shot, barriers)
    decreases |barriers|
  {
    if barriers == [] then Sweep(shot, [], 0)
    else
      var hit := Overlaps(shot, barriers[0]);
      var shot' := if hit then Kill(shot) else shot;
      var rest := ShotIntoBarriers(shot', barriers[1..]);
      OverlapsAnyUnfold(shot, barriers);
      CountOverlappingCongruent(shot', shot, barriers[1..], barriers[1..]);
      var r := Sweep(rest.actor, [if hit then Chip(barriers[0]) else barriers[0]] + rest.targets,
                     (if hit then 1 else 0) + rest.hits);
      assert forall k :: 1 <= k < |barriers| ==> r.targets[k] == rest.targets[k - 1];
      r
  }

  /** The inner loop enemy x barrier: every barrier the enemy overlaps is
      destroyed outright; the enemy is untouched. */
  function EnemyOverBarriers(enemy: GameObj, barriers: seq<GameObj>): (r: seq<GameObj>)
    ensures SameBodies(r, barriers)
    ensures forall k :: 0 <= k < |barriers| ==>
              r[k] == if Overlaps(enemy, barriers[k]) then Kill(barriers[k]) else barriers[k]
    decreases |barriers|
  {
    if barriers == [] then []
    else [if Overlaps(enemy, barriers[0]) then Kill(barriers[0]) else barriers[0]]
         + EnemyOverBarriers(enemy, barriers[1..])
  }

  /** Two rounds of killing compose: a collection first swept by one shot
      `a` (a stand-in for `shots[0]` with the same body) and then by the
      remaining shots ends up killed exactly where some shot overlaps it. */
  lemma KillsCompose(shots: seq<GameObj>, a: GameObj, xs: seq<GameObj>, mid: seq<GameObj>, out: seq<GameObj>)
    requires shots != [] && SameBody(a, shots[0])
    requires SameBodies(mid, xs)
    requires forall k :: 0 <= k < |xs| ==> mid[k] == if Overlaps(a, xs[k]) then Kill(xs[k]) else xs[k]
    requires SameBodies(out, mid)
    requires forall k :: 0 <= k < |mid| ==>
               out[k] == if OverlappedByAny(shots[1..], mid[k]) then Kill(mid[k]) else mid[k]
    ensures SameBodies(out, xs)
    ensures forall k :: 0 <= k < |xs| ==> out[k] == if OverlappedByAny(shots, xs[k]) then Kill(xs[k]) else xs[k]
  {
    forall k | 0 <= k < |xs|
      ensures out[k] == if OverlappedByAny(shots, xs[k]) then Kill(xs[k]) else xs[k]
    {
      CountOverlappedByCongruent(shots[1..], shots[1..], mid[k], xs[k]);
      OverlappedByAnyUnfold(shots, xs[k]);
      assert Overlaps(a, xs[k]) == Overlaps(shots[0], xs[k]);
    }
  }

  /** Two rounds of chipping compose: the hits of the first shot and of the
      remaining shots add up to the number of shots overlapping the barrier. */
  lemma ChipsCompose(shots: seq<GameObj>, a: GameObj, xs: seq<GameObj>, mid: seq<GameObj>, out: seq<GameObj>)
    requires shots != [] && SameBody(a, shots[0])
    requires SameBodies(mid, xs)
    requires forall k :: 0 <= k < |xs| ==> mid[k] == Chipped(xs[k], if Overlaps(a, xs[k]) then 1 else 0)
    requires SameBodies(out, mid)
    requires forall k :: 0 <= k < |mid| ==> out[k] == Chipped(mid[k], CountOverlappedBy(shots[1..], mid[k]))
    ensures SameBodies(out, xs)
    ensures forall k :: 0 <= k < |xs| ==> out[k] == Chipped(xs[k], CountOverlappedBy(shots, xs[k]))
  {
    forall k | 0 <= k < |xs|
      ensures out[k] == Chipped(xs[k], CountOverlappedBy(shots, xs[k]))
    {
      CountOverlappedByCongruent(shots[1..], shots[1..], mid[k], xs[k]);
      assert Overlaps(a, xs[k]) == Overlaps(shots[0], xs[k]);
    }
  }

  /** The fate of a player shot against the three collections it sweeps. */
  predicate ShotFate(s: GameObj, out: GameObj, enemies: seq<GameObj>, barriers: seq<GameObj>, enemyShots: seq<GameObj>) {
    out == if OverlapsAny(s, enemies) || OverlapsAny(s, barriers) || OverlapsAny(s, enemyShots)
           then Kill(s) else s
  }

  /** The shots after the first meet collections with unchanged bodies, so
      their fate can be stated against the collections as they were. */
  lemma ShotFatesCompose(shots: seq<GameObj>, first: GameObj, rest: seq<GameObj>,
                         enemies: seq<GameObj>, barriers: seq<GameObj>, enemyShots: seq<GameObj>,
                         enemies': seq<GameObj>, barriers': seq<GameObj>, enemyShots': seq<GameObj>)
    requires shots != [] && |rest| == |shots| - 1
    requires SameBodies(enemies', enemies) && SameBodies(barriers', barriers) && SameBodies(enemyShots', enemyShots)
    requires ShotFate(shots[0], first, enemies, barriers, enemyShots)
    requires forall p :: 0 <= p < |rest| ==> ShotFate(shots[1..][p], rest[p], enemies', barriers', enemyShots')
    ensures forall p :: 0 <= p < |shots| ==> ShotFate(shots[p], ([first] + rest)[p], enemies, barriers, enemyShots)
  {
    forall p | 1 <= p < |shots|
      ensures ShotFate(shots[p], ([first] + rest)[p], enemies, barriers, enemyShots)
    {
      var t := shots[1..][p - 1];
      assert t == shots[p];
      CountOverlappingCongruent(t, t, enemies', enemies);
      CountOverlappingCongruent(t, t, barriers', barriers);
      CountOverlappingCongruent(t, t, enemyShots', enemyShots);
    }
  }

  /** What the player-shot loop leaves behind. */
  datatype Volley = Volley(shots: seq<GameObj>, enemies: seq<GameObj>, barriers: seq<GameObj>,
                           enemyShots: seq<GameObj>, kills: nat)

  /** The first outer loop: each player shot in turn against every enemy,
      then every barrier, then every enemy shot. The contract keeps every
      body in place; what happens to hit points is stated per collection by
      the `PlayerShotsPass...` lemmas below. */
  function PlayerShotsPass(shots: seq<GameObj>, enemies: seq<GameObj>, barriers: seq<GameObj>,
                           enemyShots: seq<GameObj>): (r: Volley)
    ensures SameBodies(r.shots, shots)
    ensures SameBodies(r.enemies, enemies)
    ensures SameBodies(r.barriers, barriers)
    ensures SameBodies(r.enemyShots, enemyShots)
    decreases |shots|
  {
    if shots == [] then Volley([], enemies, barriers, enemyShots, 0)
    else
      var a := MutualKill(shots[0], enemies);
      var b := ShotIntoBarriers(a.actor, barriers);
      var c := MutualKill(b.actor, enemyShots);
      var rest := PlayerShotsPass(shots[1..], a.targets, b.targets, c.targets);
      Volley([c.actor] + rest.shots, rest.enemies, rest.barriers, rest.enemyShots, a.hits + rest.kills)
  }

  /** A player shot dies exactly when it overlaps some enemy, some barrier
      or some enemy shot; having died earlier in its sweep does not stop it
      from hitting the rest. */
  lemma {:induction false} PlayerShotsPassShots(shots: seq<GameObj>, enemies: seq<GameObj>, barriers: seq<GameObj>,
                                                enemyShots: seq<GameObj>)
    ensures var r := PlayerShotsPass(shots, enemies, barriers, enemyShots);
            forall p :: 0 <= p < |shots| ==> ShotFate(shots[p], r.shots[p], enemies, barriers, enemyShots)
    decreases |shots|
  {
    if shots != [] {
      var a := MutualKill(shots[0], enemies);
      var b := ShotIntoBarriers(a.actor, barriers);
      var c := MutualKill(b.actor, enemyShots);
      var rest := PlayerShotsPass(shots[1..], a.targets, b.targets, c.targets);
      PlayerShotsPassShots(shots[1..], a.targets, b.targets, c.targets);
      CountOverlappingCongruent(a.actor, shots[0], barriers, barriers);
      CountOverlappingCongruent(b.actor, shots[0], enemyShots, enemyShots);
      ShotFatesCompose(shots, c.actor, rest.shots, enemies, barriers, enemyShots, a.targets, b.targets, c.targets);
    }
  }

  /** An enemy dies exactly when some player shot overlaps it. */
  lemma {:induction false} PlayerShotsPassEnemies(shots: seq<GameObj>, enemies: seq<GameObj>, barriers: seq<GameObj>,
                                                  enemyShots: seq<GameObj>)
    ensures var r := PlayerShotsPass(shots, enemies, barriers, enemyShots);
            forall k :: 0 <= k < |enemies| ==>
              r.enemies[k] == if OverlappedByAny(shots, enemies[k]) then Kill(enemies[k]) else enemies[k]
    decreases |shots|
  {
    if shots != [] {
      var a := MutualKill(shots[0], enemies);
      var b := ShotIntoBarriers(a.actor, barriers);
      var c := MutualKill(b.actor, enemyShots);
      var rest := PlayerShotsPass(shots[1..], a.targets, b.targets, c.targets);
      PlayerShotsPassEnemies(shots[1..], a.targets, b.targets, c.targets);
      KillsCompose(shots, shots[0], enemies, a.targets, rest.enemies);
    }
  }

  /** A barrier loses one hit point and advances one sprite stage per
      player shot overlapping it. */
  lemma {:induction false} PlayerShotsPassBarriers(shots: seq<GameObj>, enemies: seq<GameObj>, barriers: seq<GameObj>,
                                                   enemyShots: seq<GameObj>)
    ensures var r := PlayerShotsPass(shots, enemies, barriers, enemyShots);
            forall k :: 0 <= k < |barriers| ==> r.barriers[k] == Chipped(barriers[k], CountOverlappedBy(shots, barriers[k]))
    decreases |shots|
  {
    if shots != [] {
      var a := MutualKill(shots[0], enemies);
      var b := ShotIntoBarriers(a.actor, barriers);
      var c := MutualKill(b.actor, enemyShots);
      var rest := PlayerShotsPass(shots[1..], a.targets, b.targets, c.targets);
      PlayerShotsPassBarriers(shots[1..], a.targets, b.targets, c.targets);
      ChipsCompose(shots, a.actor, barriers, b.targets, rest.barriers);
    }
  }

  /** An enemy shot dies exactly when some player shot overlaps it. */
  lemma {:induction false} PlayerShotsPassEnemyShots(shots: seq<GameObj>, enemies: seq<GameObj>, barriers: seq<GameObj>,
                                                     enemyShots: seq<GameObj>)
    ensures var r := PlayerShotsPass(shots, enemies, barriers, enemyShots);
            forall k :: 0 <= k < |enemyShots| ==>
              r.enemyShots[k] == if OverlappedByAny(shots, enemyShots[k]) then Kill(enemyShots[k]) else enemyShots[k]
    decreases |shots|
  {
    if shots != [] {
      var a := MutualKill(shots[0], enemies);
      var b := ShotIntoBarriers(a.actor, barriers);
      var c := MutualKill(b.actor, enemyShots);
      var rest := PlayerShotsPass(shots[1..], a.targets, b.targets, c.targets);
      PlayerShotsPassEnemyShots(shots[1..], a.targets, b.targets, c.targets);
      KillsCompose(shots, b.actor, enemyShots, c.targets, rest.enemyShots);
    }
  }

  /** Every (player shot, enemy) overlap scores one point, including a
      second shot on an enemy already killed in the same tick. */
  lemma {:induction false} PlayerShotsPassKills(shots: seq<GameObj>, enemies: seq<GameObj>, barriers: seq<GameObj>,
                                                enemyShots: seq<GameObj>)
    ensures PlayerShotsPass(shots, enemies, barriers, enemyShots).kills == PairCount(shots, enemies)
    decreases |shots|
  {
    if shots != [] {
      var a := MutualKill(shots[0], enemies);
      var b := ShotIntoBarriers(a.actor, barriers);
      var c := MutualKill(b.actor, enemyShots);
      PlayerShotsPassKills(shots[1..], a.targets, b.targets, c.targets);
      PairCountCongruent(shots[1..], a.targets, enemies);
    }
  }

  /** What the enemy-shot loop leaves behind. */
  datatype Barrage = Barrage(shots: seq<GameObj>, player: GameObj, barriers: seq<GameObj>, playerHits: nat)

  /** The fate of an enemy shot: it dies if it overlaps the player or any barrier. */
  predicate EnemyShotFate(q: GameObj, out: GameObj, player: GameObj, barriers: seq<GameObj>) {
    out == if Overlaps(player, q) || OverlapsAny(q, barriers) then Kill(q) else q
  }

  lemma EnemyShotFatesCompose(shots: seq<GameObj>, first: GameObj, rest: seq<GameObj>,
                              player: GameObj, barriers: seq<GameObj>, player': GameObj, barriers': seq<GameObj>)
    requires shots != [] && |rest| == |shots| - 1
    requires SameBody(player', player) && SameBodies(barriers', barriers)
    requires EnemyShotFate(shots[0], first, player, barriers)
    requires forall q :: 0 <= q < |rest| ==> EnemyShotFate(shots[1..][q], rest[q], player', barriers')
    ensures forall q :: 0 <= q < |shots| ==> EnemyShotFate(shots[q], ([first] + rest)[q], player, barriers)
  {
    forall q | 1 <= q < |shots|
      ensures EnemyShotFate(shots[q], ([first] + rest)[q], player, barriers)
    {
      var t := shots[1..][q - 1];
      assert t == shots[q];
      CountOverlappingCongruent(t, t, barriers', barriers);
      assert Overlaps(player', t) == Overlaps(player, t);
    }
  }

  /** The second outer loop: each enemy shot in turn against the player
      (one hit point lost per overlapping shot, no clamp), then against
      every barrier. What happens to the shots and the barriers is stated by
      the `EnemyShotsPass...` lemmas below. */
  function EnemyShotsPass(shots: seq<GameObj>, player: GameObj, barriers: seq<GameObj>): (r: Barrage)
    ensures SameBodies(r.shots, shots)
    ensures SameBodies(r.barriers, barriers)
    ensures r.playerHits == CountOverlapping(player, shots)
    ensures r.player == player.(hitPoints := player.hitPoints - r.playerHits)
    decreases |shots|
  {
    if shots == [] then Barrage([], player, barriers, 0)
    else
      var hit := Overlaps(player, shots[0]);
      var player' := if hit then player.SubHitPoints() else player;
      var shot' := if hit then Kill(shots[0]) else shots[0];
      var b := ShotIntoBarriers(shot', barriers);
      var rest := EnemyShotsPass(shots[1..], player', b.targets);
      CountOverlappingCongruent(player', player, shots[1..], shots[1..]);
      Barrage([b.actor] + rest.shots, rest.player, rest.barriers, (if hit then 1 else 0) + rest.playerHits)
  }

  /** An enemy shot dies exactly when it overlaps the player or some barrier. */
  lemma {:induction false} EnemyShotsPassShots(shots: seq<GameObj>, player: GameObj, barriers: seq<GameObj>)
    ensures var r := EnemyShotsPass(shots, player, barriers);
            forall q :: 0 <= q < |shots| ==> EnemyShotFate(shots[q], r.shots[q], player, barriers)
    decreases |shots|
  {
    if shots != [] {
      var hit := Overlaps(player, shots[0]);
      var player' := if hit then player.SubHitPoints() else player;
      var shot' := if hit then Kill(shots[0]) else shots[0];
      var b := ShotIntoBarriers(shot', barriers);
      var rest := EnemyShotsPass(shots[1..], player', b.targets);
      EnemyShotsPassShots(shots[1..], player', b.targets);
      CountOverlappingCongruent(shot', shots[0], barriers, barriers);
      EnemyShotFatesCompose(shots, b.actor, rest.shots, player, barriers, player', b.targets);
    }
  }

  /** A barrier loses one hit point and advances one sprite stage per enemy
      shot overlapping it. */
  lemma {:induction false} EnemyShotsPassBarriers(shots: seq<GameObj>, player: GameObj, barriers: seq<GameObj>)
    ensures var r := EnemyShotsPass(shots, player, barriers);
            forall k :: 0 <= k < |barriers| ==> r.barriers[k] == Chipped(barriers[k], CountOverlappedBy(shots, barriers[k]))
    decreases |shots|
  {
    if shots != [] {
      var hit := Overlaps(player, shots[0]);
      var player' := if hit then player.SubHitPoints() else player;
      var shot' := if hit then Kill(shots[0]) else shots[0];
      var b := ShotIntoBarriers(shot', barriers);
      var rest := EnemyShotsPass(shots[1..], player', b.targets);
      EnemyShotsPassBarriers(shots[1..], player', b.targets);
      ChipsCompose(shots, shot', barriers, b.targets, rest.barriers);
    }
  }

  /** What the enemy loop leaves behind. */
  datatype Stampede = Stampede(player: GameObj, barriers: seq<GameObj>)

  /** The third outer loop: each enemy in turn against the player (hit
      points set to 0 on contact) and against every barrier (hit points set
      to 0 on contact). */
  function EnemiesPass(enemies: seq<GameObj>, player: GameObj, barriers: seq<GameObj>): (r: Stampede)
    ensures r.player == if OverlapsAny(player, enemies) then Kill(player) else player
    ensures SameBodies(r.barriers, barriers)
    ensures forall k :: 0 <= k < |barriers| ==>
              r.barriers[k] == if OverlappedByAny(enemies, barriers[k]) then Kill(barriers[k]) else barriers[k]
    decreases |enemies|
  {
    if enemies == [] then Stampede(player, barriers)
    else
      var player' := if Overlaps(player, enemies[0]) then Kill(player) else player;
      var bs := EnemyOverBarriers(enemies[0], barriers);
      var rest := EnemiesPass(enemies[1..], player', bs);
      OverlapsAnyUnfold(player, enemies);
      CountOverlappingCongruent(player', player, enemies[1..], enemies[1..]);
      KillsCompose(enemies, enemies[0], barriers, bs, rest.barriers);
      rest
  }

  /** `collisions`: the three outer loops in source order. Bodies, lengths
      and every field but the player, the four collections, the score and the
      refresh flag are kept; the score rises by exactly the number of
      overlapping (player shot, enemy) pairs, and the refresh flag is raised
      when an enemy was hit or the player was hit by a shot. */
  function Collide(w: World): (r: World)
    ensures r == w.(player := r.player, enemies := r.enemies, barriers := r.barriers, shotsPlayer := r.shotsPlayer,
                    shotsEnemy := r.shotsEnemy, score := r.score, guiDirty := r.guiDirty)
    ensures SameBody(r.player, w.player)
    ensures SameBodies(r.enemies, w.enemies) && SameBodies(r.barriers, w.barriers)
    ensures SameBodies(r.shotsPlayer, w.shotsPlayer) && SameBodies(r.shotsEnemy, w.shotsEnemy)
    ensures r.score == w.score + PairCount(w.shotsPlayer, w.enemies)
    ensures r.score >= w.score
    ensures r.guiDirty <==> w.guiDirty || PairCount(w.shotsPlayer, w.enemies) > 0
                             || OverlapsAny(w.player, w.shotsEnemy)
  {
    var v := PlayerShotsPass(w.shotsPlayer, w.enemies, w.barriers, w.shotsEnemy);
    var g := EnemyShotsPass(v.enemyShots, w.player, v.barriers);
    var st := EnemiesPass(v.enemies, g.player, g.barriers);
    PlayerShotsPassKills(w.shotsPlayer, w.enemies, w.barriers, w.shotsEnemy);
    CountOverlappingCongruent(w.player, w.player, v.enemyShots, w.shotsEnemy);
    CountOverlappingPositive(w.player, w.shotsEnemy);
    w.(player := st.player, enemies := v.enemies, barriers := st.barriers,
       shotsPlayer := v.shots, shotsEnemy := g.shots,
       score := w.score + v.kills, guiDirty := w.guiDirty || v.kills > 0 || g.playerHits > 0)
  }

  /** After the pass a player shot is dead exactly when it overlapped some
      enemy, barrier or enemy shot. */
  lemma CollideShotsPlayer(w: World)
    ensures forall p :: 0 <= p < |w.shotsPlayer| ==>
              ShotFate(w.shotsPlayer[p], Collide(w).shotsPlayer[p], w.enemies, w.barriers, w.shotsEnemy)
  {
    PlayerShotsPassShots(w.shotsPlayer, w.enemies, w.barriers, w.shotsEnemy);
  }

  /** After the pass an enemy is dead exactly when some player shot
      overlapped it; its sprite is untouched. */
  lemma CollideEnemies(w: World)
    ensures forall k :: 0 <= k < |w.enemies| ==>
              Collide(w).enemies[k] == if OverlappedByAny(w.shotsPlayer, w.enemies[k]) then Kill(w.enemies[k]) else w.enemies[k]
  {
    PlayerShotsPassEnemies(w.shotsPlayer, w.enemies, w.barriers, w.shotsEnemy);
  }

  /** After the pass an enemy shot is dead exactly when a player shot
      overlapped it, it overlapped the player, or it overlapped a barrier. */
  lemma CollideShotsEnemy(w: World)
    ensures forall q :: 0 <= q < |w.shotsEnemy| ==>
              var s := w.shotsEnemy[q];
              Collide(w).shotsEnemy[q]
                == if OverlappedByAny(w.shotsPlayer, s) || Overlaps(w.player, s) || OverlapsAny(s, w.barriers)
                   then Kill(s) else s
  {
    var v := PlayerShotsPass(w.shotsPlayer, w.enemies, w.barriers, w.shotsEnemy);
    PlayerShotsPassEnemyShots(w.shotsPlayer, w.enemies, w.barriers, w.shotsEnemy);
    EnemyShotsPassShots(v.enemyShots, w.player, v.barriers);
    forall q | 0 <= q < |w.shotsEnemy|
      ensures OverlapsAny(v.enemyShots[q], v.barriers) == OverlapsAny(w.shotsEnemy[q], w.barriers)
      ensures Overlaps(w.player, v.enemyShots[q]) == Overlaps(w.player, w.shotsEnemy[q])
    {
      CountOverlappingCongruent(v.enemyShots[q], w.shotsEnemy[q], v.barriers, w.barriers);
    }
  }

  /** A barrier loses one hit point and one sprite stage per overlapping
      shot of either side, and is then destroyed outright (hit points 0,
      sprite stage kept) if an enemy overlaps it. */
  lemma CollideBarriers(w: World)
    ensures forall k :: 0 <= k < |w.barriers| ==>
              Collide(w).barriers[k] == BarrierAfterCollisions(w, w.barriers[k])
  {
    forall k | 0 <= k < |w.barriers|
      ensures Collide(w).barriers[k] == BarrierAfterCollisions(w, w.barriers[k])
    {
      CollideBarrier(w, k);
    }
  }

  /** The closed form of one barrier's fate in `Collide`. */
  function BarrierAfterCollisions(w: World, b: GameObj): GameObj {
    var chipped := Chipped(b, CountOverlappedBy(w.shotsPlayer, b) + CountOverlappedBy(w.shotsEnemy, b));
    if OverlappedByAny(w.enemies, b) then Kill(chipped) else chipped
  }

  lemma CollideBarrier(w: World, k: nat)
    requires k < |w.barriers|
    ensures Collide(w).barriers[k] == BarrierAfterCollisions(w, w.barriers[k])
  {
    var v := PlayerShotsPass(w.shotsPlayer, w.enemies, w.barriers, w.shotsEnemy);
    var g := EnemyShotsPass(v.enemyShots, w.player, v.barriers);
    var st := EnemiesPass(v.enemies, g.player, g.barriers);
    assert Collide(w).barriers == st.barriers;
    var b := w.barriers[k];
    PlayerShotsPassBarrierAt(w.shotsPlayer, w.enemies, w.barriers, w.shotsEnemy, k);
    EnemyShotsPassBarrierAt(v.enemyShots, w.shotsEnemy, w.player, v.barriers, b, k);
    EnemiesPassBarrierAt(v.enemies, w.enemies, g.player, g.barriers, b, k);
  }

  /** One barrier after the player-shot pass. */
  lemma PlayerShotsPassBarrierAt(shots: seq<GameObj>, enemies: seq<GameObj>, barriers: seq<GameObj>,
                                 enemyShots: seq<GameObj>, k: nat)
    requires k < |barriers|
    ensures PlayerShotsPass(shots, enemies, barriers, enemyShots).barriers[k]
              == Chipped(barriers[k], CountOverlappedBy(shots, barriers[k]))
  {
    PlayerShotsPassBarriers(shots, enemies, barriers, enemyShots);
  }

  /** One barrier after the enemy-shot pass, counted against the shots and
      the barrier as they were before the player-shot pass. */
  lemma EnemyShotsPassBarrierAt(shots: seq<GameObj>, shots0: seq<GameObj>, player: GameObj,
                                barriers: seq<GameObj>, b0: GameObj, k: nat)
    requires k < |barriers| && SameBodies(shots, shots0) && SameBody(barriers[k], b0)
    ensures EnemyShotsPass(shots, player, barriers).barriers[k] == Chipped(barriers[k], CountOverlappedBy(shots0, b0))
  {
    EnemyShotsPassBarriers(shots, player, barriers);
    CountOverlappedByCongruent(shots, shots0, barriers[k], b0);
  }

  /** One barrier after the enemy pass, checked against the enemies and the
      barrier as they were before the shot passes. */
  lemma EnemiesPassBarrierAt(enemies: seq<GameObj>, enemies0: seq<GameObj>, player: GameObj,
                             barriers: seq<GameObj>, b0: GameObj, k: nat)
    requires k < |barriers| && SameBodies(enemies, enemies0) && SameBody(barriers[k], b0)
    ensures EnemiesPass(enemies, player, barriers).barriers[k]
              == if OverlappedByAny(enemies0, b0) then Kill(barriers[k]) else barriers[k]
  {
    CountOverlappedByCongruent(enemies, enemies0, barriers[k], b0);
  }

  /** The player loses one hit point per overlapping enemy shot, without a
      lower clamp, and is set to 0 hit points if any enemy overlaps it. */
  lemma CollidePlayer(w: World)
    ensures Collide(w).player
              == if OverlapsAny(w.player, w.enemies) then Kill(w.player)
                 else w.player.(hitPoints := w.player.hitPoints - CountOverlapping(w.player, w.shotsEnemy))
  {
    var v := PlayerShotsPass(w.shotsPlayer, w.enemies, w.barriers, w.shotsEnemy);
    var g := EnemyShotsPass(v.enemyShots, w.player, v.barriers);
    CountOverlappingCongruent(w.player, w.player, v.enemyShots, w.shotsEnemy);
    CountOverlappingCongruent(g.player, w.player, v.enemies, w.enemies);
  }
}
