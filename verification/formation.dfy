/** The formation generator: the 5 x 11 enemy grid of a wave and the row of
    four barriers. Both are built the way the source loops build them, with
    running x and y accumulators, and their contracts give the closed-form
    layout. */
module Formation {
  import opened Entity

  const EnemyLines := 5
  const EnemyColumns := 11
  const BarrierCount := 4

  /** Horizontal distance between neighbouring enemies, also used as the
      vertical distance between rows: 40 units of margin on each side. */
  function EnemySpacing(width: nat): real {
    (width as real - 40.0 * 2.0) / (EnemyColumns as real)
  }

  function EnemyStartX(width: nat): real {
    40.0 - width as real / 2.0 + EnemySpacing(width) / 2.0
  }

  function EnemyStartY(diffLevel: int): real {
    250.0 - (diffLevel as real) * 35.0
  }

  /** The sprite of every enemy of row `j`: rows alternate 1, 2, 1, 2, 1. */
  function RowSprite(j: int): int {
    if j % 2 == 0 then 1 else 2
  }

  function Other(sprite: int): int {
    if sprite == 1 then 2 else 1
  }

  /** The inner loop: `n` enemies from `x` rightwards, `spacing` apart. */
  function EnemyRow(x: real, y: real, sprite: int, spacing: real, n: nat): (r: seq<GameObj>)
    ensures |r| == n
    ensures forall i :: 0 <= i < n ==>
              r[i] == NewEnemy(Vec2(x + (i as real) * spacing, y)).SetCurrSprite(sprite)
    decreases n
  {
    if n == 0 then []
    else
      var rest := EnemyRow(x + spacing, y, sprite, spacing, n - 1);
      var r := [NewEnemy(Vec2(x, y)).SetCurrSprite(sprite)] + rest;
      forall i | 1 <= i < n
        ensures r[i] == NewEnemy(Vec2(x + (i as real) * spacing, y)).SetCurrSprite(sprite)
      {
        assert r[i] == rest[i - 1];
        assert x + spacing + ((i - 1) as real) * spacing == x + (i as real) * spacing;
      }
      r
  }

  /** The enemy at index `k` of a grid whose top-left enemy stands at
      (x0, y) with sprite `sprite`: column `k % 11`, row `k / 11`. */
  function GridEnemy(x0: real, y: real, sprite: int, spacing: real, k: nat): GameObj {
    var row := k / EnemyColumns;
    var col := k % EnemyColumns;
    NewEnemy(Vec2(x0 + (col as real) * spacing, y - (row as real) * spacing))
      .SetCurrSprite(if row % 2 == 0 then sprite else Other(sprite))
  }

  /** Index k + 11 of a grid is index k of the grid one row lower whose
      first row has the other sprite. */
  lemma GridEnemyNextRow(x0: real, y: real, sprite: int, spacing: real, k: nat)
    requires sprite == 1 || sprite == 2
    ensures GridEnemy(x0, y - spacing, Other(sprite), spacing, k) == GridEnemy(x0, y, sprite, spacing, k + 11)
  {
    var row, col := k / 11, k % 11;
    assert (k + 11) / 11 == row + 1 && (k + 11) % 11 == col;
    var s := if row % 2 == 0 then Other(sprite) else Other(Other(sprite));
    assert s == if (row + 1) % 2 == 0 then sprite else Other(sprite);
    var x := x0 + (col as real) * spacing;
    var yLow := y - spacing - (row as real) * spacing;
    assert yLow == y - ((row + 1) as real) * spacing;
    assert GridEnemy(x0, y - spacing, Other(sprite), spacing, k) == NewEnemy(Vec2(x, yLow)).SetCurrSprite(s);
    assert GridEnemy(x0, y, sprite, spacing, k + 11) == NewEnemy(Vec2(x, yLow)).SetCurrSprite(s);
  }

  /** The first eleven indices of a grid are its top row. */
  lemma GridEnemyFirstRow(x0: real, y: real, sprite: int, spacing: real, k: nat)
    requires k < 11
    ensures GridEnemy(x0, y, sprite, spacing, k) == NewEnemy(Vec2(x0 + (k as real) * spacing, y)).SetCurrSprite(sprite)
  {
    assert k / 11 == 0 && k % 11 == k;
  }

  /** The outer loop: `rows` rows, each one `spacing` lower than the last,
      the sprite toggling between 1 and 2 after each row. */
  function EnemyRows(x0: real, y: real, sprite: int, spacing: real, rows: nat): (r: seq<GameObj>)
    requires sprite == 1 || sprite == 2
    ensures |r| == rows * EnemyColumns
    ensures forall k :: 0 <= k < |r| ==> r[k] == GridEnemy(x0, y, sprite, spacing, k)
    decreases rows
  {
    if rows == 0 then []
    else
      var row := EnemyRow(x0, y, sprite, spacing, EnemyColumns);
      var rest := EnemyRows(x0, y - spacing, Other(sprite), spacing, rows - 1);
      var r := row + rest;
      forall k | 0 <= k < |r|
        ensures r[k] == GridEnemy(x0, y, sprite, spacing, k)
      {
        if k < 11 {
          assert r[k] == row[k];
          GridEnemyFirstRow(x0, y, sprite, spacing, k);
        } else {
          assert r[k] == rest[k - 11];
          GridEnemyNextRow(x0, y, sprite, spacing, k - 11);
        }
      }
      r
  }

  /** `create_enemies`: the enemy grid of a wave with difficulty `diffLevel`,
      row by row from the top, each row from left to right. */
  function CreateEnemies(width: nat, diffLevel: int): (r: seq<GameObj>)
    ensures |r| == EnemyLines * EnemyColumns == 55
    ensures forall k :: 0 <= k < |r| ==>
              r[k] == GridEnemy(EnemyStartX(width), EnemyStartY(diffLevel), 1, EnemySpacing(width), k)
  {
    EnemyRows(EnemyStartX(width), EnemyStartY(diffLevel), 1, EnemySpacing(width), EnemyLines)
  }

  /** The layout of the grid: enemy `k` sits in row `k / 11` and column
      `k % 11`; each row is `spacing` lower than the one above, the top row
      is 35 units lower per difficulty level, and rows alternate sprites 1
      and 2. Every enemy starts with 1 hit point, size 6, speed 600 and
      moving right. */
  lemma CreateEnemiesLayout(width: nat, diffLevel: int, k: nat)
    requires k < 55
    ensures var e := CreateEnemies(width, diffLevel)[k];
            && e.tag == Enemy && e.hitPoints == 1 && e.size == 6.0
            && e.speed == 600.0 && e.direction == Vec2(1.0, 0.0)
            && e.currSprite == RowSprite(k / 11)
            && e.pos.x == EnemyStartX(width) + ((k % 11) as real) * EnemySpacing(width)
            && e.pos.y == 250.0 - 35.0 * (diffLevel as real) - ((k / 11) as real) * EnemySpacing(width)
  {
  }

  function BarrierSpacing(width: nat): real {
    (width as real - 60.0 * 2.0) / 4.0
  }

  function BarrierStartX(width: nat): real {
    60.0 - width as real / 2.0 + BarrierSpacing(width) / 2.0
  }

  const BarrierY := -200.0

  /** The barrier loop: `n` barriers from `x` rightwards, `spacing` apart. */
  function BarrierRow(x: real, spacing: real, n: nat): (r: seq<GameObj>)
    ensures |r| == n
    ensures forall k :: 0 <= k < n ==> r[k] == NewBarrier(Vec2(x + (k as real) * spacing, BarrierY))
    decreases n
  {
    if n == 0 then []
    else
      var rest := BarrierRow(x + spacing, spacing, n - 1);
      var r := [NewBarrier(Vec2(x, BarrierY))] + rest;
      forall k | 1 <= k < n
        ensures r[k] == NewBarrier(Vec2(x + (k as real) * spacing, BarrierY))
      {
        assert r[k] == rest[k - 1];
        assert x + spacing + ((k - 1) as real) * spacing == x + (k as real) * spacing;
      }
      r
  }

  /** `create_barriers`: four fresh barriers at y = -200, evenly spaced. */
  function CreateBarriers(width: nat): (r: seq<GameObj>)
    ensures |r| == BarrierCount
    ensures forall k :: 0 <= k < |r| ==>
              && r[k].tag == Barrier && r[k].hitPoints == 4 && r[k].currSprite == 0
              && r[k].size == 12.0 && r[k].speed == 0.0 && r[k].direction == Zero
              && r[k].pos == Vec2(BarrierStartX(width) + (k as real) * BarrierSpacing(width), -200.0)
    ensures forall k :: 0 <= k < |r| - 1 ==> r[k + 1].pos.x - r[k].pos.x == (width as real - 120.0) / 4.0
  {
    BarrierRow(BarrierStartX(width), BarrierSpacing(width), BarrierCount)
  }
}
