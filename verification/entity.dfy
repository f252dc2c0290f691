/** Game objects: one record type shared by the player, the enemies, the
    barriers and the shots of both sides, with its per-kind constructors,
    its motion step and its field setters. */
module Entity {

  /** A point or a vector in world coordinates: origin at the screen centre, +y up. */
  datatype Vec2 = Vec2(x: real, y: real) {
    function Add(v: Vec2): Vec2 { Vec2(x + v.x, y + v.y) }
    function Sub(v: Vec2): Vec2 { Vec2(x - v.x, y - v.y) }
    function Scale(k: real): Vec2 { Vec2(x * k, y * k) }
    function NormSquared(): real { x * x + y * y }
  }

  const Zero := Vec2(0.0, 0.0)

  /** The kind of a game object; player and enemy shots share the `Shot` tag
      and are told apart only by the collection that owns them. */
  datatype Tag = Player | Enemy | Barrier | Shot

  const PlayerHp := 3
  const EnemyHp := 1
  const BarrierHp := 4
  const ShotHp := 1

  const PlayerSize := 12.0
  const EnemySize := 6.0
  const BarrierSize := 12.0
  const ShotSize := 6.0

  const PlayerSpeed := 300.0
  const EnemySpeed := 600.0
  const ShotSpeed := 300.0
  const PlayerStartY := -290.0

  /** The size of every object of a kind, as its constructor sets it. */
  function SizeOf(tag: Tag): real {
    match tag
    case Player => PlayerSize
    case Enemy => EnemySize
    case Barrier => BarrierSize
    case Shot => ShotSize
  }

  datatype GameObj = GameObj(
    tag: Tag,
    currSprite: int,
    pos: Vec2,
    speed: real,
    direction: Vec2,
    size: real,
    hitPoints: int)
  {
    /** One motion step: the position advances by direction * speed * dt. */
    function UpdatePosition(dt: real): (r: GameObj)
      ensures r.pos.x == pos.x + direction.x * speed * dt
      ensures r.pos.y == pos.y + direction.y * speed * dt
      ensures r == this.(pos := r.pos)
    {
      this.(pos := pos.Add(direction.Scale(speed).Scale(dt)))
    }

    function SetCurrSprite(s: int): (r: GameObj)
      ensures r.currSprite == s && r == this.(currSprite := s)
    {
      this.(currSprite := s)
    }

    function SetPos(p: Vec2): (r: GameObj)
      ensures r.pos == p && r == this.(pos := p)
    {
      this.(pos := p)
    }

    function SetPosX(v: real): (r: GameObj)
      ensures r.pos.x == v && r.pos.y == pos.y
      ensures r == this.(pos := r.pos)
    {
      this.(pos := Vec2(v, pos.y))
    }

    function SetPosY(v: real): (r: GameObj)
      ensures r.pos.y == v && r.pos.x == pos.x
      ensures r == this.(pos := r.pos)
    {
      this.(pos := Vec2(pos.x, v))
    }

    function SetSpeed(v: real): (r: GameObj)
      ensures r.speed == v && r == this.(speed := v)
    {
      this.(speed := v)
    }

    function SetDirection(d: Vec2): (r: GameObj)
      ensures r.direction == d && r == this.(direction := d)
    {
      this.(direction := d)
    }

    function SetDirectionX(v: real): (r: GameObj)
      ensures r.direction.x == v && r.direction.y == direction.y
      ensures r == this.(direction := r.direction)
    {
      this.(direction := Vec2(v, direction.y))
    }

    function SetDirectionY(v: real): (r: GameObj)
      ensures r.direction.y == v && r.direction.x == direction.x
      ensures r == this.(direction := r.direction)
    {
      this.(direction := Vec2(direction.x, v))
    }

    function SetHitPoints(hp: int): (r: GameObj)
      ensures r.hitPoints == hp && r == this.(hitPoints := hp)
    {
      this.(hitPoints := hp)
    }

    /** Takes one hit point; there is no lower clamp, so 0 becomes -1. */
    function SubHitPoints(): (r: GameObj)
      ensures r.hitPoints + 1 == hitPoints
      ensures r.hitPoints < hitPoints
      ensures r == this.(hitPoints := r.hitPoints)
    {
      this.(hitPoints := hitPoints - 1)
    }
  }

  /** The general constructor: a fresh object always shows sprite 0. */
  function New(tag: Tag, pos: Vec2, speed: real, direction: Vec2, size: real, hitPoints: int): (r: GameObj)
    ensures r.currSprite == 0
    ensures r.tag == tag && r.pos == pos && r.speed == speed && r.direction == direction
    ensures r.size == size && r.hitPoints == hitPoints
  {
    GameObj(tag, 0, pos, speed, direction, size, hitPoints)
  }

  function NewPlayer(): (r: GameObj)
    ensures r.tag == Player && r.pos == Vec2(0.0, PlayerStartY)
    ensures r.hitPoints == 3 && r.size == 12.0 && r.speed == 300.0 && r.direction == Zero
    ensures r.size == SizeOf(r.tag) && r.currSprite == 0
  {
    New(Player, Vec2(0.0, PlayerStartY), PlayerSpeed, Zero, PlayerSize, PlayerHp)
  }

  function NewShot(pos: Vec2, direction: Vec2): (r: GameObj)
    ensures r.tag == Shot && r.pos == pos && r.direction == direction
    ensures r.hitPoints == 1 && r.size == 6.0 && r.speed == 300.0
    ensures r.size == SizeOf(r.tag) && r.currSprite == 0
  {
    New(Shot, pos, ShotSpeed, direction, ShotSize, ShotHp)
  }

  function NewEnemy(pos: Vec2): (r: GameObj)
    ensures r.tag == Enemy && r.pos == pos && r.direction == Vec2(1.0, 0.0)
    ensures r.hitPoints == 1 && r.size == 6.0 && r.speed == 600.0
    ensures r.size == SizeOf(r.tag) && r.currSprite == 0
  {
    New(Enemy, pos, EnemySpeed, Vec2(1.0, 0.0), EnemySize, EnemyHp)
  }

  function NewBarrier(pos: Vec2): (r: GameObj)
    ensures r.tag == Barrier && r.pos == pos && r.direction == Zero
    ensures r.hitPoints == 4 && r.size == 12.0 && r.speed == 0.0
    ensures r.size == SizeOf(r.tag) && r.currSprite == 0
  {
    New(Barrier, pos, 0.0, Zero, BarrierSize, BarrierHp)
  }

  /** A barrier has speed 0 and no direction, so no time step moves it. */
  lemma BarrierNeverMoves(pos: Vec2, dt: real)
    ensures NewBarrier(pos).UpdatePosition(dt) == NewBarrier(pos)
  {
  }

  /** No setter writes `tag` or `size`: every object keeps the kind and the
      size it was built with, whatever sequence of setters is applied. */
  lemma SettersKeepTagAndSize(o: GameObj, s: int, p: Vec2, v: real, d: Vec2, hp: int, dt: real)
    ensures var all := [o.SetCurrSprite(s), o.SetPos(p), o.SetPosX(v), o.SetPosY(v), o.SetSpeed(v),
                        o.SetDirection(d), o.SetDirectionX(v), o.SetDirectionY(v),
                        o.SetHitPoints(hp), o.SubHitPoints(), o.UpdatePosition(dt)];
            forall k :: 0 <= k < |all| ==> all[k].tag == o.tag && all[k].size == o.size
  {
  }
}
