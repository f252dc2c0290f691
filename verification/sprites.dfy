/** The sprite lookup of the asset store: which image draws a game object,
    chosen from its tag and its `currSprite` value. Only the choice is
    modelled; the images themselves are opaque handles. */
module Sprites {
  import opened Entity

  /** The ten image handles of the asset store. `EnemyImage(n)` is
      `enemy_image_n` and `BarrierImage(n)` is `barrier_image_n`. */
  datatype Image =
    | PlayerImage
    | EnemyImage(frame: nat)
    | BarrierImage(stage: nat)
    | ShotImage

  /** The two animation frames of one enemy design: frames 1 and 2 belong
      to the first design, frames 3 and 4 to the second. */
  function EnemyDesign(img: Image): nat
    requires img.EnemyImage?
  {
    (img.frame + 1) / 2
  }

  function GameObjSprite(tag: Tag, currSprite: int): (img: Image)
    ensures tag == Player <==> img == PlayerImage
    ensures tag == Shot <==> img == ShotImage
    ensures tag == Enemy <==> img.EnemyImage? && 1 <= img.frame <= 4
    ensures tag == Barrier <==> img.BarrierImage? && 1 <= img.stage <= 4
    ensures tag == Barrier ==> img.stage == if 0 <= currSprite <= 3 then currSprite + 1 else 1
    ensures tag == Enemy && currSprite == 1 ==> img == EnemyImage(2)
    ensures tag == Enemy && currSprite == -1 ==> img == EnemyImage(1)
    ensures tag == Enemy && currSprite == 2 ==> img == EnemyImage(4)
    ensures tag == Enemy && currSprite == -2 ==> img == EnemyImage(3)
    ensures tag == Enemy && currSprite != 1 && currSprite != -1 && currSprite != 2 && currSprite != -2
            ==> img == EnemyImage(2)
  {
    match tag
    case Player => PlayerImage
    case Enemy =>
      if currSprite == 1 then EnemyImage(2)
      else if currSprite == -1 then EnemyImage(1)
      else if currSprite == 2 then EnemyImage(4)
      else if currSprite == -2 then EnemyImage(3)
      else EnemyImage(2)
    case Barrier =>
      if currSprite == 0 then BarrierImage(1)
      else if currSprite == 1 then BarrierImage(2)
      else if currSprite == 2 then BarrierImage(3)
      else if currSprite == 3 then BarrierImage(4)
      else BarrierImage(1)
    case Shot => ShotImage
  }

  /** Negating an enemy's sprite value, as the animation toggle does, swaps
      between the two frames of the same design: the sprite values 1 and 2
      pick the two designs and their signs pick the frame. */
  lemma EnemyToggleSwapsFrame(s: int)
    requires s == 1 || s == -1 || s == 2 || s == -2
    ensures GameObjSprite(Enemy, s) != GameObjSprite(Enemy, -s)
    ensures EnemyDesign(GameObjSprite(Enemy, s)) == EnemyDesign(GameObjSprite(Enemy, -s))
    ensures EnemyDesign(GameObjSprite(Enemy, s)) == if s == 1 || s == -1 then 1 else 2
  {
  }

  /** Each of the four barrier damage stages 0..3 has its own image. */
  lemma BarrierStagesDistinct(a: int, b: int)
    requires 0 <= a <= 3 && 0 <= b <= 3 && a != b
    ensures GameObjSprite(Barrier, a) != GameObjSprite(Barrier, b)
  {
  }

  /** The player and shot images ignore the sprite value entirely. */
  lemma PlayerAndShotIgnoreSprite(s: int, t: int)
    ensures GameObjSprite(Player, s) == GameObjSprite(Player, t)
    ensures GameObjSprite(Shot, s) == GameObjSprite(Shot, t)
  {
  }
}
