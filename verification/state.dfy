/** The game state that every phase of a tick reads and rewrites. */
module State {
  import opened Entity

  /** The simulation part of the main state: the player, the four owned
      collections, the counters, the screen size, the three countdown
      timers, the "interface needs refresh" flag and the terminal
      game-over flag. Fonts, images, sounds and HUD texts are left out. */
  datatype World = World(
    player: GameObj,
    enemies: seq<GameObj>,
    barriers: seq<GameObj>,
    shotsPlayer: seq<GameObj>,
    shotsEnemy: seq<GameObj>,
    level: int,
    score: int,
    screenWidth: nat,
    screenHeight: nat,
    playerShotTimeout: real,
    enemyShotTimeout: real,
    enemySpriteTimer: real,
    guiDirty: bool,
    over: bool)

  /** Every object of the collection has the given kind and that kind's size. */
  predicate AllOfKind(objs: seq<GameObj>, tag: Tag) {
    forall k :: 0 <= k < |objs| ==> objs[k].tag == tag && objs[k].size == SizeOf(tag)
  }

  /** The kind discipline of the state: one player, and each collection
      holding only objects of its own kind with their constructor's size. */
  predicate WellFormed(w: World) {
    && w.player.tag == Player && w.player.size == SizeOf(Player)
    && AllOfKind(w.enemies, Enemy)
    && AllOfKind(w.barriers, Barrier)
    && AllOfKind(w.shotsPlayer, Shot)
    && AllOfKind(w.shotsEnemy, Shot)
  }
}
