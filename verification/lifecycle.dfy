/** The end of every tick's bookkeeping: the purge of dead objects and the
    wave respawn. The purge is stated as an order-preserving filter on hit
    points `!= 0`, and the source's index-list algorithm is proved to compute
    exactly that filter. */
module Lifecycle {
  import opened Entity
  import opened State
  import opened Formation
  import opened Collisions

  /** The difficulty level stops rising after level 7. */
  const MaxDiffLevel := 7

  /** The in-order subsequence of the objects whose hit points are not 0.
      An object below 0 is kept: the test is equality with 0. */
  function Alive(xs: seq<GameObj>): (r: seq<GameObj>)
    ensures |r| <= |xs|
    ensures forall k :: 0 <= k < |r| ==> r[k].hitPoints != 0
    decreases |xs|
  {
    if xs == [] then []
    else (if xs[0].hitPoints != 0 then [xs[0]] else []) + Alive(xs[1..])
  }

  /** The filter keeps exactly the living objects: nothing is invented and
      no living object is lost. */
  lemma {:induction false} AliveMembers(xs: seq<GameObj>, o: GameObj)
    ensures o in Alive(xs) <==> o in xs && o.hitPoints != 0
    decreases |xs|
  {
    if xs != [] {
      AliveMembers(xs[1..], o);
      assert o in xs <==> o == xs[0] || o in xs[1..];
    }
  }

  /** Filtering distributes over concatenation. */
  lemma {:induction false} AliveConcat(xs: seq<GameObj>, ys: seq<GameObj>)
    ensures Alive(xs + ys) == Alive(xs) + Alive(ys)
    decreases |xs|
  {
    if xs != [] {
      var head := if xs[0].hitPoints != 0 then [xs[0]] else [];
      assert (xs + ys)[0] == xs[0];
      assert (xs + ys)[1..] == xs[1..] + ys;
      AliveConcat(xs[1..], ys);
      calc {
        Alive(xs + ys);
        head + Alive(xs[1..] + ys);
        head + (Alive(xs[1..]) + Alive(ys));
        (head + Alive(xs[1..])) + Alive(ys);
        Alive(xs) + Alive(ys);
      }
    } else {
      assert xs + ys == ys;
    }
  }

  /** A collection with no dead object is left as it is. */
  lemma {:induction false} AliveKeepsLiving(xs: seq<GameObj>)
    requires forall k :: 0 <= k < |xs| ==> xs[k].hitPoints != 0
    ensures Alive(xs) == xs
    decreases |xs|
  {
    if xs != [] {
      AliveKeepsLiving(xs[1..]);
    }
  }

  /** Filtering twice is filtering once. */
  lemma AliveIdempotent(xs: seq<GameObj>)
    ensures Alive(Alive(xs)) == Alive(xs)
  {
    AliveKeepsLiving(Alive(xs));
  }

  /** The index list of `remove_objects` so far: strictly increasing
      indices of dead objects, each below `below`, missing none below it. */
  predicate DeadIndexList(xs: seq<GameObj>, list: seq<nat>, below: nat) {
    && below <= |xs|
    && (forall j :: 0 <= j < |list| ==> list[j] < below && xs[list[j]].hitPoints == 0)
    && (forall j, l :: 0 <= j < l < |list| ==> list[j] < list[l])
    && (forall k :: 0 <= k < below && xs[k].hitPoints == 0 ==> k in list)
  }

  /** One pair of loops of `remove_objects`: collect the indices of the dead
      objects in increasing order, then pop them from the back of the list,
      removing one element at a time, so that no removal shifts an index
      still waiting in the list. The result is exactly the filter. */
  method RemoveDead(xs: seq<GameObj>) returns (ys: seq<GameObj>)
    ensures ys == Alive(xs)
  {
    var indexList := CollectDead(xs);
    ys := RemoveListed(xs, indexList);
  }

  /** The collecting loop: the indices of the dead objects, in order. */
  method CollectDead(xs: seq<GameObj>) returns (indexList: seq<nat>)
    ensures DeadIndexList(xs, indexList, |xs|)
  {
    indexList := [];
    var i := 0;
    while i < |xs|
      invariant i <= |xs|
      invariant DeadIndexList(xs, indexList, i)
    {
      if xs[i].hitPoints == 0 {
        indexList := indexList + [i];
      }
      i := i + 1;
    }
  }

  /** The removing loop: as many pops as the list had entries, each
      removing the element at the popped index. */
  method RemoveListed(xs: seq<GameObj>, list: seq<nat>) returns (ys: seq<GameObj>)
    requires DeadIndexList(xs, list, |xs|)
    ensures ys == Alive(xs)
  {
    var indexList := list;
    ys := xs;
    // Everything at or after `cut` has been filtered; nothing before it has been touched.
    ghost var cut: nat := |xs|;
    var count := |indexList|;
    var t := 0;
    while t < count
      invariant 0 <= t <= count && |indexList| == count - t
      invariant DeadIndexList(xs, indexList, cut)
      invariant ys == xs[..cut] + Alive(xs[cut..])
    {
      var at := indexList[|indexList| - 1];
      indexList := indexList[..|indexList| - 1];
      RemoveOneStep(xs, cut, at, ys);
      ys := ys[..at] + ys[at + 1..];
      cut := at;
      t := t + 1;
    }
    LivingRun(xs, 0, cut);
    AliveConcat(xs[..cut], xs[cut..]);
    assert xs[..cut] + xs[cut..] == xs;
    assert xs[0..cut] == xs[..cut];
  }

  /** Removing the last dead index `at` below `cut`, when everything
      strictly between them is alive, moves the filtered boundary to `at`. */
  lemma RemoveOneStep(xs: seq<GameObj>, cut: nat, at: nat, ys: seq<GameObj>)
    requires at < cut <= |xs|
    requires xs[at].hitPoints == 0
    requires forall k :: at < k < cut ==> xs[k].hitPoints != 0
    requires ys == xs[..cut] + Alive(xs[cut..])
    ensures ys[..at] + ys[at + 1..] == xs[..at] + Alive(xs[at..])
  {
    var middle := xs[at + 1..cut];
    var rest := Alive(xs[cut..]);
    SplitAround(xs, at, cut);
    ConcatSlices(xs[..cut], rest, at);
    ConcatSlices(xs[..cut], rest, at + 1);
    LivingRun(xs, at + 1, cut);
    AliveDropsDeadHead(xs[at..]);
    AliveConcat(middle, xs[cut..]);
  }

  /** Slicing a concatenation inside its first part. */
  lemma ConcatSlices<T>(a: seq<T>, b: seq<T>, i: nat)
    requires i <= |a|
    ensures (a + b)[..i] == a[..i]
    ensures (a + b)[i..] == a[i..] + b
  {
  }

  /** The slices of `xs` around a position `at` below `cut`. */
  lemma SplitAround<T>(xs: seq<T>, at: nat, cut: nat)
    requires at < cut <= |xs|
    ensures xs[..cut][..at] == xs[..at]
    ensures xs[..cut][at + 1..] == xs[at + 1..cut]
    ensures xs[at..][1..] == xs[at + 1..]
    ensures xs[at + 1..] == xs[at + 1..cut] + xs[cut..]
  {
  }

  /** A run of living objects passes through the filter unchanged. */
  lemma LivingRun(xs: seq<GameObj>, lo: nat, hi: nat)
    requires lo <= hi <= |xs|
    requires forall k :: lo <= k < hi ==> xs[k].hitPoints != 0
    ensures Alive(xs[lo..hi]) == xs[lo..hi]
  {
    var run := xs[lo..hi];
    assert forall k :: 0 <= k < |run| ==> run[k] == xs[lo + k];
    AliveKeepsLiving(run);
  }

  /** A dead first object is dropped by the filter. */
  lemma AliveDropsDeadHead(xs: seq<GameObj>)
    requires xs != [] && xs[0].hitPoints == 0
    ensures Alive(xs) == Alive(xs[1..])
  {
    assert [] + Alive(xs[1..]) == Alive(xs[1..]);
  }

  /** `remove_objects` as a pure function of the state: the four
      collections filtered, everything else, the player included, kept. */
  function Purged(w: World): (r: World)
    ensures r == w.(shotsPlayer := r.shotsPlayer, shotsEnemy := r.shotsEnemy, enemies := r.enemies, barriers := r.barriers)
    ensures forall o :: o in r.shotsPlayer <==> o in w.shotsPlayer && o.hitPoints != 0
    ensures forall o :: o in r.shotsEnemy <==> o in w.shotsEnemy && o.hitPoints != 0
    ensures forall o :: o in r.enemies <==> o in w.enemies && o.hitPoints != 0
    ensures forall o :: o in r.barriers <==> o in w.barriers && o.hitPoints != 0
  {
    forall o: GameObj
      ensures o in Alive(w.shotsPlayer) <==> o in w.shotsPlayer && o.hitPoints != 0
      ensures o in Alive(w.shotsEnemy) <==> o in w.shotsEnemy && o.hitPoints != 0
      ensures o in Alive(w.enemies) <==> o in w.enemies && o.hitPoints != 0
      ensures o in Alive(w.barriers) <==> o in w.barriers && o.hitPoints != 0
    {
      AliveMembers(w.shotsPlayer, o);
      AliveMembers(w.shotsEnemy, o);
      AliveMembers(w.enemies, o);
      AliveMembers(w.barriers, o);
    }
    w.(shotsPlayer := Alive(w.shotsPlayer), shotsEnemy := Alive(w.shotsEnemy),
       enemies := Alive(w.enemies), barriers := Alive(w.barriers))
  }

  /** `remove_objects` as the source runs it: the two loops once per
      collection, in the order player shots, enemy shots, enemies, barriers. */
  method RemoveObjects(w: World) returns (r: World)
    ensures r == Purged(w)
    ensures r.player == w.player
    ensures forall k :: 0 <= k < |r.enemies| ==> r.enemies[k].hitPoints != 0
    ensures forall k :: 0 <= k < |r.barriers| ==> r.barriers[k].hitPoints != 0
  {
    var shotsPlayer := RemoveDead(w.shotsPlayer);
    var shotsEnemy := RemoveDead(w.shotsEnemy);
    var enemies := RemoveDead(w.enemies);
    var barriers := RemoveDead(w.barriers);
    r := w.(shotsPlayer := shotsPlayer, shotsEnemy := shotsEnemy, enemies := enemies, barriers := barriers);
  }

  /** A second purge changes nothing. */
  lemma PurgedIdempotent(w: World)
    ensures Purged(Purged(w)) == Purged(w)
  {
    AliveIdempotent(w.shotsPlayer);
    AliveIdempotent(w.shotsEnemy);
    AliveIdempotent(w.enemies);
    AliveIdempotent(w.barriers);
  }

  /** The purge keeps the kind discipline of the state. */
  lemma PurgedWellFormed(w: World)
    requires WellFormed(w)
    ensures WellFormed(Purged(w))
  {
    AliveOfKind(w.enemies, Enemy);
    AliveOfKind(w.barriers, Barrier);
    AliveOfKind(w.shotsPlayer, Shot);
    AliveOfKind(w.shotsEnemy, Shot);
  }

  lemma AliveOfKind(xs: seq<GameObj>, tag: Tag)
    requires AllOfKind(xs, tag)
    ensures AllOfKind(Alive(xs), tag)
  {
    var r := Alive(xs);
    forall k | 0 <= k < |r|
      ensures r[k].tag == tag && r[k].size == SizeOf(tag)
    {
      AliveMembers(xs, r[k]);
      var j :| 0 <= j < |xs| && xs[j] == r[k];
    }
  }

  /** The difficulty used for a wave of level `level`. */
  function DiffLevel(level: int): (d: int)
    ensures d <= MaxDiffLevel
    ensures d == level || d == MaxDiffLevel
    ensures level <= MaxDiffLevel ==> d == level
  {
    if level > MaxDiffLevel then MaxDiffLevel else level
  }

  /** `check_for_level_respawn`: when the last enemy is gone, the level goes
      up by one, a fresh grid of 55 enemies for the capped difficulty takes
      the place of the empty list, the barriers are replaced by four fresh
      ones and the refresh flag is raised. Otherwise nothing changes. Either
      way the enemies are never empty afterwards. */
  function CheckForLevelRespawn(w: World): (r: World)
    ensures |r.enemies| > 0
    ensures |w.enemies| > 0 ==> r == w
    ensures |w.enemies| == 0 ==>
              && r == w.(level := r.level, enemies := r.enemies, barriers := r.barriers, guiDirty := true)
              && r.level == w.level + 1
              && r.enemies == CreateEnemies(w.screenWidth, DiffLevel(w.level + 1))
              && |r.enemies| == 55 && |r.barriers| == 4
              && r.barriers == CreateBarriers(w.screenWidth)
  {
    if |w.enemies| == 0 then
      var level := w.level + 1;
      w.(level := level, guiDirty := true,
         enemies := w.enemies + CreateEnemies(w.screenWidth, DiffLevel(level)),
         barriers := CreateBarriers(w.screenWidth))
    else w
  }

  /** A barrier hit by more shots in one tick than it has hit points ends
      the collisions with negative hit points (no enemy touching it), and
      the purge, which only removes objects at exactly 0, keeps it. */
  lemma OverkilledBarrierSurvives(w: World, k: nat)
    requires k < |w.barriers|
    requires !OverlappedByAny(w.enemies, w.barriers[k])
    requires w.barriers[k].hitPoints < CountOverlappedBy(w.shotsPlayer, w.barriers[k])
                                       + CountOverlappedBy(w.shotsEnemy, w.barriers[k])
    ensures Collide(w).barriers[k].hitPoints < 0
    ensures Collide(w).barriers[k] in Purged(Collide(w)).barriers
  {
    CollideBarrier(w, k);
    AliveMembers(Collide(w).barriers, Collide(w).barriers[k]);
  }

  /** The situation is reachable: a barrier with one hit point left and
      two player shots on top of it. */
  lemma OverkillExample(w: World)
    requires w.enemies == [] && w.shotsEnemy == []
    requires w.barriers == [NewBarrier(Vec2(0.0, -200.0)).SetHitPoints(1)]
    requires w.shotsPlayer == [NewShot(Vec2(0.0, -200.0), Vec2(0.0, 1.0)), NewShot(Vec2(1.0, -195.0), Vec2(0.0, 1.0))]
    ensures Collide(w).barriers[0].hitPoints == -1
    ensures |Purged(Collide(w)).barriers| == 1
  {
    var b := w.barriers[0];
    assert Overlaps(w.shotsPlayer[0], b);
    assert Overlaps(w.shotsPlayer[1], b);
    assert CountOverlappedBy(w.shotsPlayer, b) == 2 by {
      var tail := w.shotsPlayer[1..];
      assert tail == [w.shotsPlayer[1]] && tail[1..] == [];
      assert CountOverlappedBy(tail[1..], b) == 0;
      assert CountOverlappedBy(tail, b) == 1;
    }
    CollideBarrier(w, 0);
  }
}
