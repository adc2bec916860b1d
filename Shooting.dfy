/**
 * The bullet pass of the game loop as a function: every bullet in vector
 * order runs `checkBulletHitObstacle` against the obstacles the bullets
 * before it left behind, and a bullet that hit is moved to row -1.
 */
module Shooting {
  import opened Entities
  import opened Collision

  /** The obstacles, the bullets tested so far and the points scored by them. */
  datatype Pass = Pass(obstacles: seq<Obstacle>, bullets: seq<Bullet>, hits: nat)

  /**
   * One bullet of the pass: the first obstacle on its cell is removed and
   * the bullet goes to row -1 with one point scored; a miss changes nothing.
   */
  function HitStep(p: Pass, b: Bullet): (r: Pass)
    ensures |r.bullets| == |p.bullets| + 1
    ensures |r.obstacles| + r.hits == |p.obstacles| + p.hits
  {
    var k := FirstObstacleAt(p.obstacles, b.x, b.y);
    if k < |p.obstacles| then Pass(Erase(p.obstacles, k), p.bullets + [b.(y := -1)], p.hits + 1)
    else Pass(p.obstacles, p.bullets + [b], p.hits)
  }

  /** One step scores exactly when an obstacle sits on the bullet's cell. */
  lemma HitStepScoresIffOnCell(p: Pass, b: Bullet)
    ensures HitStep(p, b).hits == p.hits + 1 <==>
              exists i :: 0 <= i < |p.obstacles| && p.obstacles[i].x == b.x && p.obstacles[i].y == b.y
  {
  }

  /**
   * One step removes only obstacles and appends the tested bullet, untouched
   * or at row -1, behind the bullets already tested.
   */
  lemma HitStepAppendsBullet(p: Pass, b: Bullet)
    ensures HitStep(p, b).bullets[..|p.bullets|] == p.bullets
    ensures HitStep(p, b).bullets[|p.bullets|] == b || HitStep(p, b).bullets[|p.bullets|] == b.(y := -1)
    ensures multiset(HitStep(p, b).obstacles) <= multiset(p.obstacles)
  {
  }

  /** The whole pass over `bs`, one bullet at a time from the front. */
  function BulletPass(obstacles: seq<Obstacle>, bs: seq<Bullet>): (r: Pass)
    ensures |r.bullets| == |bs|
    decreases |bs|
  {
    if bs == [] then Pass(obstacles, [], 0)
    else HitStep(BulletPass(obstacles, bs[..|bs| - 1]), bs[|bs| - 1])
  }

  /** The pass over one more bullet is one more step of the pass. */
  lemma PassStep(obstacles: seq<Obstacle>, bs: seq<Bullet>, i: nat)
    requires i < |bs|
    ensures BulletPass(obstacles, bs[..i + 1]) == HitStep(BulletPass(obstacles, bs[..i]), bs[i])
  {
    assert bs[..i + 1][..i] == bs[..i];
  }

  /**
   * Each of the first n bullets of `after` is the bullet of `before` at the
   * same position, either untouched or moved to row -1 after a hit.
   */
  predicate KeptOrMarked(before: seq<Bullet>, after: seq<Bullet>, n: int)
    requires 0 <= n <= |before| && n <= |after|
  {
    forall j :: 0 <= j < n ==> after[j] == before[j] || after[j] == before[j].(y := -1)
  }

  /** No obstacle sits on the cell of any of the first n bullets not at row -1. */
  predicate MissesAll(obstacles: seq<Obstacle>, bs: seq<Bullet>, n: int)
    requires 0 <= n <= |bs|
  {
    forall j :: 0 <= j < n && bs[j].y != -1 ==> FirstObstacleAt(obstacles, bs[j].x, bs[j].y) == |obstacles|
  }

  /** Removing an obstacle leaves every bullet that missed still missing. */
  lemma ErasureKeepsMisses(obstacles: seq<Obstacle>, k: nat, bs: seq<Bullet>, n: int)
    requires k < |obstacles| && 0 <= n <= |bs|
    requires MissesAll(obstacles, bs, n)
    ensures MissesAll(Erase(obstacles, k), bs, n)
  {
    forall j | 0 <= j < n && bs[j].y != -1
      ensures FirstObstacleAt(Erase(obstacles, k), bs[j].x, bs[j].y) == |obstacles| - 1
    {
      EraseKeepsCellFree(obstacles, k, bs[j].x, bs[j].y);
    }
  }

  /** The pass leaves each bullet where it was or moves it to row -1. */
  lemma {:induction false} BulletPassKeepsOrMarks(obstacles: seq<Obstacle>, bs: seq<Bullet>)
    ensures KeptOrMarked(bs, BulletPass(obstacles, bs).bullets, |bs|)
    decreases |bs|
  {
    if bs != [] {
      var n := |bs| - 1;
      BulletPassKeepsOrMarks(obstacles, bs[..n]);
      var r := BulletPass(obstacles, bs);
      forall j | 0 <= j < n
        ensures r.bullets[j] == BulletPass(obstacles, bs[..n]).bullets[j] && bs[..n][j] == bs[j]
      {
      }
    }
  }

  /** The pass only removes obstacles, and scores one point per obstacle removed. */
  lemma {:induction false} BulletPassOnlyRemoves(obstacles: seq<Obstacle>, bs: seq<Bullet>)
    ensures multiset(BulletPass(obstacles, bs).obstacles) <= multiset(obstacles)
    ensures BulletPass(obstacles, bs).hits == |obstacles| - |BulletPass(obstacles, bs).obstacles|
    decreases |bs|
  {
    if bs != [] {
      BulletPassOnlyRemoves(obstacles, bs[..|bs| - 1]);
    }
  }

  /** After the pass no obstacle is left on the cell of a bullet that missed. */
  lemma {:induction false} BulletPassLeavesMisses(obstacles: seq<Obstacle>, bs: seq<Bullet>)
    ensures MissesAll(BulletPass(obstacles, bs).obstacles, BulletPass(obstacles, bs).bullets, |bs|)
    decreases |bs|
  {
    if bs != [] {
      var n := |bs| - 1;
      var prev := BulletPass(obstacles, bs[..n]);
      BulletPassLeavesMisses(obstacles, bs[..n]);
      var b := bs[n];
      var k := FirstObstacleAt(prev.obstacles, b.x, b.y);
      if k < |prev.obstacles| {
        ErasureKeepsMisses(prev.obstacles, k, prev.bullets, n);
      }
    }
  }

  /** Number of bullets at row -1, the row a bullet that hit is moved to. */
  function CountMarked(bs: seq<Bullet>): (n: nat)
    ensures n <= |bs|
    decreases |bs|
  {
    if bs == [] then 0
    else CountMarked(bs[..|bs| - 1]) + (if bs[|bs| - 1].y == -1 then 1 else 0)
  }

  /**
   * When no bullet starts at row -1, the pass moves exactly as many bullets
   * to row -1 as it scores points: one bullet per obstacle removed.
   */
  lemma {:induction false} BulletPassMarksOnePerHit(obstacles: seq<Obstacle>, bs: seq<Bullet>)
    requires forall j :: 0 <= j < |bs| ==> bs[j].y != -1
    ensures CountMarked(BulletPass(obstacles, bs).bullets) == BulletPass(obstacles, bs).hits
    decreases |bs|
  {
    if bs != [] {
      var n := |bs| - 1;
      var prev := BulletPass(obstacles, bs[..n]);
      BulletPassMarksOnePerHit(obstacles, bs[..n]);
      var r := BulletPass(obstacles, bs);
      assert r.bullets[..n] == prev.bullets;
    }
  }

  /** A cell free of obstacles stays free in any sub-collection of them. */
  lemma SubCollectionKeepsCellFree(obstacles: seq<Obstacle>, sub: seq<Obstacle>, x: int, y: int)
    requires multiset(sub) <= multiset(obstacles)
    requires FirstObstacleAt(obstacles, x, y) == |obstacles|
    ensures FirstObstacleAt(sub, x, y) == |sub|
  {
    forall i | 0 <= i < |sub|
      ensures !(sub[i].x == x && sub[i].y == y)
    {
      assert sub[i] in multiset(sub);
      assert sub[i] in obstacles;
    }
  }

  /** The last bullet of the pass is untouched when its cell held no obstacle at the start. */
  lemma LastBulletSpared(obstacles: seq<Obstacle>, bs: seq<Bullet>)
    requires bs != []
    requires FirstObstacleAt(obstacles, bs[|bs| - 1].x, bs[|bs| - 1].y) == |obstacles|
    ensures BulletPass(obstacles, bs).bullets[|bs| - 1] == bs[|bs| - 1]
  {
    var n := |bs| - 1;
    var prev := BulletPass(obstacles, bs[..n]);
    BulletPassOnlyRemoves(obstacles, bs[..n]);
    SubCollectionKeepsCellFree(obstacles, prev.obstacles, bs[n].x, bs[n].y);
  }

  /** A bullet whose cell holds no obstacle at the start of the pass is never marked. */
  lemma {:induction false} BulletPassSparesMisses(obstacles: seq<Obstacle>, bs: seq<Bullet>)
    ensures forall j :: 0 <= j < |bs| && FirstObstacleAt(obstacles, bs[j].x, bs[j].y) == |obstacles| ==>
              BulletPass(obstacles, bs).bullets[j] == bs[j]
    decreases |bs|
  {
    if bs != [] {
      var n := |bs| - 1;
      var prev := BulletPass(obstacles, bs[..n]);
      var r := BulletPass(obstacles, bs);
      BulletPassSparesMisses(obstacles, bs[..n]);
      HitStepAppendsBullet(prev, bs[n]);
      forall j | 0 <= j < |bs| && FirstObstacleAt(obstacles, bs[j].x, bs[j].y) == |obstacles|
        ensures r.bullets[j] == bs[j]
      {
        if j == n {
          LastBulletSpared(obstacles, bs);
        } else {
          assert bs[..n][j] == bs[j];
          assert r.bullets[j] == r.bullets[..n][j];
        }
      }
    }
  }

  /** An obstacle on no bullet's cell keeps every copy of itself through the pass. */
  lemma {:induction false} BulletPassSparesUntargeted(obstacles: seq<Obstacle>, bs: seq<Bullet>, o: Obstacle)
    requires forall j :: 0 <= j < |bs| ==> !(bs[j].x == o.x && bs[j].y == o.y)
    ensures multiset(BulletPass(obstacles, bs).obstacles)[o] == multiset(obstacles)[o]
    decreases |bs|
  {
    if bs != [] {
      var n := |bs| - 1;
      BulletPassSparesUntargeted(obstacles, bs[..n], o);
    }
  }
}
