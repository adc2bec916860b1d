/**
 * The read-only side of collision resolution: which cell is occupied, which
 * element a first-match scan finds, and which bullets survive the off-screen
 * cull. The game's in-place updates are specified with these.
 */
module Collision {
  import opened Entities

  /** `checkCollision`: some obstacle occupies exactly the car's cell. */
  function CheckCollision(car: Car, obstacles: seq<Obstacle>): (hit: bool)
    ensures hit <==> exists i :: 0 <= i < |obstacles| && obstacles[i].x == car.x && obstacles[i].y == car.y
  {
    if |obstacles| == 0 then false
    else if car.x == obstacles[0].x && car.y == obstacles[0].y then true
    else
      var rest := CheckCollision(car, obstacles[1..]);
      assert forall i :: 1 <= i < |obstacles| ==> obstacles[i] == obstacles[1..][i - 1];
      rest
  }

  /**
   * Position of the first obstacle on cell (x, y), scanning in vector order;
   * |s| when there is none.
   */
  function FirstObstacleAt(s: seq<Obstacle>, x: int, y: int): (k: nat)
    ensures k <= |s|
    ensures k < |s| ==> s[k].x == x && s[k].y == y
    ensures forall i :: 0 <= i < k ==> !(s[i].x == x && s[i].y == y)
  {
    if |s| == 0 then 0
    else if s[0].x == x && s[0].y == y then 0
    else 1 + FirstObstacleAt(s[1..], x, y)
  }

  /**
   * Position of the first power-up on cell (x, y), scanning in vector order;
   * |s| when there is none.
   */
  function FirstPowerUpAt(s: seq<PowerUp>, x: int, y: int): (k: nat)
    ensures k <= |s|
    ensures k < |s| ==> s[k].x == x && s[k].y == y
    ensures forall i :: 0 <= i < k ==> !(s[i].x == x && s[i].y == y)
  {
    if |s| == 0 then 0
    else if s[0].x == x && s[0].y == y then 0
    else 1 + FirstPowerUpAt(s[1..], x, y)
  }

  /** The first-match scan finds something exactly when the car collides. */
  lemma FirstObstacleAtFindsCollision(car: Car, obstacles: seq<Obstacle>)
    ensures FirstObstacleAt(obstacles, car.x, car.y) < |obstacles| <==> CheckCollision(car, obstacles)
  {
  }

  /** Removing any obstacle never puts one on a cell that had none. */
  lemma EraseKeepsCellFree(s: seq<Obstacle>, k: nat, x: int, y: int)
    requires k < |s| && FirstObstacleAt(s, x, y) == |s|
    ensures FirstObstacleAt(Erase(s, k), x, y) == |s| - 1
  {
    var r := Erase(s, k);
    forall i | 0 <= i < |r|
      ensures !(r[i].x == x && r[i].y == y)
    {
      if i < k {
        assert r[i] == s[i];
      } else {
        assert r[i] == s[i + 1];
      }
    }
  }

  /**
   * What collecting power-up p does to the car: a speed boost sets the boost
   * and restarts it at ten moves (a second pickup does not add up), every
   * other type leaves the car as it was.
   */
  function PickupEffect(c: Car, p: PowerUp): (r: Car)
    ensures r.x == c.x && r.y == c.y
    ensures p.kind == SPEED_BOOST ==> r.hasSpeedBoost && r.speedBoostDuration == BOOST_TICKS
    ensures p.kind != SPEED_BOOST ==> r == c
  {
    if p.kind == SPEED_BOOST then c.(hasSpeedBoost := true, speedBoostDuration := BOOST_TICKS) else c
  }

  /** A pickup never breaks the car invariant. */
  lemma PickupPreservesCarInvariant(c: Car, p: PowerUp)
    requires CarInvariant(c)
    ensures CarInvariant(PickupEffect(c, p))
  {
  }

  /**
   * `checkBulletOffScreen`: the bullet has reached row 0 or above, so it is
   * off screen exactly when it is not on a row of the field, row 1 or below.
   */
  function OffScreen(b: Bullet): (gone: bool)
    ensures gone <==> !(b.y >= 1)
  {
    b.y <= 0
  }

  /**
   * The bullets `remove_if(checkBulletOffScreen)` followed by `erase` leaves,
   * in their old order: none of them off screen.
   */
  function KeepOnScreen(bs: seq<Bullet>): (r: seq<Bullet>)
    ensures |r| <= |bs|
    ensures forall i :: 0 <= i < |r| ==> !OffScreen(r[i])
  {
    if |bs| == 0 then []
    else if OffScreen(bs[0]) then KeepOnScreen(bs[1..])
    else [bs[0]] + KeepOnScreen(bs[1..])
  }

  /**
   * The cull keeps every on-screen bullet exactly as often as it occurs and
   * drops every off-screen one.
   */
  lemma {:induction false} KeepOnScreenCounts(bs: seq<Bullet>)
    ensures forall b :: multiset(KeepOnScreen(bs))[b] == if OffScreen(b) then 0 else multiset(bs)[b]
    decreases |bs|
  {
    if |bs| > 0 {
      assert bs == [bs[0]] + bs[1..];
      KeepOnScreenCounts(bs[1..]);
    }
  }

  /** Whatever survives the cull was there before it. */
  lemma KeepOnScreenSurvivors(bs: seq<Bullet>)
    ensures forall b :: b in KeepOnScreen(bs) <==> b in bs && !OffScreen(b)
  {
    KeepOnScreenCounts(bs);
    forall b
      ensures b in KeepOnScreen(bs) <==> b in bs && !OffScreen(b)
    {
      assert b in KeepOnScreen(bs) <==> multiset(KeepOnScreen(bs))[b] > 0;
      assert b in bs <==> multiset(bs)[b] > 0;
    }
  }

  /**
   * The cull is stable: culling a concatenation culls each part and keeps
   * the parts in order, so surviving bullets never change places.
   */
  lemma {:induction false} KeepOnScreenAppend(a: seq<Bullet>, b: seq<Bullet>)
    ensures KeepOnScreen(a + b) == KeepOnScreen(a) + KeepOnScreen(b)
    decreases |a|
  {
    if |a| > 0 {
      assert (a + b)[1..] == a[1..] + b;
      KeepOnScreenAppend(a[1..], b);
    } else {
      assert a + b == b;
    }
  }

  /** A bullet that hit an obstacle is moved to row -1 and so never survives the cull. */
  lemma MarkedBulletIsCulled(bs: seq<Bullet>, i: nat)
    requires i < |bs| && bs[i].y == -1
    ensures bs[i] !in KeepOnScreen(bs)
  {
  }
}
