/**
 * The playing field of TurboRush and the four kinds of entity on it.
 * Every entity is a plain record on an integer grid; the game keeps the
 * obstacles, power-ups and bullets in vectors, modelled here as sequences.
 */
module Entities {

  /** Columns 0 .. WIDTH-1 are drawn; the lane the spawner uses is 1 .. WIDTH-2. */
  const WIDTH: int := 30
  /** Rows 1 .. HEIGHT-2 are the playing field; the car lives on row HEIGHT-2. */
  const HEIGHT: int := 20
  /** Number of car moves a speed-boost power-up lasts. */
  const BOOST_TICKS: int := 10
  /** The two power-up types the spawner produces. */
  const SCORE_BOOST: int := 0
  const SPEED_BOOST: int := 1

  /** The player's car; `speedBoostDuration` counts the boosted moves left. */
  datatype Car = Car(x: int, y: int, hasSpeedBoost: bool, speedBoostDuration: int)

  datatype Obstacle = Obstacle(x: int, y: int)

  /** `kind` is the integer `type` field of `main.cpp`'s power-up struct: 0 score boost, 1 speed boost. */
  datatype PowerUp = PowerUp(x: int, y: int, kind: int)

  datatype Bullet = Bullet(x: int, y: int)

  /** A column where the spawner may place an obstacle or a power-up. */
  predicate InLane(x: int) {
    1 <= x <= WIDTH - 2
  }

  /** A column that is drawn on screen. */
  predicate OnRoad(x: int) {
    0 <= x <= WIDTH - 1
  }

  /**
   * What every car the game produces satisfies: it stays on its start row,
   * stays on the drawn road, and carries a boost exactly while moves of the
   * boost remain.
   */
  predicate CarInvariant(c: Car) {
    && c.y == HEIGHT - 2
    && OnRoad(c.x)
    && 0 <= c.speedBoostDuration <= BOOST_TICKS
    && (c.hasSpeedBoost <==> c.speedBoostDuration > 0)
  }

  /**
   * `vector::erase` at position k: the element at k is gone and every other
   * element keeps its value and its relative order.
   */
  function Erase<T>(s: seq<T>, k: nat): (r: seq<T>)
    requires k < |s|
    ensures |r| == |s| - 1
    ensures forall i :: 0 <= i < k ==> r[i] == s[i]
    ensures forall i :: k <= i < |r| ==> r[i] == s[i + 1]
    ensures multiset(r) + multiset{s[k]} == multiset(s)
  {
    assert s == s[..k] + [s[k]] + s[k + 1..];
    s[..k] + s[k + 1..]
  }

  /** A sequence split at a seam, with the element right after it taken out. */
  lemma SplitAtSeam<T>(p: seq<T>, s: seq<T>)
    requires |s| > 0
    ensures p + s == p + [s[0]] + s[1..]
    ensures (p + s)[|p|] == s[0]
  {
    assert s == [s[0]] + s[1..];
  }

  /** Updating the element right after a seam moves the seam past it. */
  lemma UpdateAtSeam<T>(p: seq<T>, s: seq<T>, v: T)
    requires |s| > 0
    ensures (p + s)[|p| := v] == p + [v] + s[1..]
  {
  }
}
