/**
 * How one `rand()` draw becomes a spawn decision, a column or a power-up
 * type. The draws themselves are parameters: `rand()` returns a value in
 * 0 .. RAND_MAX, so each draw is a natural number.
 */
module Spawner {
  import opened Entities

  /** Column of a freshly spawned obstacle or power-up: rand() % (WIDTH - 2) + 1. */
  function SpawnColumn(draw: nat): (x: int)
    ensures InLane(x)
  {
    draw % (WIDTH - 2) + 1
  }

  /** Every lane column is produced by some draw, so spawning covers the whole lane. */
  lemma SpawnColumnCoversLane(x: int)
    requires InLane(x)
    ensures SpawnColumn(x - 1) == x
  {
  }

  /** The main loop's obstacle gate, rand() % 10 < 1: only multiples of ten pass. */
  function ObstacleGate(draw: nat): (passes: bool)
    ensures passes <==> draw % 10 == 0
  {
    draw % 10 < 1
  }

  /**
   * Of the ten consecutive draws d, d+1, ..., d+9 exactly one passes the
   * obstacle gate: the i-th passes iff i is the distance to the next
   * multiple of ten.
   */
  lemma ObstacleGateOneInTen(d: nat, i: nat)
    requires i < 10
    ensures ObstacleGate(d + i) <==> i == (10 - d % 10) % 10
  {
    var r := d % 10;
    assert d + i == 10 * (d / 10) + (r + i);
    if r + i < 10 {
      assert (d + i) % 10 == r + i;
    } else {
      assert (d + i) % 10 == r + i - 10;
    }
  }

  /** The power-up gate inside `generatePowerUp`, rand() % 5 < 1: only multiples of five pass. */
  function PowerUpGate(draw: nat): (passes: bool)
    ensures passes <==> draw % 5 == 0
  {
    draw % 5 < 1
  }

  /**
   * Of the five consecutive draws d, ..., d+4 exactly one passes the
   * power-up gate: the i-th passes iff i is the distance to the next
   * multiple of five.
   */
  lemma PowerUpGateOneInFive(d: nat, i: nat)
    requires i < 5
    ensures PowerUpGate(d + i) <==> i == (5 - d % 5) % 5
  {
    var r := d % 5;
    assert d + i == 5 * (d / 5) + (r + i);
    if r + i < 5 {
      assert (d + i) % 5 == r + i;
    } else {
      assert (d + i) % 5 == r + i - 5;
    }
  }

  /** Type of a new power-up, rand() % 2. */
  function PowerUpKind(draw: nat): (kind: int)
    ensures kind == SCORE_BOOST || kind == SPEED_BOOST
  {
    draw % 2
  }
}
