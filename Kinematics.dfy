/**
 * The car's movement: the speed-boost countdown and the guarded left and
 * right steps of `moveCar`, as a function on car values, with the bounds and
 * the countdown it guarantees.
 */
module Kinematics {
  import opened Entities

  /** The keys `moveCar` samples in one call. */
  datatype Keys = Keys(left: bool, right: bool)

  /** `carSpeed`, the cells a key press moves the car: 2 while boosted, otherwise 1. */
  function StepSize(c: Car): (step: int)
    ensures step == 1 || step == 2
    ensures step == 2 <==> c.hasSpeedBoost
  {
    if c.hasSpeedBoost then 2 else 1
  }

  /**
   * The car after one call of `moveCar`. The boost is consumed first; each
   * key's guard is tested on the car's column before that key's step, and the
   * right key sees the column the left key left behind.
   */
  function MovedCar(c: Car, keys: Keys): (r: Car)
    ensures r.y == c.y
    ensures c.hasSpeedBoost ==> r.speedBoostDuration == c.speedBoostDuration - 1
    ensures !c.hasSpeedBoost ==> r.speedBoostDuration == c.speedBoostDuration && !r.hasSpeedBoost
    ensures r.hasSpeedBoost ==> c.hasSpeedBoost && r.speedBoostDuration > 0
    ensures c.hasSpeedBoost && r.speedBoostDuration > 0 ==> r.hasSpeedBoost
    ensures !keys.left && !keys.right ==> r.x == c.x
    ensures keys.left && !keys.right ==> r.x == (if c.x > 1 then c.x - StepSize(c) else c.x)
    ensures !keys.left && keys.right ==> r.x == (if c.x < WIDTH - 2 then c.x + StepSize(c) else c.x)
    ensures r.x == c.x - StepSize(c) || r.x == c.x || r.x == c.x + StepSize(c)
  {
    var step := StepSize(c);
    var d := if c.hasSpeedBoost then c.speedBoostDuration - 1 else c.speedBoostDuration;
    var boosted := c.hasSpeedBoost && d > 0;
    var afterLeft := if keys.left && c.x > 1 then c.x - step else c.x;
    var afterRight := if keys.right && afterLeft < WIDTH - 2 then afterLeft + step else afterLeft;
    Car(afterRight, c.y, boosted, d)
  }

  /**
   * Both keys held: the right guard tests the column the left step left
   * behind, so a car inside 2 .. WIDTH-2 steps back to where it was, one in
   * column 0 or 1 only steps right, and one in column WIDTH-1 ends one cell
   * left of it without a boost and back on it with one.
   */
  lemma BothKeysHeld(c: Car)
    ensures 2 <= c.x <= WIDTH - 2 ==> MovedCar(c, Keys(true, true)).x == c.x
    ensures c.x <= 1 ==> MovedCar(c, Keys(true, true)).x == c.x + StepSize(c)
    ensures c.x == WIDTH - 1 ==> MovedCar(c, Keys(true, true)).x == (if c.hasSpeedBoost then WIDTH - 1 else WIDTH - 2)
  {
  }

  /** Without a boost the car never leaves the spawner's lane 1 .. WIDTH-2. */
  lemma UnboostedMoveStaysInLane(c: Car, keys: Keys)
    requires !c.hasSpeedBoost && InLane(c.x)
    ensures InLane(MovedCar(c, keys).x)
  {
  }

  /**
   * With a boost the guard is tested before a step of 2, so only the wider
   * road 0 .. WIDTH-1 is kept, and the car invariant survives every move.
   */
  lemma MovePreservesCarInvariant(c: Car, keys: Keys)
    requires CarInvariant(c)
    ensures CarInvariant(MovedCar(c, keys))
  {
  }

  /** The wider bound is reached: a boosted car in column 2 steps to column 0. */
  lemma BoostedMoveReachesRoadEdge(c: Car)
    requires CarInvariant(c) && c.hasSpeedBoost && c.x == 2
    ensures MovedCar(c, Keys(true, false)).x == 0
    ensures MovedCar(c.(x := WIDTH - 3), Keys(false, true)).x == WIDTH - 1
  {
  }

  /** The car after a run of `moveCar` calls, one per element of `moves`. */
  function Drive(c: Car, moves: seq<Keys>): Car
    decreases |moves|
  {
    if moves == [] then c else Drive(MovedCar(c, moves[0]), moves[1..])
  }

  /**
   * The boost countdown: a boosted car with d moves of boost left keeps the
   * boost, and so moves 2 cells per press, for exactly d calls of `moveCar`;
   * the d-th call clears it, whatever keys are held.
   */
  lemma {:induction false} BoostCountdown(c: Car, moves: seq<Keys>)
    requires c.hasSpeedBoost && 0 < c.speedBoostDuration
    requires |moves| <= c.speedBoostDuration
    ensures Drive(c, moves).speedBoostDuration == c.speedBoostDuration - |moves|
    ensures Drive(c, moves).hasSpeedBoost <==> |moves| < c.speedBoostDuration
    decreases |moves|
  {
    if moves != [] {
      var next := MovedCar(c, moves[0]);
      if |moves| > 1 {
        BoostCountdown(next, moves[1..]);
      }
    }
  }

  /**
   * After a speed-boost pickup (boost set, ten moves left) every one of the
   * next ten calls moves by 2, and from the eleventh on the step is 1 again.
   */
  lemma {:induction false} PickupBoostLastsTenMoves(c: Car, moves: seq<Keys>)
    requires c.hasSpeedBoost && c.speedBoostDuration == BOOST_TICKS
    requires |moves| == BOOST_TICKS
    ensures forall k :: 0 <= k < |moves| ==> StepSize(Drive(c, moves[..k])) == 2
    ensures StepSize(Drive(c, moves)) == 1
  {
    forall k | 0 <= k < |moves|
      ensures StepSize(Drive(c, moves[..k])) == 2
    {
      BoostCountdown(c, moves[..k]);
    }
    BoostCountdown(c, moves);
  }
}
