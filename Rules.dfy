/**
 * One pass of the game loop as a function on whole game states, and the
 * loop itself as a function on a sequence of inputs. The class `GameState`
 * is proved to update its fields exactly as these functions say; the
 * invariants and the end-of-game guarantees are proved here, on values.
 */
module Rules {
  import opened Entities
  import opened Kinematics
  import opened Spawner
  import opened Collision
  import opened Shooting

  /** What one pass of the game loop reads from the keyboard and from `rand()`. */
  datatype TickInput = TickInput(
    left: bool, right: bool, fire: bool,
    obstacleGateDraw: nat, obstacleColumnDraw: nat,
    powerUpGateDraw: nat, powerUpKindDraw: nat, powerUpColumnDraw: nat)

  /** Everything the game loop changes: the car, the three vectors and the score. */
  datatype World = World(car: Car, obstacles: seq<Obstacle>, powerUps: seq<PowerUp>,
                         bullets: seq<Bullet>, score: int)

  /** `moveObstacles`: every obstacle `speed` rows further down, in the same order. */
  function ObstaclesDown(s: seq<Obstacle>, speed: int): (r: seq<Obstacle>)
    ensures |r| == |s|
    ensures forall i :: 0 <= i < |s| ==> r[i].x == s[i].x && r[i].y == s[i].y + speed
  {
    seq(|s|, i requires 0 <= i < |s| => Obstacle(s[i].x, s[i].y + speed))
  }

  /** `movePowerUps`: every power-up one row further down, type and order kept. */
  function PowerUpsDown(s: seq<PowerUp>): (r: seq<PowerUp>)
    ensures |r| == |s|
    ensures forall i :: 0 <= i < |s| ==> r[i].x == s[i].x && r[i].y == s[i].y + 1 && r[i].kind == s[i].kind
  {
    seq(|s|, i requires 0 <= i < |s| => PowerUp(s[i].x, s[i].y + 1, s[i].kind))
  }

  /** `moveBullets`: every bullet one row further up, in the same order. */
  function BulletsUp(s: seq<Bullet>): (r: seq<Bullet>)
    ensures |r| == |s|
    ensures forall i :: 0 <= i < |s| ==> r[i].x == s[i].x && r[i].y == s[i].y - 1
  {
    seq(|s|, i requires 0 <= i < |s| => Bullet(s[i].x, s[i].y - 1))
  }

  /** The obstacle the loop spawns for this tick's draws, if its gate passes. */
  function SpawnedObstacles(t: TickInput): (r: seq<Obstacle>)
    ensures |r| <= 1
    ensures |r| == 1 <==> t.obstacleGateDraw % 10 == 0
    ensures forall i :: 0 <= i < |r| ==> InLane(r[i].x) && r[i].y == 1
  {
    if ObstacleGate(t.obstacleGateDraw) then [Obstacle(SpawnColumn(t.obstacleColumnDraw), 1)] else []
  }

  /** The power-up `generatePowerUp` spawns for this tick's draws, if its gate passes. */
  function SpawnedPowerUps(t: TickInput): (r: seq<PowerUp>)
    ensures |r| <= 1
    ensures |r| == 1 <==> t.powerUpGateDraw % 5 == 0
    ensures forall i :: 0 <= i < |r| ==>
              InLane(r[i].x) && r[i].y == 1 && (r[i].kind == SCORE_BOOST || r[i].kind == SPEED_BOOST)
  {
    if PowerUpGate(t.powerUpGateDraw)
    then [PowerUp(SpawnColumn(t.powerUpColumnDraw), 1, PowerUpKind(t.powerUpKindDraw))]
    else []
  }

  /** The first half of the loop body: every move, then the two spawns. */
  function AdvanceWorld(w: World, t: TickInput): (r: World)
    ensures r.score == w.score && r.car.y == w.car.y
    ensures |w.obstacles| <= |r.obstacles| <= |w.obstacles| + 1
    ensures |w.powerUps| <= |r.powerUps| <= |w.powerUps| + 1
    ensures |r.bullets| == |w.bullets|
  {
    World(MovedCar(w.car, Keys(t.left, t.right)),
          ObstaclesDown(w.obstacles, 1) + SpawnedObstacles(t),
          PowerUpsDown(w.powerUps) + SpawnedPowerUps(t),
          BulletsUp(w.bullets),
          w.score)
  }

  /**
   * Advancing moves every obstacle and power-up one row down and every
   * bullet one row up, in place and in order, and puts anything spawned
   * behind them on row 1 in a lane column.
   */
  lemma AdvanceMovesEverything(w: World, t: TickInput)
    ensures var r := AdvanceWorld(w, t);
            && (forall i :: 0 <= i < |w.obstacles| ==> r.obstacles[i] == w.obstacles[i].(y := w.obstacles[i].y + 1))
            && (forall i :: 0 <= i < |w.powerUps| ==> r.powerUps[i] == w.powerUps[i].(y := w.powerUps[i].y + 1))
            && (forall i :: 0 <= i < |w.bullets| ==> r.bullets[i] == w.bullets[i].(y := w.bullets[i].y - 1))
            && (forall i :: |w.obstacles| <= i < |r.obstacles| ==> r.obstacles[i].y == 1 && InLane(r.obstacles[i].x))
            && (forall i :: |w.powerUps| <= i < |r.powerUps| ==> r.powerUps[i].y == 1 && InLane(r.powerUps[i].x))
  {
  }

  /**
   * `checkPowerUpCollection` on a whole state: the first power-up on the
   * car's cell is taken and has its effect on the car; nothing else changes.
   */
  function PickUp(w: World): (r: World)
    ensures r.obstacles == w.obstacles && r.bullets == w.bullets && r.score == w.score
    ensures r.car.x == w.car.x && r.car.y == w.car.y
  {
    var k := FirstPowerUpAt(w.powerUps, w.car.x, w.car.y);
    if k < |w.powerUps| then w.(car := PickupEffect(w.car, w.powerUps[k]), powerUps := Erase(w.powerUps, k))
    else w
  }

  /**
   * The pickup takes one power-up exactly when one sits on the car's cell,
   * and otherwise changes nothing at all.
   */
  lemma PickUpTakesOneIffOnCell(w: World)
    ensures |PickUp(w).powerUps| == |w.powerUps| - 1 <==>
              exists i :: 0 <= i < |w.powerUps| && w.powerUps[i].x == w.car.x && w.powerUps[i].y == w.car.y
    ensures |PickUp(w).powerUps| == |w.powerUps| ==> PickUp(w) == w
  {
  }

  /** The pickup asks for the power-up tune: the power-up it takes is a score boost. */
  predicate PowerUpSound(w: World): (sound: bool)
    ensures sound ==> exists i :: 0 <= i < |w.powerUps| &&
                        w.powerUps[i].x == w.car.x && w.powerUps[i].y == w.car.y && w.powerUps[i].kind == SCORE_BOOST
    ensures sound ==> PickUp(w).car == w.car && |PickUp(w).powerUps| == |w.powerUps| - 1
    ensures (exists i :: 0 <= i < |w.powerUps| && w.powerUps[i].x == w.car.x && w.powerUps[i].y == w.car.y)
            && (forall i :: 0 <= i < |w.powerUps| && w.powerUps[i].x == w.car.x && w.powerUps[i].y == w.car.y ==>
                  w.powerUps[i].kind == SCORE_BOOST)
            ==> sound
  {
    var k := FirstPowerUpAt(w.powerUps, w.car.x, w.car.y);
    k < |w.powerUps| && w.powerUps[k].kind == SCORE_BOOST
  }

  /**
   * The bullet half of the loop body: the bullet pass, the cull and, with
   * the fire key held, a new bullet one row above the car.
   */
  function ShootWorld(w: World, fire: bool): (r: World)
    ensures r.car == w.car && r.powerUps == w.powerUps
    ensures r.score - w.score == |w.obstacles| - |r.obstacles|
  {
    var pass := BulletPass(w.obstacles, w.bullets);
    BulletPassOnlyRemoves(w.obstacles, w.bullets);
    var shot := if fire then [Bullet(w.car.x, w.car.y - 1)] else [];
    w.(obstacles := pass.obstacles, bullets := KeepOnScreen(pass.bullets) + shot, score := w.score + pass.hits)
  }

  /** The second half of the loop body: the pickup, then the bullets. */
  function ResolveWorld(w: World, fire: bool): (r: World)
    ensures r.car.x == w.car.x && r.car.y == w.car.y
    ensures r.score >= w.score
    ensures |w.powerUps| - 1 <= |r.powerUps| <= |w.powerUps|
  {
    ShootWorld(PickUp(w), fire)
  }

  /** Whether the tick ended the game, and the state it left behind. */
  datatype Outcome = Outcome(gameOver: bool, world: World)

  /**
   * One pass of the game loop: advance, then the fatal check, which breaks
   * out of the loop before anything is resolved, then resolve. The score
   * never falls and the car never leaves its row.
   */
  function TickWorld(w: World, t: TickInput): (o: Outcome)
    ensures o.world.score >= w.score
    ensures o.gameOver ==> o.world.score == w.score
    ensures o.world.car.y == w.car.y
  {
    var a := AdvanceWorld(w, t);
    if CheckCollision(a.car, a.obstacles) then Outcome(true, a) else Outcome(false, ResolveWorld(a, t.fire))
  }

  /**
   * The tick that survives the fatal check scores one point per obstacle
   * shot, leaves only on-screen bullets behind and, with the fire key held,
   * ends with the new bullet one row above the car.
   */
  lemma TickScoresShots(w: World, t: TickInput)
    ensures var a := AdvanceWorld(w, t);
            var o := TickWorld(w, t);
            && (o.gameOver <==> exists i :: 0 <= i < |a.obstacles| &&
                                  a.obstacles[i].x == a.car.x && a.obstacles[i].y == a.car.y)
            && (o.gameOver ==> o.world == a)
            && (!o.gameOver ==> o.world.score - w.score == |a.obstacles| - |o.world.obstacles|)
            && (!o.gameOver && t.fire ==>
                  |o.world.bullets| > 0 &&
                  o.world.bullets[|o.world.bullets| - 1] == Bullet(o.world.car.x, o.world.car.y - 1))
            && (!o.gameOver ==> forall i :: 0 <= i < |o.world.bullets| - (if t.fire then 1 else 0) ==>
                                  o.world.bullets[i].y >= 1)
  {
    var a := AdvanceWorld(w, t);
    var picked := PickUp(a);
    BulletPassOnlyRemoves(picked.obstacles, picked.bullets);
  }

  /** Every obstacle is in a spawn column. */
  predicate ObstaclesInLane(s: seq<Obstacle>) {
    forall i :: 0 <= i < |s| ==> InLane(s[i].x)
  }

  /** Every obstacle is at row 1 or below. */
  predicate ObstaclesBelowTop(s: seq<Obstacle>) {
    forall i :: 0 <= i < |s| ==> s[i].y >= 1
  }

  /** Every power-up is in a spawn column and has one of the two types. */
  predicate PowerUpsInLane(s: seq<PowerUp>) {
    forall i :: 0 <= i < |s| ==> InLane(s[i].x) && (s[i].kind == SCORE_BOOST || s[i].kind == SPEED_BOOST)
  }

  /** Every power-up is at row 1 or below. */
  predicate PowerUpsBelowTop(s: seq<PowerUp>) {
    forall i :: 0 <= i < |s| ==> s[i].y >= 1
  }

  /** Every bullet is in a drawn column. */
  predicate BulletsOnRoad(s: seq<Bullet>) {
    forall i :: 0 <= i < |s| ==> OnRoad(s[i].x)
  }

  /** Every bullet is on screen and no lower than row `lowest`. */
  predicate BulletsBetween(s: seq<Bullet>, lowest: int) {
    forall i :: 0 <= i < |s| ==> 1 <= s[i].y <= lowest
  }

  /** Every bullet is no lower than row `lowest` (it may have left the screen). */
  predicate BulletsNoLower(s: seq<Bullet>, lowest: int) {
    forall i :: 0 <= i < |s| ==> s[i].y <= lowest
  }

  /** What no operation of the game breaks. */
  predicate ValidWorld(w: World) {
    && CarInvariant(w.car)
    && w.score >= 0
    && ObstaclesInLane(w.obstacles)
    && PowerUpsInLane(w.powerUps)
    && BulletsOnRoad(w.bullets)
  }

  /**
   * The state the fatal check sees: obstacles and power-ups are at row 1 or
   * below, and every bullet is at least two rows above the car.
   */
  predicate AdvancedWorld(w: World) {
    && ValidWorld(w)
    && ObstaclesBelowTop(w.obstacles)
    && PowerUpsBelowTop(w.powerUps)
    && BulletsNoLower(w.bullets, HEIGHT - 4)
  }

  /**
   * The state between two ticks: obstacles and power-ups are at row 1 or
   * below (they are never culled, so no bound at the bottom of the screen
   * applies), and every bullet is on screen, at least one row above the car.
   */
  predicate SettledWorld(w: World) {
    && ValidWorld(w)
    && ObstaclesBelowTop(w.obstacles)
    && PowerUpsBelowTop(w.powerUps)
    && BulletsBetween(w.bullets, HEIGHT - 3)
  }

  /** Obstacles that only lose members keep the column and row bounds of the rest. */
  lemma RemovalKeepsObstacleBounds(before: seq<Obstacle>, after: seq<Obstacle>)
    requires multiset(after) <= multiset(before)
    ensures ObstaclesInLane(before) ==> ObstaclesInLane(after)
    ensures ObstaclesBelowTop(before) ==> ObstaclesBelowTop(after)
  {
    forall i | 0 <= i < |after|
      ensures exists j :: 0 <= j < |before| && before[j] == after[i]
    {
      assert after[i] in multiset(after);
      assert after[i] in before;
    }
  }

  /** Erasing a power-up keeps the bounds of the others. */
  lemma ErasureKeepsPowerUpBounds(s: seq<PowerUp>, k: nat)
    requires k < |s|
    ensures PowerUpsInLane(s) ==> PowerUpsInLane(Erase(s, k))
    ensures PowerUpsBelowTop(s) ==> PowerUpsBelowTop(Erase(s, k))
  {
  }

  /**
   * Moving some bullets to row -1 keeps them in their columns and no lower
   * than before.
   */
  lemma MarkingKeepsBulletBounds(before: seq<Bullet>, after: seq<Bullet>, lowest: int)
    requires |after| == |before| && lowest >= -1
    requires KeptOrMarked(before, after, |after|)
    ensures BulletsOnRoad(before) ==> BulletsOnRoad(after)
    ensures BulletsNoLower(before, lowest) ==> BulletsNoLower(after, lowest)
  {
  }

  /** After the cull every bullet is on screen; columns and the lowest row are kept. */
  lemma CullKeepsBulletBounds(bs: seq<Bullet>, lowest: int)
    ensures BulletsOnRoad(bs) ==> BulletsOnRoad(KeepOnScreen(bs))
    ensures BulletsNoLower(bs, lowest) ==> BulletsBetween(KeepOnScreen(bs), lowest)
  {
    var r := KeepOnScreen(bs);
    KeepOnScreenSurvivors(bs);
    forall i | 0 <= i < |r|
      ensures exists j :: 0 <= j < |bs| && bs[j] == r[i]
    {
      assert r[i] in r;
    }
  }

  /**
   * Advancing keeps the invariant, and from a state between ticks it reaches
   * the state the fatal check expects.
   */
  lemma AdvanceKeepsInvariants(w: World, t: TickInput)
    ensures ValidWorld(w) ==> ValidWorld(AdvanceWorld(w, t))
    ensures SettledWorld(w) ==> AdvancedWorld(AdvanceWorld(w, t))
  {
    if ValidWorld(w) {
      MovePreservesCarInvariant(w.car, Keys(t.left, t.right));
    }
  }

  /** The pickup keeps the invariant and the bounds the fatal check saw. */
  lemma PickUpKeepsInvariants(w: World)
    ensures ValidWorld(w) ==> ValidWorld(PickUp(w))
    ensures AdvancedWorld(w) ==> AdvancedWorld(PickUp(w))
  {
    var k := FirstPowerUpAt(w.powerUps, w.car.x, w.car.y);
    if k < |w.powerUps| {
      if CarInvariant(w.car) {
        PickupPreservesCarInvariant(w.car, w.powerUps[k]);
      }
      ErasureKeepsPowerUpBounds(w.powerUps, k);
    }
  }

  /** Resolving keeps the invariant and leaves a state fit for the next tick. */
  lemma ResolveKeepsInvariants(w: World, fire: bool)
    ensures ValidWorld(w) ==> ValidWorld(ResolveWorld(w, fire))
    ensures AdvancedWorld(w) ==> SettledWorld(ResolveWorld(w, fire))
  {
    var picked := PickUp(w);
    PickUpKeepsInvariants(w);
    var pass := BulletPass(picked.obstacles, picked.bullets);
    BulletPassOnlyRemoves(picked.obstacles, picked.bullets);
    BulletPassKeepsOrMarks(picked.obstacles, picked.bullets);
    RemovalKeepsObstacleBounds(picked.obstacles, pass.obstacles);
    MarkingKeepsBulletBounds(picked.bullets, pass.bullets, HEIGHT - 4);
    CullKeepsBulletBounds(pass.bullets, HEIGHT - 4);
  }

  /** A tick keeps the invariant, and one that does not end the game keeps the state settled. */
  lemma TickKeepsInvariants(w: World, t: TickInput)
    ensures ValidWorld(w) ==> ValidWorld(TickWorld(w, t).world)
    ensures SettledWorld(w) && !TickWorld(w, t).gameOver ==> SettledWorld(TickWorld(w, t).world)
  {
    AdvanceKeepsInvariants(w, t);
    ResolveKeepsInvariants(AdvanceWorld(w, t), t.fire);
  }

  /** How the game loop ended: ticks run, whether the game is over, and the final state. */
  datatype Ending = Ending(ticks: nat, gameOver: bool, world: World)

  /**
   * The game loop over a sequence of inputs, one tick per input, stopping at
   * the tick that ends the game or when the inputs run out.
   */
  function Run(w: World, inputs: seq<TickInput>): (e: Ending)
    ensures e.ticks <= |inputs|
    ensures !e.gameOver ==> e.ticks == |inputs|
    ensures e.gameOver ==> e.ticks > 0
    ensures e.world.score >= w.score
    ensures e.world.car.y == w.car.y
    decreases |inputs|
  {
    if inputs == [] then Ending(0, false, w)
    else
      var o := TickWorld(w, inputs[0]);
      if o.gameOver then Ending(1, true, o.world)
      else
        var rest := Run(o.world, inputs[1..]);
        Ending(rest.ticks + 1, rest.gameOver, rest.world)
  }

  /**
   * A game that ended did so on its last tick: the ticks before it ran
   * without a collision, and the last one collided and left the state that
   * the loop ends with.
   */
  lemma {:induction false} RunEndsOnFirstCollision(w: World, inputs: seq<TickInput>)
    ensures var e := Run(w, inputs);
            e.gameOver ==>
              var before := Run(w, inputs[..e.ticks - 1]);
              && !before.gameOver
              && TickWorld(before.world, inputs[e.ticks - 1]) == Outcome(true, e.world)
    decreases |inputs|
  {
    var e := Run(w, inputs);
    if inputs != [] && e.gameOver {
      var o := TickWorld(w, inputs[0]);
      if o.gameOver {
        assert inputs[..e.ticks - 1] == [];
      } else {
        var tail := inputs[1..];
        var rest := Run(o.world, tail);
        RunEndsOnFirstCollision(o.world, tail);
        var prefix := inputs[..e.ticks - 1];
        assert prefix[0] == inputs[0];
        assert prefix[1..] == tail[..rest.ticks - 1];
        assert inputs[e.ticks - 1] == tail[rest.ticks - 1];
      }
    }
  }

  /** The loop keeps the invariant, and a game still running is settled. */
  lemma {:induction false} RunKeepsInvariants(w: World, inputs: seq<TickInput>)
    ensures ValidWorld(w) ==> ValidWorld(Run(w, inputs).world)
    ensures SettledWorld(w) && !Run(w, inputs).gameOver ==> SettledWorld(Run(w, inputs).world)
    decreases |inputs|
  {
    if inputs != [] {
      TickKeepsInvariants(w, inputs[0]);
      var o := TickWorld(w, inputs[0]);
      if !o.gameOver {
        RunKeepsInvariants(o.world, inputs[1..]);
      }
    }
  }
}
