/**
 * The game state `main` keeps between ticks and the operations that update
 * it in place, ending with one tick of the game loop and the loop itself.
 * Each update is proved to do exactly what the functions of `Rules` say.
 */
module Game {
  import opened Entities
  import opened Kinematics
  import opened Spawner
  import opened Collision
  import opened Shooting
  import opened Rules

  /**
   * The car, the three entity vectors and the score. Key presses, `rand()`
   * draws and sound requests are parameters and results of the methods.
   */
  class GameState {
    var car: Car
    var obstacles: seq<Obstacle>
    var powerUps: seq<PowerUp>
    var bullets: seq<Bullet>
    var score: int

    /** The fields as one game-state value. */
    ghost function Snapshot(): World
      reads this
    {
      World(car, obstacles, powerUps, bullets, score)
    }

    /** What no operation of the game breaks. */
    ghost predicate Valid()
      reads this
    {
      ValidWorld(Snapshot())
    }

    /** The state between two ticks. */
    ghost predicate Settled()
      reads this
    {
      SettledWorld(Snapshot())
    }

    /** The state before the first tick: the car at the bottom centre, nothing else. */
    constructor ()
      ensures car == Car(WIDTH / 2, HEIGHT - 2, false, 0)
      ensures obstacles == [] && powerUps == [] && bullets == []
      ensures score == 0
      ensures Settled()
    {
      car := Car(WIDTH / 2, HEIGHT - 2, false, 0);
      obstacles, powerUps, bullets := [], [], [];
      score := 0;
    }

    /** `moveCar`: consume one move of boost, then the guarded left and right steps. */
    method MoveCar(keys: Keys)
      modifies this`car
      ensures car == MovedCar(old(car), keys)
    {
      var carSpeed := 1;
      if car.hasSpeedBoost {
        carSpeed := 2;
        car := car.(speedBoostDuration := car.speedBoostDuration - 1);
        if car.speedBoostDuration <= 0 {
          car := car.(hasSpeedBoost := false);
        }
      }
      if keys.left && car.x > 1 {
        car := car.(x := car.x - carSpeed);
      }
      if keys.right && car.x < WIDTH - 2 {
        car := car.(x := car.x + carSpeed);
      }
    }

    /** `moveObstacles`: every obstacle moves `speed` rows down, in place. */
    method MoveObstacles(speed: int)
      modifies this`obstacles
      ensures obstacles == ObstaclesDown(old(obstacles), speed)
    {
      var i := 0;
      while i < |obstacles|
        invariant 0 <= i <= |obstacles| == |old(obstacles)|
        invariant forall j :: 0 <= j < i ==>
                    obstacles[j] == Obstacle(old(obstacles)[j].x, old(obstacles)[j].y + speed)
        invariant obstacles[i..] == old(obstacles)[i..]
      {
        obstacles := obstacles[i := obstacles[i].(y := obstacles[i].y + speed)];
        i := i + 1;
      }
    }

    /** `movePowerUps`: every power-up moves one row down, in place. */
    method MovePowerUps()
      modifies this`powerUps
      ensures powerUps == PowerUpsDown(old(powerUps))
    {
      var i := 0;
      while i < |powerUps|
        invariant 0 <= i <= |powerUps| == |old(powerUps)|
        invariant forall j :: 0 <= j < i ==>
                    powerUps[j] == PowerUp(old(powerUps)[j].x, old(powerUps)[j].y + 1, old(powerUps)[j].kind)
        invariant powerUps[i..] == old(powerUps)[i..]
      {
        powerUps := powerUps[i := powerUps[i].(y := powerUps[i].y + 1)];
        i := i + 1;
      }
    }

    /** `moveBullets`: every bullet moves one row up, in place. */
    method MoveBullets()
      modifies this`bullets
      ensures bullets == BulletsUp(old(bullets))
    {
      var i := 0;
      while i < |bullets|
        invariant 0 <= i <= |bullets| == |old(bullets)|
        invariant forall j :: 0 <= j < i ==>
                    bullets[j] == Bullet(old(bullets)[j].x, old(bullets)[j].y - 1)
        invariant bullets[i..] == old(bullets)[i..]
      {
        bullets := bullets[i := bullets[i].(y := bullets[i].y - 1)];
        i := i + 1;
      }
    }

    /** `generateObstacle`: append one obstacle on row 1 in the column `draw` picks. */
    method GenerateObstacle(draw: nat)
      modifies this`obstacles
      ensures obstacles == old(obstacles) + [Obstacle(SpawnColumn(draw), 1)]
    {
      obstacles := obstacles + [Obstacle(draw % (WIDTH - 2) + 1, 1)];
    }

    /**
     * `generatePowerUp`: when the gate draw lets it through, append one
     * power-up on row 1 whose type is drawn before its column.
     */
    method GeneratePowerUp(gateDraw: nat, kindDraw: nat, columnDraw: nat)
      modifies this`powerUps
      ensures PowerUpGate(gateDraw) ==>
                powerUps == old(powerUps) + [PowerUp(SpawnColumn(columnDraw), 1, PowerUpKind(kindDraw))]
      ensures !PowerUpGate(gateDraw) ==> powerUps == old(powerUps)
    {
      if gateDraw % 5 < 1 {
        var kind := kindDraw % 2;
        powerUps := powerUps + [PowerUp(columnDraw % (WIDTH - 2) + 1, 1, kind)];
      }
    }

    /**
     * `checkPowerUpCollection`: the first power-up on the car's cell is
     * removed; a speed boost (re)starts the boost at ten moves, a score boost
     * only asks for the power-up sound, any other type does nothing more.
     */
    method CheckPowerUpCollection() returns (collected: bool, powerUpSound: bool)
      modifies this`car, this`powerUps
      ensures collected <==> FirstPowerUpAt(old(powerUps), old(car).x, old(car).y) < |old(powerUps)|
      ensures collected ==>
                var p := old(powerUps)[FirstPowerUpAt(old(powerUps), old(car).x, old(car).y)];
                && powerUps == Erase(old(powerUps), FirstPowerUpAt(old(powerUps), old(car).x, old(car).y))
                && car == PickupEffect(old(car), p)
                && (powerUpSound <==> p.kind == SCORE_BOOST)
      ensures !collected ==> powerUps == old(powerUps) && car == old(car) && !powerUpSound
      ensures Snapshot() == PickUp(old(Snapshot()))
      ensures powerUpSound == PowerUpSound(old(Snapshot()))
    {
      var i := 0;
      while i < |powerUps|
        invariant 0 <= i <= |powerUps|
        invariant powerUps == old(powerUps) && car == old(car)
        invariant forall j :: 0 <= j < i ==> !(powerUps[j].x == car.x && powerUps[j].y == car.y)
      {
        var p := powerUps[i];
        if car.x == p.x && car.y == p.y {
          assert i == FirstPowerUpAt(powerUps, car.x, car.y);
          powerUpSound := false;
          if p.kind == SCORE_BOOST {
            powerUpSound := true;
          } else if p.kind == SPEED_BOOST {
            car := car.(hasSpeedBoost := true, speedBoostDuration := BOOST_TICKS);
          }
          powerUps := Erase(powerUps, i);
          return true, powerUpSound;
        }
        i := i + 1;
      }
      return false, false;
    }

    /**
     * `checkBulletHitObstacle`: the first obstacle on the bullet's cell is
     * removed and the score goes up by one; a miss changes nothing.
     */
    method CheckBulletHitObstacle(b: Bullet) returns (hit: bool, crashSound: bool)
      modifies this`obstacles, this`score
      ensures hit <==> FirstObstacleAt(old(obstacles), b.x, b.y) < |old(obstacles)|
      ensures hit ==> && obstacles == Erase(old(obstacles), FirstObstacleAt(old(obstacles), b.x, b.y))
                      && score == old(score) + 1
      ensures !hit ==> obstacles == old(obstacles) && score == old(score)
      ensures crashSound == hit
    {
      var i := 0;
      while i < |obstacles|
        invariant 0 <= i <= |obstacles|
        invariant obstacles == old(obstacles) && score == old(score)
        invariant forall j :: 0 <= j < i ==> !(obstacles[j].x == b.x && obstacles[j].y == b.y)
      {
        if b.x == obstacles[i].x && b.y == obstacles[i].y {
          score := score + 1;
          obstacles := Erase(obstacles, i);
          return true, true;
        }
        i := i + 1;
      }
      return false, false;
    }

    /**
     * The bullet pass of the loop body: each bullet in turn is tested against
     * the obstacles left by the bullets before it, and a bullet that hit is
     * moved to row -1; the result is `BulletPass` of the old vectors.
     */
    method ResolveBulletHits() returns (crashSound: bool)
      modifies this`bullets, this`obstacles, this`score
      ensures var pass := BulletPass(old(obstacles), old(bullets));
              && obstacles == pass.obstacles
              && bullets == pass.bullets
              && score == old(score) + pass.hits
      ensures crashSound <==> score > old(score)
    {
      ghost var bs0, obs0 := bullets, obstacles;
      ghost var done := Pass(obstacles, [], 0);
      crashSound := false;
      var i := 0;
      while i < |bullets|
        invariant 0 <= i <= |bullets| == |bs0|
        invariant done == BulletPass(obs0, bs0[..i])
        invariant bullets == done.bullets + bs0[i..]
        invariant obstacles == done.obstacles
        invariant score == old(score) + done.hits
        invariant crashSound <==> score > old(score)
      {
        PassStep(obs0, bs0, i);
        SplitAtSeam(done.bullets, bs0[i..]);
        assert bs0[i..][1..] == bs0[i + 1..];
        var b := bullets[i];
        var hit, crash := CheckBulletHitObstacle(b);
        if hit {
          bullets := bullets[i := b.(y := -1)];
          UpdateAtSeam(done.bullets, bs0[i..], b.(y := -1));
        }
        done := HitStep(done, b);
        crashSound := crashSound || crash;
        i := i + 1;
      }
      assert bs0[..i] == bs0;
      assert bs0[i..] == [];
    }

    /**
     * `remove_if(checkBulletOffScreen)` and `erase`: survivors are moved
     * forward over the culled bullets, then the tail is cut off.
     */
    method CullBullets()
      modifies this`bullets
      ensures bullets == KeepOnScreen(old(bullets))
    {
      var bs := bullets;
      var w, i := 0, 0;
      while i < |bs|
        invariant 0 <= w <= i <= |bs| == |bullets|
        invariant bullets == old(bullets)
        invariant bs[..w] == KeepOnScreen(bullets[..i])
        invariant forall j :: i <= j < |bs| ==> bs[j] == bullets[j]
      {
        var b := bs[i];
        assert bullets[..i + 1] == bullets[..i] + [b];
        KeepOnScreenAppend(bullets[..i], [b]);
        if !OffScreen(b) {
          ghost var kept := bs[..w];
          bs := bs[w := b];
          assert bs[..w + 1] == kept + [b];
          w := w + 1;
        }
        i := i + 1;
      }
      assert bullets[..i] == bullets;
      assert bs[..w] == KeepOnScreen(old(bullets));
      bullets := bs[..w];
    }

    /**
     * The first half of the loop body: move the car and every entity, then
     * spawn an obstacle when the loop's gate draw allows it and let
     * `generatePowerUp` draw for a power-up.
     */
    method Advance(t: TickInput)
      modifies this
      ensures Snapshot() == AdvanceWorld(old(Snapshot()), t)
    {
      MoveCar(Keys(t.left, t.right));
      MoveObstacles(1);
      MovePowerUps();
      MoveBullets();
      if t.obstacleGateDraw % 10 < 1 {
        GenerateObstacle(t.obstacleColumnDraw);
      }
      GeneratePowerUp(t.powerUpGateDraw, t.powerUpKindDraw, t.powerUpColumnDraw);
    }

    /**
     * The bullet half of the loop body: the bullet pass, the cull and, with
     * the fire key held, a new bullet one row above the car.
     */
    method Shoot(fire: bool) returns (crashSound: bool)
      modifies this`obstacles, this`bullets, this`score
      ensures Snapshot() == ShootWorld(old(Snapshot()), fire)
      ensures crashSound <==> score > old(score)
    {
      crashSound := ResolveBulletHits();
      CullBullets();
      if fire {
        bullets := bullets + [Bullet(car.x, car.y - 1)];
      }
    }

    /**
     * The second half of the loop body, reached only when the fatal check
     * passed: the power-up pickup, then the bullets.
     */
    method Resolve(fire: bool) returns (powerUpSound: bool, crashSound: bool)
      modifies this
      ensures Snapshot() == ResolveWorld(old(Snapshot()), fire)
      ensures powerUpSound == PowerUpSound(old(Snapshot()))
      ensures crashSound <==> score > old(score)
    {
      var collected;
      collected, powerUpSound := CheckPowerUpCollection();
      crashSound := Shoot(fire);
    }

    /**
     * One pass of the game loop body: advance, then the fatal check, which
     * ends the game before any pickup or bullet is resolved, then resolve.
     * The invariant is kept, and a tick that does not end the game leaves a
     * settled state behind.
     */
    method Tick(t: TickInput) returns (gameOver: bool, powerUpSound: bool, crashSound: bool)
      modifies this
      ensures Outcome(gameOver, Snapshot()) == TickWorld(old(Snapshot()), t)
      ensures gameOver ==> !powerUpSound && !crashSound
      ensures !gameOver ==> powerUpSound == PowerUpSound(AdvanceWorld(old(Snapshot()), t))
      ensures crashSound <==> score > old(score)
      ensures old(Valid()) ==> Valid()
      ensures old(Settled()) && !gameOver ==> Settled()
    {
      TickKeepsInvariants(Snapshot(), t);
      Advance(t);
      if CheckCollision(car, obstacles) {
        return true, false, false;
      }
      gameOver := false;
      powerUpSound, crashSound := Resolve(t.fire);
    }

    /**
     * The game loop: one tick per input until the fatal collision breaks out
     * of it. The loop never ends by itself, so the model stops when the inputs
     * run out. The result is `Run` of the old state over the inputs.
     */
    method Play(inputs: seq<TickInput>) returns (ticks: nat, gameOver: bool)
      modifies this
      ensures Ending(ticks, gameOver, Snapshot()) == Run(old(Snapshot()), inputs)
      ensures old(Valid()) ==> Valid()
      ensures old(Settled()) && !gameOver ==> Settled()
    {
      ticks, gameOver := 0, false;
      ghost var start := Snapshot();
      RunKeepsInvariants(start, inputs);
      while ticks < |inputs| && !gameOver
        invariant ticks <= |inputs|
        invariant !gameOver ==>
                    var rest := Run(Snapshot(), inputs[ticks..]);
                    Run(start, inputs) == Ending(ticks + rest.ticks, rest.gameOver, rest.world)
        invariant gameOver ==> Run(start, inputs) == Ending(ticks, true, Snapshot())
      {
        ghost var before := Snapshot();
        assert inputs[ticks..][1..] == inputs[ticks + 1..];
        var powerUpSound, crashSound;
        gameOver, powerUpSound, crashSound := Tick(inputs[ticks]);
        ticks := ticks + 1;
      }
    }
  }
}
