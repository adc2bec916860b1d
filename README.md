# TurboRush game state, modelled in Dafny

TurboRush is a console arcade game. The player's car sits on the bottom row
of a 30 × 20 road and dodges obstacles that fall from the top. It collects
power-ups that fall alongside them; a score boost plays a tune and a speed
boost makes the car move two cells per key press for ten moves. The car can
also fire bullets upward; a bullet that hits an obstacle removes it and adds
one point. A car that shares a cell with an obstacle ends the game.

This project models the state update of the game (everything `main.cpp`
does between two screen refreshes) and proves what it guarantees:

- `Entities.dfy`: the field size, the boost length and the two power-up
  types; the four entities as records; `vector::erase` on sequences.
- `Kinematics.dfy`: `moveCar` as a function on car values. It carries the
  lemmas about the lane bounds and the speed-boost countdown.
- `Spawner.dfy`: how a `rand()` draw becomes a spawn gate, a column or a
  power-up type.
- `Collision.dfy`: the read-only checks. These are:
  - the car collision;
  - the first-match scans used by the pickup and the bullet hit;
  - the effect of a pickup on the car;
  - the off-screen cull as a filter, with its stability and counting
    lemmas.
- `Shooting.dfy`: the bullet pass of the loop as a function, `BulletPass`.
  Each bullet in order removes the first obstacle on its cell, if any, and
  is then moved to row -1. Lemmas pin down which obstacles and bullets it
  touches.
- `Rules.dfy`: the game as functions on whole game states.
  - `AdvanceWorld`, `ResolveWorld` and `TickWorld` cover one pass of the
    loop; `Run` covers the loop over a sequence of inputs.
  - The state invariants and their preservation are proved here.
- `Game.dfy`: class `GameState`, holding the car, the three entity vectors
  and the score, with the in-place update methods of `main.cpp`. Each
  method is proved to leave exactly the state that the functions of the
  other modules describe.

Key presses and `rand()` draws are parameters of the methods. Sound requests
are boolean results. A sound counts as requested when the game would
start it if no other sound of that kind were playing.

The car's column is bounded by the drawn road 0 .. WIDTH-1, not by the
spawner's lane 1 .. WIDTH-2. The guard `car.x > 1` (or `car.x < WIDTH - 2`)
is tested before a step, and that step is 2 cells while boosted. A boosted
car therefore reaches column 0 or WIDTH-1
(`Kinematics.BoostedMoveReachesRoadEdge`). Without a boost the car stays in
1 .. WIDTH-2 (`Kinematics.UnboostedMoveStaysInLane`).

## Model

| member | source | states |
|---|---|---|
| Entities.Erase | main.cpp:155 | removing position k drops exactly that element; every other element keeps its value and relative order, and the multiset loses exactly one copy of it |
| Kinematics.StepSize | main.cpp:74-78 | a key press moves the car 2 cells exactly while it has a speed boost, otherwise 1 |
| Kinematics.MovedCar | main.cpp:73-95 | `moveCar` never changes the row; while boosted it consumes one move of boost and keeps the flag exactly while moves remain; no key keeps the column; one key moves by the step size when its guard allows it; the column always changes by at most one step |
| Kinematics.BothKeysHeld | main.cpp:88-93 | with both keys held the right guard sees the column after the left step: a car in 2 .. WIDTH-2 ends where it started, one in column 0 or 1 moves one step right, and one in column WIDTH-1 ends at WIDTH-2 without a boost and at WIDTH-1 with one |
| Kinematics.UnboostedMoveStaysInLane | main.cpp:88-93 | without a boost a car in columns 1 .. WIDTH-2 stays there |
| Kinematics.MovePreservesCarInvariant | main.cpp:73-95 | the car invariant (bottom row, columns 0 .. WIDTH-1, boost flag set exactly while 1 .. 10 moves remain) survives every move |
| Kinematics.BoostedMoveReachesRoadEdge | main.cpp:88-93 | a boosted car in column 2 moving left reaches column 0, and one in column WIDTH-3 moving right reaches WIDTH-1 |
| Kinematics.BoostCountdown | main.cpp:77-85 | a boosted car with d moves left loses one per move and keeps the boost for exactly d-1 moves; the d-th move clears it, whatever keys are pressed |
| Kinematics.PickupBoostLastsTenMoves | main.cpp:150-153 | after the pickup sets the boost to 10, each of the next ten moves takes 2 cells and the car is back to 1 cell after them |
| Spawner.SpawnColumn | main.cpp:106 | a spawn column is always in the lane 1 .. WIDTH-2 |
| Spawner.SpawnColumnCoversLane | main.cpp:113 | every lane column is produced by some draw |
| Spawner.ObstacleGate | main.cpp:338 | the loop's gate spawns an obstacle exactly for draws that are multiples of ten |
| Spawner.ObstacleGateOneInTen | main.cpp:338 | of any ten consecutive draws exactly one spawns an obstacle |
| Spawner.PowerUpGate | main.cpp:111 | `generatePowerUp` spawns exactly for draws that are multiples of five |
| Spawner.PowerUpGateOneInFive | main.cpp:111 | of any five consecutive draws exactly one spawns a power-up |
| Spawner.PowerUpKind | main.cpp:112 | a new power-up is always a score boost or a speed boost |
| Collision.CheckCollision | main.cpp:132-137 | the check is true exactly when some obstacle occupies the car's cell |
| Collision.FirstObstacleAt | main.cpp:164-182 | the scan returns the position of the first obstacle on the cell, or the length when there is none |
| Collision.FirstPowerUpAt | main.cpp:141-158 | the scan returns the position of the first power-up on the cell, or the length when there is none |
| Collision.FirstObstacleAtFindsCollision | main.cpp:132-137 | the first-match scan finds an obstacle exactly when the car collision check is true |
| Collision.EraseKeepsCellFree | main.cpp:176 | removing any obstacle never puts an obstacle on a cell that had none |
| Collision.PickupEffect | main.cpp:143-154 | a speed boost sets the flag and restarts the countdown at 10 without changing the position; any other type leaves the car unchanged |
| Collision.PickupPreservesCarInvariant | main.cpp:150-153 | a pickup keeps the car invariant |
| Collision.OffScreen | main.cpp:187-189 | a bullet is off screen exactly when it is no longer on row 1 or below |
| Collision.KeepOnScreen | main.cpp:358 | no bullet left after the cull is off screen, and the cull never adds bullets |
| Collision.KeepOnScreenCounts | main.cpp:358 | the cull keeps every on-screen bullet as often as it occurred and drops every off-screen one |
| Collision.KeepOnScreenSurvivors | main.cpp:358 | a bullet survives the cull exactly when it was there and is on screen |
| Collision.KeepOnScreenAppend | main.cpp:358 | the cull is stable: culling a concatenation culls each part and keeps them in order |
| Collision.MarkedBulletIsCulled | main.cpp:353 | a bullet moved to row -1 after a hit never survives the cull |
| Shooting.HitStep | main.cpp:164-177 | one `checkBulletHitObstacle` call in the pass appends one tested bullet, and the obstacles plus the points scored stay the same in total: a point is only ever paid for by one obstacle removed |
| Shooting.HitStepScoresIffOnCell | main.cpp:164-166 | a bullet scores a point exactly when some obstacle sits on its cell |
| Shooting.HitStepAppendsBullet | main.cpp:351-355 | the step only removes obstacles, keeps the bullets already tested, and appends the tested bullet either untouched or moved to row -1 |
| Shooting.BulletPass | main.cpp:351-355 | the pass tests every bullet once, so it returns one bullet per bullet it was given |
| Shooting.PassStep | main.cpp:351-355 | the pass over one more bullet is one more `checkBulletHitObstacle` step on the obstacles the earlier bullets left |
| Shooting.ErasureKeepsMisses | main.cpp:176 | removing an obstacle keeps every bullet that missed a miss |
| Shooting.BulletPassKeepsOrMarks | main.cpp:351-355 | every bullet is either left as it was or moved to row -1 |
| Shooting.BulletPassOnlyRemoves | main.cpp:163-184 | obstacles are only removed, never added, and the pass scores exactly one point per obstacle removed |
| Shooting.BulletPassLeavesMisses | main.cpp:351-355 | after the pass no obstacle is on the cell of a bullet that was not moved to row -1 |
| Shooting.BulletPassMarksOnePerHit | main.cpp:351-355 | when no bullet starts at row -1, the pass marks exactly as many bullets as it scores points: one bullet per obstacle removed |
| Shooting.SubCollectionKeepsCellFree | main.cpp:176 | a cell without obstacles stays without obstacles in anything left after removals |
| Shooting.LastBulletSpared | main.cpp:165 | the last bullet of the pass is untouched when no obstacle sat on its cell at the start of the pass |
| Shooting.BulletPassSparesMisses | main.cpp:165 | a bullet whose cell held no obstacle at the start of the pass is left untouched |
| Shooting.BulletPassSparesUntargeted | main.cpp:165 | an obstacle on no bullet's cell keeps every copy of itself through the pass |
| Rules.ObstaclesDown | main.cpp:98-102 | every obstacle moves `speed` rows down; length, order and columns are kept |
| Rules.PowerUpsDown | main.cpp:118-122 | every power-up moves one row down; length, order, columns and types are kept |
| Rules.BulletsUp | main.cpp:125-129 | every bullet moves one row up; length, order and columns are kept |
| Rules.SpawnedObstacles | main.cpp:338 | at most one obstacle is spawned, exactly when the gate draw is a multiple of ten, and it is on row 1 in a lane column |
| Rules.SpawnedPowerUps | main.cpp:110-115 | at most one power-up is spawned, exactly when the gate draw is a multiple of five, on row 1 in a lane column with one of the two types |
| Rules.AdvanceWorld | main.cpp:332-339 | moving and spawning keep the score, the car's row and the number of bullets, and add at most one obstacle and one power-up |
| Rules.AdvanceMovesEverything | main.cpp:332-339 | every obstacle and power-up moves one row down and every bullet one row up, at its old position; anything spawned comes after them, on row 1 in a lane column |
| Rules.PickUp | main.cpp:140-160 | the pickup changes only the car and the power-ups, and the car keeps its cell |
| Rules.PickUpTakesOneIffOnCell | main.cpp:141-142 | exactly one power-up is taken exactly when one sits on the car's cell; otherwise nothing changes |
| Rules.PowerUpSound | main.cpp:141-148 | the tune is requested only when a score boost sits on the car's cell, and then the pickup takes one power-up and leaves the car unchanged; when every power-up on the cell is a score boost and there is one, the tune is requested |
| Rules.ShootWorld | main.cpp:351-366 | the bullet half of the tick leaves the car and the power-ups alone, and raises the score by exactly the number of obstacles it removes |
| Rules.ResolveWorld | main.cpp:347-366 | the pickup and the bullets keep the car's cell, never lower the score and take at most one power-up |
| Rules.TickWorld | main.cpp:332-366 | a tick never lowers the score, leaves it unchanged on the game-over tick, and never moves the car off its row |
| Rules.TickScoresShots | main.cpp:342-366 | the game is over exactly when an obstacle sits on the moved car's cell, and the game-over tick leaves the advanced state untouched. Otherwise the score rises by the number of obstacles removed, every bullet is on screen except a fired one, and a fired bullet is last, one row above the car |
| Rules.RemovalKeepsObstacleBounds | main.cpp:176 | obstacles that only lose members keep the lane and row bounds |
| Rules.ErasureKeepsPowerUpBounds | main.cpp:155 | removing a power-up keeps the lane, type and row bounds of the others |
| Rules.MarkingKeepsBulletBounds | main.cpp:353 | moving bullets to row -1 keeps them in their columns and no lower than before |
| Rules.CullKeepsBulletBounds | main.cpp:358 | after the cull every bullet is on screen and keeps its column and its lowest row |
| Rules.AdvanceKeepsInvariants | main.cpp:332-339 | moving and spawning keep the invariant, and from a state between ticks reach the state the fatal check expects |
| Rules.PickUpKeepsInvariants | main.cpp:348 | the pickup keeps the invariant and the bounds the fatal check saw |
| Rules.ResolveKeepsInvariants | main.cpp:347-366 | the pickup, the bullet pass, the cull and the new bullet keep the invariant and leave a state fit for the next tick |
| Rules.TickKeepsInvariants | main.cpp:332-366 | a tick keeps the invariant, and one that does not end the game leaves a state fit for the next tick |
| Rules.Run | main.cpp:324-370 | the loop runs at most one tick per input and all of them unless the game ends; a game that ended ran at least one tick; the score never falls and the car keeps its row |
| Rules.RunEndsOnFirstCollision | main.cpp:342-345 | a game that ended did so on its last tick: no earlier tick collided, and the last one collided and left the final state |
| Rules.RunKeepsInvariants | main.cpp:324-370 | the loop keeps the invariant, and a game still running is in a state fit for the next tick |
| Game.GameState.constructor | main.cpp:316-320 | the game starts with the car at the bottom centre without a boost, no entities, score 0, and the invariants hold |
| Game.GameState.MoveCar | main.cpp:73-95 | the in-place update of the car is `MovedCar` of the old car |
| Game.GameState.MoveObstacles | main.cpp:98-102 | the in-place loop leaves exactly `ObstaclesDown` of the old obstacles |
| Game.GameState.MovePowerUps | main.cpp:118-122 | the in-place loop leaves exactly `PowerUpsDown` of the old power-ups |
| Game.GameState.MoveBullets | main.cpp:125-129 | the in-place loop leaves exactly `BulletsUp` of the old bullets |
| Game.GameState.GenerateObstacle | main.cpp:105-107 | exactly one obstacle is appended, on row 1 in a lane column; earlier ones are unchanged |
| Game.GameState.GeneratePowerUp | main.cpp:110-115 | exactly one power-up (row 1, lane column, type 0 or 1) is appended when the gate draw passes; otherwise the vector is unchanged |
| Game.GameState.CheckPowerUpCollection | main.cpp:140-160 | it collects exactly when a power-up is on the car's cell. Then exactly the first such power-up is removed and the others keep their order; a speed boost restarts the boost and a score boost requests the sound. Otherwise nothing changes. The new state is `PickUp` of the old one |
| Game.GameState.CheckBulletHitObstacle | main.cpp:163-184 | a hit removes exactly the first obstacle on the bullet's cell and adds exactly one point; a miss changes nothing; the crash sound is requested exactly on a hit |
| Game.GameState.ResolveBulletHits | main.cpp:351-355 | the obstacles, the bullets and the score left by the loop are exactly those of `BulletPass` on the old vectors; the crash sound is requested exactly when a point was scored |
| Game.GameState.CullBullets | main.cpp:358 | the in-place `remove_if` and `erase` leave exactly the on-screen bullets in their old order |
| Game.GameState.Advance | main.cpp:332-339 | the new state is exactly `AdvanceWorld`: the car moves, every entity moves one row, an obstacle is spawned exactly when the gate passes and a power-up as `generatePowerUp` decides; the score is unchanged |
| Game.GameState.Shoot | main.cpp:351-366 | the new state is exactly the bullet pass, the cull and the optional new bullet above the car; the crash sound is requested exactly when a point was scored |
| Game.GameState.Resolve | main.cpp:347-366 | the new state is exactly `ResolveWorld`: the pickup, then the bullets; the power-up sound is requested exactly when a score boost is taken |
| Game.GameState.Tick | main.cpp:332-366 | the game-over flag and the whole new state are exactly `TickWorld` of the old state; the game-over tick requests no sound; the invariants hold between ticks |
| Game.GameState.Play | main.cpp:324-370 | the ticks run, the game-over flag and the final state are exactly `Run` of the old state over the inputs; the invariants hold |

## Left out

- Drawing the screen, the loading screen and the console colours are console output and are not modelled. This includes the palette change when the score reaches a multiple of 64.
- The sound functions, the detached threads that play them and the atomic in-flight flags are concurrency and `Beep`. A sound appears only as a boolean "requested" result, and whether it actually starts is not modelled.
- `GetAsyncKeyState` becomes boolean parameters. `Sleep` is left out.
- `rand()` becomes explicit draw parameters. `srand(time(0))` is left out.
  - The model takes every draw a tick may use as its own parameter.
  - It does not model that the number of draws per tick depends on the gates, which makes later draws depend on earlier ones in one shared pseudo-random stream.
- `setRandomColor`'s two draws are left out with the palette change.
- The game loop of `main.cpp` never ends except on a crash. `Game.GameState.Play` stops when its inputs run out.
- `int` overflow of the score or of the entity rows is not modelled; the model uses unbounded integers. Obstacles and power-ups are never removed below the screen, so their rows grow without bound, as in `main.cpp`.
- Game.GameState.Tick: the game-over sound and the final score message are output and are not modelled; the tick only reports that the game is over.
