# Memory Invaders — a verified model of the game core

Memory Invaders is a small shoot-'em-up. The player's archer follows the
pointer and fires arrows upward under a one-second cooldown. Twenty teddy
bears sweep sideways, bounce off the side edges, drift down a little faster
as the score grows and drop a step at every bounce. An arrow that strikes a
bear removes the arrow, scores a point, leaves a burst of eight heart
particles and respawns the bear near the top. The session is lost when a
bear reaches the player or the bottom line, and it is won at fifteen points.
A restart button on either end screen starts over.

This project models the game's state and every operation that changes it:

- `reset_game` and the program start;
- `fire_bullet`;
- `spawn_heart_explosion`;
- `is_collision`;
- the handling of one input event;
- the per-frame update (clamp the player, run the enemy loop, the bullet
  loop and the particle loop, then check for a win);
- the restart button of the two end screens.

It is built in two layers.

- **Specification on values.**
  - `Entities` holds the constants and the records: `Bullet`, `Particle`,
    the random draws `Roll`, and `World`, the whole session as one value.
  - `Collision`, `Cooldown`, `Explosions`, `Bullets`, `Enemies` and `Frame`
    define each operation as a function on `World` and prove what the game
    promises about it.
  - The enemy loop is `EnemiesUpTo`, the state after its first `n`
    iterations. The properties of a whole frame are proved by induction
    over it.
- **The program.** `Session.GameState` is a class whose fields are the
  game's globals.
  - The four parallel enemy lists are `array`s, assigned by index and
    replaced by new arrays on reset.
  - The bullet and explosion lists are `seq` fields that the methods
    reassign.
  - Every method keeps the game's loops. Examples: the linear
    search for the first striking arrow, the in-place climb of each arrow
    followed by removal by value, and the nested in-place particle update
    followed by the filter.
  - Every method's postcondition ties the new state, `Snapshot()`, to the
    specification function of the same operation applied to the old state.
  - `Valid()` holds throughout. It says the enemy lists keep length 20,
    every horizontal speed is ±0.8 and every descent step is 50.

Randomness and time are parameters:

- a reset takes the twenty x draws and the twenty y draws;
- each enemy in a frame comes with a `Roll`: its respawn position and the
  eight spark velocities it would use if hit;
- shots take the tick `now`.

`requires` clauses limit these inputs to the ranges the game draws from.

Three details of the game's behaviour are easy to get wrong:

- **End flags.** Both end flags can be raised in the same frame: when the
  fifteenth point is scored in a frame where a bear overruns the player
  (`Frame.FrameFlags`). The game-over screen then takes precedence
  (`Frame.RestartButtonTop`).
- **Empty explosion groups.** Only groups that were already empty when the
  frame began are dropped. A group whose last particles expire in this
  frame survives one more frame as an empty group
  (`Explosions.NonEmptyGroupSurvives`).
- **Where the hearts appear.** The burst appears at the bear's corner plus
  16 on each axis, not at the centre of its 64-pixel sprite
  (`Enemies.UpdateEnemyHit`).

One consequence of the code as written is proved as
`Enemies.EdgeRespawnBouncesEveryFrame`. A respawn keeps the bear's velocity,
so a bear respawned at x = 0 while moving left bounces in every frame. It
stays at the edge and drops a full descent step each frame.

## Model

| member | source | states |
|---|---|---|
| Collision.IsCollision | thegameaboutus.py:114-115 | two points collide exactly when the second lies strictly inside the open square of half-side `threshold` around the first, on each axis separately |
| Collision.CollisionSymmetric | thegameaboutus.py:114-115 | the collision test does not depend on the order of its two points |
| Collision.CollisionMonotone | thegameaboutus.py:114-115 | a wider threshold (55 for the player check at line 163) accepts every pair a narrower one (50) accepts |
| Collision.CollisionIsPerAxis | thegameaboutus.py:114-115 | the test is per axis: points 49 apart on both axes collide at 50 although their Euclidean distance exceeds 50, and points exactly 50 apart on one axis never collide |
| Collision.Hovered | thegameaboutus.py:86 | the pointer can be inside a button only when the button is at least 2 wide and 2 tall, because both bounds are strict |
| Cooldown.AfterFire | thegameaboutus.py:96-103 | a shot at least 1000 ticks after the last appends exactly one bullet at (player x + 22, player y) at the end of the list and records the tick; otherwise nothing changes; no other field ever changes |
| Cooldown.SecondShotWithinCooldownDropped | thegameaboutus.py:96-103 | a second request within the cooldown of a successful shot is dropped, so only one bullet is added |
| Cooldown.SecondShotAfterCooldownFires | thegameaboutus.py:96-103 | a request a full cooldown after a successful shot fires again: two bullets are added in firing order and the clock holds the second tick |
| Explosions.HeartGroup | thegameaboutus.py:106-112 | a group has exactly 8 particles, all at the given point with lifespan 20 and velocity components in [-3, 3] |
| Explosions.AdvanceGroup | thegameaboutus.py:177-180 | `Advanced` on every particle: each moves by its velocity, keeps that velocity and loses exactly one frame of lifespan; the group keeps its length |
| Explosions.AdvanceAll | thegameaboutus.py:176-180 | every group is advanced; no group or particle appears or vanishes |
| Explosions.ParticlePhase | thegameaboutus.py:176-182 | after the particle phase no expired particle remains, and there are no more groups than before |
| Explosions.Live | thegameaboutus.py:182 | a particle is kept exactly when it is in the group and its lifespan is positive |
| Explosions.LiveCount | thegameaboutus.py:182 | the filter keeps every live particle as many times as the group holds it, and drops every expired one |
| Explosions.SingleGroupPhase | thegameaboutus.py:176-182 | a non-empty group on its own becomes the single group of its advanced live particles |
| Explosions.GroupExpires | thegameaboutus.py:176-182 | a group whose particles all have lifespan at most 1 has none left after the frame |
| Explosions.Cull | thegameaboutus.py:182 | after the filter no particle with lifespan at most 0 remains, and there are no more groups than before |
| Explosions.CullAppend | thegameaboutus.py:182 | the filter treats the groups one by one and keeps their order |
| Explosions.ParticlePhaseAppend | thegameaboutus.py:176-182 | the particle phase treats the groups one by one and keeps their order |
| Explosions.EmptyGroupDropped | thegameaboutus.py:182 | a group that was empty when the frame began is dropped |
| Explosions.NonEmptyGroupSurvives | thegameaboutus.py:176-182 | a non-empty group survives in place as its advanced live particles; if every particle had lifespan at most 1 it survives as an empty group |
| Explosions.NoneAliveIsEmpty | thegameaboutus.py:182 | a group with no positive lifespan filters to the empty group |
| Explosions.ParticleFate | thegameaboutus.py:176-182 | each particle moves by its velocity and loses exactly one frame of lifespan; it stays exactly when its lifespan was above 1; every particle left comes from a particle of the group |
| Bullets.RemoveFirst | thegameaboutus.py:156 | removing by value shortens the list by exactly one |
| Bullets.RemoveFirstCount | thegameaboutus.py:156 | removing by value takes out exactly one occurrence of the value and keeps every other bullet |
| Bullets.RemoveFirstAt | thegameaboutus.py:156 | removing by value removes exactly the position where the value first occurs |
| Bullets.Climbed | thegameaboutus.py:170 | a bullet keeps its x and moves up by exactly 6 |
| Bullets.BulletPhase | thegameaboutus.py:169-173 | the bullet phase never lengthens the list, and every survivor is below the top edge (y > 0) |
| Bullets.BulletPhaseFrom | thegameaboutus.py:169-173 | every survivor is a bullet of the list with the same x that climbed by exactly 6 |
| Bullets.BulletPhaseSelects | thegameaboutus.py:169-173 | the survivors are exactly the bullets whose y minus 6 is positive, in their original order, each with its x kept and its y lowered by exactly 6 |
| Bullets.BulletLoopStep | thegameaboutus.py:169-173 | one loop iteration: the current bullet climbs in place; if it reached the top edge, removal by value takes out that very bullet and no earlier survivor |
| Enemies.Drift | thegameaboutus.py:145 | the per-frame descent is at least 0.6 |
| Enemies.DriftGrows | thegameaboutus.py:145 | the descent is 0.6 at score 0 and grows by exactly 0.03 per point, so it never shrinks as the score rises |
| Enemies.Rebound | thegameaboutus.py:147-148 | the horizontal speed after a move keeps its magnitude; it reverses whenever the moved x is at or past a side edge (`AtEdge`: x <= 0 or x >= 936), and only then |
| Enemies.MoveEnemyMotion | thegameaboutus.py:144-149 | `MoveEnemy`: the bear shifts by its speed, which becomes `Rebound`; it drops by the drift, plus its descent step when it bounced, so it moves down by at least 0.6 every frame |
| Enemies.StrikeAndOverrunZones | thegameaboutus.py:153 | `Hits`: a bullet strikes a bear when it is within 50 on each axis; `Overruns` (line 163): a bear overruns the player when it is within 55 on each axis or has reached y = 640 |
| Enemies.EnemyPhase | thegameaboutus.py:143-164 | the enemy loop over all twenty bears keeps the lists well formed; points gained = bullets removed = groups added, at most 20; no bullet is created; the old groups stay in front and only fresh groups are appended |
| Enemies.FirstHit | thegameaboutus.py:152-153 | the bullet acted on is the first in list order that strikes the enemy; when none is found, no bullet strikes it |
| Enemies.FindHit | thegameaboutus.py:152-160 | the linear search finds exactly that first striking bullet |
| Enemies.MoveStep | thegameaboutus.py:144-149 | moving enemy i keeps every enemy list at length 20, every horizontal speed at ±0.8 and every descent step at 50 |
| Enemies.StrikeStep | thegameaboutus.py:152-160 | a hit or a miss on enemy i keeps the enemy lists of length 20 with speeds ±0.8 and descent steps 50 |
| Enemies.OverrunStep | thegameaboutus.py:163-164 | the overrun check keeps the enemy lists well formed |
| Enemies.UpdateEnemy | thegameaboutus.py:143-164 | one iteration of the enemy loop keeps the enemy lists well formed |
| Enemies.EnemiesUpTo | thegameaboutus.py:143-164 | any number of iterations keeps the enemy lists well formed |
| Enemies.UpdateEnemyFrame | thegameaboutus.py:143-164 | enemy i's iteration changes no other enemy and neither the player, the clock, the win flag nor any descent step; its speed is the moved speed, hit or not; game over is raised exactly when its final position overruns the player |
| Enemies.UpdateEnemyMiss | thegameaboutus.py:152-153 | when no bullet strikes the moved enemy, bullets, explosions and score are unchanged and the enemy stays where it moved |
| Enemies.UpdateEnemyHit | thegameaboutus.py:152-160 | when a bullet strikes: exactly the first striking bullet is removed, the score rises by 1, one heart group appears at the moved position plus 16, and the enemy respawns at the rolled position inside [0, 936] x [50, 150] |
| Enemies.StrikeHit | thegameaboutus.py:155-159 | the hit branch removes the bullet at the hit position, scores one point, appends one group and respawns the enemy |
| Enemies.UpdateEnemyOutcome | thegameaboutus.py:152-160 | every iteration is either a miss that changes nothing but the enemy's motion, or a hit that removes one bullet and creates none, scores one point, appends one fresh group and respawns the enemy |
| Enemies.UpdateEnemyAccounting | thegameaboutus.py:152-160 | one iteration scores at most one point, and pays for it with exactly one bullet and one group |
| Enemies.EnemiesUpToFrame | thegameaboutus.py:143-164 | the enemy loop leaves the player, the clock, the win flag and every descent step alone, and does not touch the enemies it has not reached yet |
| Enemies.EnemiesUpToAccounting | thegameaboutus.py:143-164 | after n iterations: points gained = bullets removed = groups added, at most n; the score never decreases; the bullets left are a sub-multiset of the old ones |
| Enemies.EnemiesUpToGroups | thegameaboutus.py:155 | the loop keeps the old groups in front and unchanged, and every group it adds has 8 particles with lifespan 20 |
| Enemies.UpdateEnemyGroups | thegameaboutus.py:155 | one iteration appends at most one group, and only a fresh one |
| Enemies.EnemiesUpToVelocity | thegameaboutus.py:144-149 | every enemy reached reverses its speed exactly when its moved x is at most 0 or at least 936, and otherwise keeps it; a respawn does not change it |
| Enemies.EnemiesUpToPosition | thegameaboutus.py:144-159 | every enemy reached is either at its moved x, lower by the score-dependent drift plus 50 if it bounced, or at its rolled respawn position |
| Enemies.EnemiesUpToGameOver | thegameaboutus.py:163-164 | the loop raises game over exactly when some enemy it reached ends its iteration within 55 of the player on both axes or at y >= 640 |
| Enemies.EnemiesUpToIgnoresGameOver | thegameaboutus.py:143-164 | the loop keeps going once game over is raised, and apart from the flag its outcome does not depend on it |
| Enemies.EdgeRespawnBouncesEveryFrame | thegameaboutus.py:144-149 | a bear at x = 0 moving left bounces in two successive frames, returns to x = 0 still moving left, and drops two descent steps plus two drifts |
| Frame.Clamp | thegameaboutus.py:139-140 | the result lies in [0, hi]; it is the input when that is in range, 0 below the range and hi above it |
| Frame.Initial | thegameaboutus.py:51-67 | after a reset the player is at (500, 620); bullets and explosions are empty; score and clock are 0; both flags are false; every enemy is at its drawn position inside [0, 936] x [50, 150] with speed 0.8 and descent step 50 |
| Frame.AfterEvent | thegameaboutus.py:124-136 | while active, pointer motion centres the player on the pointer and space or a click requests a shot; on an end screen input changes nothing; quit and other keys change nothing |
| Frame.RestartClicked | thegameaboutus.py:190-198 | the restart fires exactly when an end screen is shown, the button is held and the pointer is strictly inside (400, 600) x (370, 430) after a loss, or (400, 600) x (430, 490) after a win |
| Frame.ClampPlayer | thegameaboutus.py:139-140 | the player ends inside [0, 936] x [0, 636]; a coordinate already in range is unchanged; no other field changes |
| Frame.CheckWin | thegameaboutus.py:187-188 | the win flag is raised exactly when the score has reached 15, or it was already raised; no other field changes |
| Frame.RestartButtonTop | thegameaboutus.py:192-198 | the restart button's top is 370 exactly on the game-over screen (which wins when both flags are set) and 430 otherwise |
| Frame.AfterFrame | thegameaboutus.py:138-188 | a frame keeps the enemy lists well formed |
| Frame.TerminalUntilRestart | thegameaboutus.py:128-198 | once either flag is set, frames and input leave the state unchanged; while the session is active, the restart button cannot fire |
| Frame.FrameShape | thegameaboutus.py:138-188 | an active frame is the enemy phase on the clamped state, then the bullet and particle phases, then the win check |
| Frame.FramePlayer | thegameaboutus.py:139-140 | a frame clamps the player into [0, 936] x [0, 636] and leaves the clock alone |
| Frame.FrameScore | thegameaboutus.py:138-188 | a frame never lowers the score, and raises it by at most one per enemy |
| Frame.FrameFlags | thegameaboutus.py:163-164 | after an active frame, game won holds exactly when the score is at least 15, and game over exactly when some enemy overruns the player; the two are independent |
| Frame.FrameVelocity | thegameaboutus.py:143-149 | through a frame every descent step is unchanged, and each speed reverses exactly when the moved x is at or past a side edge |
| Frame.FramePositions | thegameaboutus.py:143-159 | after a frame each enemy is at its moved position or at its respawn position |
| Frame.FrameBullets | thegameaboutus.py:169-173 | after a frame every bullet is below the top edge and is an old bullet that climbed by exactly 6; there are no more bullets than before |
| Frame.FrameParticles | thegameaboutus.py:176-182 | after a frame no expired particle remains, and at most one group per point scored has been added |
| Session.GameState.constructor | thegameaboutus.py:46-69 | program start yields exactly the state reset_game establishes |
| Session.GameState.Reset | thegameaboutus.py:51-67 | reset_game replaces the whole state by `Initial` of the draws |
| Session.GameState.NewEnemyLists | thegameaboutus.py:61-64 | reset allocates four distinct enemy lists holding the drawn positions, speed 0.8 and descent step 50 |
| Session.GameState.FireBullet | thegameaboutus.py:96-103 | fire_bullet changes the state exactly as `AfterFire` |
| Session.GameState.SpawnHeartExplosion | thegameaboutus.py:106-112 | the eight-iteration loop appends exactly one `HeartGroup` to the explosions |
| Session.GameState.HandleEvent | thegameaboutus.py:124-136 | one event changes the state exactly as `AfterEvent`, and asks to stop exactly on quit |
| Session.GameState.MoveEnemyAt | thegameaboutus.py:144-149 | moving enemy i in place matches `MoveStep` |
| Session.GameState.StrikeEnemyAt | thegameaboutus.py:152-160 | the inner bullet loop in place matches `StrikeStep` |
| Session.GameState.CheckOverrun | thegameaboutus.py:163-164 | the overrun check in place matches `OverrunStep` |
| Session.GameState.UpdateEnemies | thegameaboutus.py:143-164 | the enemy loop in place matches `EnemyPhase` |
| Session.GameState.UpdateBullets | thegameaboutus.py:169-173 | the bullet loop over a copy, with in-place climb and removal by value, leaves exactly `BulletPhase` of the old list and changes nothing else |
| Session.GameState.UpdateExplosions | thegameaboutus.py:176-182 | the nested in-place particle loop followed by the filter leaves exactly `ParticlePhase` of the old groups and changes nothing else |
| Session.GameState.ClampPlayerPosition | thegameaboutus.py:139-140 | the clamp in place matches `ClampPlayer` |
| Session.GameState.CheckWinAt | thegameaboutus.py:187-188 | the win check in place matches `CheckWin` |
| Session.GameState.Step | thegameaboutus.py:138-188 | one frame changes the state exactly as `AfterFrame`, so every Frame lemma above holds of it |
| Session.GameState.RestartControl | thegameaboutus.py:83-94 | the restart button resets exactly when `RestartClicked` holds, and otherwise leaves the state unchanged |

## Left out

- Rendering is not modelled: the window, images, fonts, `screen.fill`, `blit`, `draw_text`, the button's rectangle and colour, and `pygame.display.update` (lines 10-36, 71-90, 166, 171, 181, 184-185, 191-197, 200). None of it affects the state.
- Audio is not modelled (lines 28-30, 104, 154). It has no effect on the state.
- Event polling is not modelled. The caller hands events to `HandleEvent` one at a time, in the order the main loop of line 121 would see them. The main loop itself is not modelled: the `running` flag and the order "events, then the frame, then the end screens". `HandleEvent` returns the quit request instead of setting the flag.
- Mouse motion reads `pygame.mouse.get_pos()` when the event is handled. The model takes that position as the event's payload.
- The clock is a parameter. `pygame.time.get_ticks()` becomes the argument `now`, and `clock.tick` and the 200 ms `pygame.time.delay` before a restart are not modelled.
- The random number generator is a parameter. The `randint` and `uniform` results are arguments, limited to their ranges. The interleaving of draws from one shared generator is not modelled: each respawn and burst gets its own `Roll`.
- Floating-point rounding is not modelled. Enemy and particle coordinates are exact `real`s, and no property depends on rounding. Python's change of an enemy's x from `int` (after `randint`) to `float` (after a move) is not distinguished.
- Python's lists of two or five numbers are modelled as `Bullet` and `Particle` values. Their in-place updates become replacing the element at the same position. In the game's loops, the element updated is always the one at that position, so the model needs no aliasing between the copy `bullets[:]` and the list.
- `Valid()` and `WellFormed` are invariants the model proves. The game never checks them.
- `draw_button` is modelled only for the restart buttons at lines 192 and 198, whose action is `reset_game`. The generic `action=None` case is never used by the game.
- Collision.Hovered: its own ensures states only a consequence of the strict bounds. For the two restart buttons, `Frame.RestartClicked` states the exact pointer ranges in both directions.
- Frame.AfterFrame: its own ensures states only well-formedness. The content of a frame is stated by `Frame.FrameShape` and the other Frame lemmas, and `Session.GameState.Step` is proved against it.
- Enemies.MoveStep, Enemies.StrikeStep, Enemies.OverrunStep, Enemies.UpdateEnemy and Enemies.EnemiesUpTo: their own ensures state only well-formedness. Their effect on each field is stated by the Enemies lemmas listed in the table.
- Bullets.RemoveFirst: its own ensures states only the length. Which bullet is removed is stated by `Bullets.RemoveFirstCount` and `Bullets.RemoveFirstAt`.
