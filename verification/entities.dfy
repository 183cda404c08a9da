/** Constants and entity records of "Memory Invaders", and the whole session
    state as one value (`World`), which the specification functions of the
    other modules map to its next value. */
module Entities {

  // Screen and sprite geometry
  const WIDTH: int := 1000
  const HEIGHT: int := 700
  const PLAYER_WIDTH: int := 64
  const PLAYER_HEIGHT: int := 64
  const ENEMY_SIZE: int := 64
  /** Largest x an enemy may spawn at, and the right bounce edge. */
  const ENEMY_MAX_X: int := WIDTH - ENEMY_SIZE
  /** An enemy whose y reaches this line ends the game. */
  const BOTTOM_LINE: int := HEIGHT - 60

  // Movement
  const BULLET_SPEED: int := 6
  const ENEMY_SPEED: real := 0.8
  const ENEMY_Y_BASE_CHANGE: int := 50
  const NUM_ENEMIES: nat := 20
  /** The bullet leaves the player sprite this far right of its left edge. */
  const MUZZLE_OFFSET: int := 22

  // Fire control, in milliseconds of the tick clock
  const SHOT_COOLDOWN: int := 1000

  // Collision thresholds (per axis)
  const HIT_THRESHOLD: real := 50.0
  const PLAYER_THRESHOLD: real := 55.0

  // Scoring
  const WIN_SCORE: int := 15

  // Explosions
  const SPARK_COUNT: nat := 8
  const SPARK_LIFESPAN: int := 20
  const SPARK_MAX_SPEED: real := 3.0
  /** Explosions start this far right of and below the enemy's corner. */
  const SPARK_OFFSET: real := 16.0

  // Spawn rectangle of enemies (inclusive bounds of the random draws)
  const SPAWN_MIN_Y: int := 50
  const SPAWN_MAX_Y: int := 150

  datatype Option<T> = None | Some(value: T)

  /** A bullet: the list [x, y]. */
  datatype Bullet = Bullet(x: int, y: int)

  /** An explosion particle: the list [x, y, dx, dy, lifespan]. */
  datatype Particle = Particle(x: real, y: real, dx: real, dy: real, life: int)

  /** The two random velocity components of one particle. */
  datatype Spark = Spark(dx: real, dy: real)

  /** The random draws an enemy may consume in one frame if a bullet hits it:
      its respawn position and the velocities of its explosion. */
  datatype Roll = Roll(respawnX: int, respawnY: int, sparks: seq<Spark>)

  /** Every mutable global of the game, as one value. The four enemy lists
      are parallel: enemy i is (enemyX[i], enemyY[i]) moving by enemyXChange[i]
      and dropping by enemyYChange[i] at each bounce. */
  datatype World = World(
    playerX: int,
    playerY: int,
    bullets: seq<Bullet>,
    enemyX: seq<real>,
    enemyY: seq<real>,
    enemyXChange: seq<real>,
    enemyYChange: seq<int>,
    explosions: seq<seq<Particle>>,
    score: nat,
    lastShotTime: int,
    gameOver: bool,
    gameWon: bool)

  /** The session is active (updates and input are applied) while neither
      terminal flag is set. */
  predicate Active(w: World) {
    !w.gameOver && !w.gameWon
  }

  /** The enemy lists have their fixed length, every horizontal speed is the
      enemy speed in one direction or the other, and every descent step is
      the base descent step. */
  predicate WellFormed(w: World) {
    |w.enemyX| == NUM_ENEMIES && |w.enemyY| == NUM_ENEMIES &&
    |w.enemyXChange| == NUM_ENEMIES && |w.enemyYChange| == NUM_ENEMIES &&
    (forall j :: 0 <= j < NUM_ENEMIES ==>
       w.enemyXChange[j] == ENEMY_SPEED || w.enemyXChange[j] == -ENEMY_SPEED) &&
    (forall j :: 0 <= j < NUM_ENEMIES ==> w.enemyYChange[j] == ENEMY_Y_BASE_CHANGE)
  }

  /** A point inside the rectangle enemies are (re)spawned in. */
  predicate InSpawnBounds(x: real, y: real) {
    0.0 <= x <= ENEMY_MAX_X as real && SPAWN_MIN_Y as real <= y <= SPAWN_MAX_Y as real
  }

  /** Eight pairs of uniform(-3, 3) draws. */
  predicate ValidSparks(sparks: seq<Spark>) {
    |sparks| == SPARK_COUNT &&
    forall k :: 0 <= k < |sparks| ==>
      -SPARK_MAX_SPEED <= sparks[k].dx <= SPARK_MAX_SPEED &&
      -SPARK_MAX_SPEED <= sparks[k].dy <= SPARK_MAX_SPEED
  }

  /** randint(0, WIDTH - 64), randint(50, 150) and eight spark velocities. */
  predicate ValidRoll(roll: Roll) {
    0 <= roll.respawnX <= ENEMY_MAX_X &&
    SPAWN_MIN_Y <= roll.respawnY <= SPAWN_MAX_Y &&
    ValidSparks(roll.sparks)
  }

  /** One roll per enemy. */
  predicate ValidRolls(rolls: seq<Roll>) {
    |rolls| == NUM_ENEMIES && forall j :: 0 <= j < |rolls| ==> ValidRoll(rolls[j])
  }

  /** The enemy start positions drawn by reset_game. */
  predicate ValidSpawn(xs: seq<int>, ys: seq<int>) {
    |xs| == NUM_ENEMIES && |ys| == NUM_ENEMIES &&
    (forall j :: 0 <= j < |xs| ==> 0 <= xs[j] <= ENEMY_MAX_X) &&
    (forall j :: 0 <= j < |ys| ==> SPAWN_MIN_Y <= ys[j] <= SPAWN_MAX_Y)
  }
}
