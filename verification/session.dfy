/** The game session as the program keeps it: module-level variables updated
    in place. The four enemy lists are fixed-size buffers indexed by enemy,
    which reset_game replaces by new ones; the bullet and explosion lists
    grow and shrink. Every method is proved against the specification
    function of the same operation on `World`. */
module Session {
  import opened Entities
  import opened Collision
  import opened Cooldown
  import opened Bullets
  import opened Explosions
  import opened Enemies
  import opened Frame

  class GameState {
    var playerX: int
    var playerY: int
    var bullets: seq<Bullet>
    var enemyX: array<real>
    var enemyY: array<real>
    var enemyXChange: array<real>
    var enemyYChange: array<int>
    var explosions: seq<seq<Particle>>
    var score: nat
    var lastShotTime: int
    var gameOver: bool
    var gameWon: bool

    /** The state as a value. */
    ghost function Snapshot(): World
      reads this, enemyX, enemyY, enemyXChange, enemyYChange
    {
      World(playerX, playerY, bullets, enemyX[..], enemyY[..], enemyXChange[..], enemyYChange[..],
        explosions, score, lastShotTime, gameOver, gameWon)
    }

    /** The three real buffers are distinct objects and the state is well formed. */
    ghost predicate Valid()
      reads this, enemyX, enemyY, enemyXChange, enemyYChange
    {
      enemyX != enemyY && enemyX != enemyXChange && enemyY != enemyXChange &&
      WellFormed(Snapshot())
    }

    /** Program start: the globals, then the first reset_game. */
    constructor (xs: seq<int>, ys: seq<int>)
      requires ValidSpawn(xs, ys)
      ensures Valid() && Snapshot() == Initial(xs, ys)
    {
      bullets := [];
      lastShotTime := 0;
      enemyX, enemyY, enemyXChange := new real[0], new real[0], new real[0];
      enemyYChange := new int[0];
      new;
      Reset(xs, ys);
    }

    /** reset_game, given the twenty x and the twenty y draws. */
    method Reset(xs: seq<int>, ys: seq<int>)
      requires ValidSpawn(xs, ys)
      modifies this
      ensures Valid() && Snapshot() == Initial(xs, ys)
    {
      playerX, playerY := WIDTH / 2, HEIGHT - 80;
      bullets, score, explosions := [], 0, [];
      lastShotTime, gameOver, gameWon := 0, false, false;
      NewEnemyLists(xs, ys);
    }

    /** The four new enemy lists of reset_game. */
    method NewEnemyLists(xs: seq<int>, ys: seq<int>)
      requires ValidSpawn(xs, ys)
      modifies this`enemyX, this`enemyY, this`enemyXChange, this`enemyYChange
      ensures enemyX != enemyY && enemyX != enemyXChange && enemyY != enemyXChange
      ensures var init := Initial(xs, ys);
        enemyX[..] == init.enemyX && enemyY[..] == init.enemyY &&
        enemyXChange[..] == init.enemyXChange && enemyYChange[..] == init.enemyYChange
    {
      var ex := new real[NUM_ENEMIES](j requires 0 <= j < NUM_ENEMIES => xs[j] as real);
      var ey := new real[NUM_ENEMIES](j requires 0 <= j < NUM_ENEMIES => ys[j] as real);
      var exc := new real[NUM_ENEMIES](_ => ENEMY_SPEED);
      var eyc := new int[NUM_ENEMIES](_ => ENEMY_Y_BASE_CHANGE);
      enemyX, enemyY, enemyXChange, enemyYChange := ex, ey, exc, eyc;
    }

    /** fire_bullet at tick `now`. */
    method FireBullet(now: int)
      modifies this`bullets, this`lastShotTime
      ensures Snapshot() == AfterFire(old(Snapshot()), now)
    {
      if now - lastShotTime >= SHOT_COOLDOWN {
        bullets := bullets + [Bullet(playerX + MUZZLE_OFFSET, playerY)];
        lastShotTime := now;
      }
    }

    /** spawn_heart_explosion at (x, y), given the eight velocity draws. */
    method SpawnHeartExplosion(x: real, y: real, sparks: seq<Spark>)
      requires ValidSparks(sparks)
      modifies this`explosions
      ensures explosions == old(explosions) + [HeartGroup(x, y, sparks)]
    {
      var group: seq<Particle> := [];
      var k := 0;
      while k < SPARK_COUNT
        invariant 0 <= k <= SPARK_COUNT
        invariant group == HeartGroup(x, y, sparks)[..k]
      {
        group := group + [Particle(x, y, sparks[k].dx, sparks[k].dy, SPARK_LIFESPAN)];
        k := k + 1;
      }
      assert group == HeartGroup(x, y, sparks);
      explosions := explosions + [group];
    }

    /** One input event at tick `now`; the result says whether it asks the
        main loop to stop. */
    method HandleEvent(e: Event, now: int) returns (quit: bool)
      modifies this`playerX, this`playerY, this`bullets, this`lastShotTime
      ensures quit <==> e.Quit?
      ensures Snapshot() == AfterEvent(old(Snapshot()), e, now)
    {
      quit := e.Quit?;
      if !gameOver && !gameWon {
        match e {
          case MouseMotion(mx, my) =>
            playerX := mx - PLAYER_WIDTH / 2;
            playerY := my - PLAYER_HEIGHT / 2;
          case KeyDown(isSpace) =>
            if isSpace {
              FireBullet(now);
            }
          case MouseButtonDown =>
            FireBullet(now);
          case _ =>
        }
      }
    }

    /** thegameaboutus.py:144-149 for enemy i. */
    method MoveEnemyAt(i: nat)
      requires Valid() && i < NUM_ENEMIES
      modifies enemyX, enemyY, enemyXChange
      ensures Valid() && Snapshot() == MoveStep(old(Snapshot()), i)
    {
      enemyX[i] := enemyX[i] + enemyXChange[i];
      enemyY[i] := enemyY[i] + Drift(score);
      if enemyX[i] <= 0.0 || enemyX[i] >= ENEMY_MAX_X as real {
        enemyXChange[i] := enemyXChange[i] * -1.0;
        enemyY[i] := enemyY[i] + enemyYChange[i] as real;
      }
    }

    /** thegameaboutus.py:152-160 for enemy i, given the draws a hit consumes. */
    method StrikeEnemyAt(i: nat, roll: Roll)
      requires Valid() && i < NUM_ENEMIES && ValidRoll(roll)
      modifies this`bullets, this`explosions, this`score, enemyX, enemyY
      ensures Valid() && Snapshot() == StrikeStep(old(Snapshot()), i, roll)
    {
      var hit := FindHit(enemyX[i], enemyY[i], bullets);
      if hit.Some? {
        SpawnHeartExplosion(enemyX[i] + SPARK_OFFSET, enemyY[i] + SPARK_OFFSET, roll.sparks);
        bullets := RemoveFirst(bullets, bullets[hit.value]);
        score := score + 1;
        enemyX[i] := roll.respawnX as real;
        enemyY[i] := roll.respawnY as real;
      }
    }

    /** thegameaboutus.py:163-164 for enemy i. */
    method CheckOverrun(i: nat)
      requires Valid() && i < NUM_ENEMIES
      modifies this`gameOver
      ensures Valid() && Snapshot() == OverrunStep(old(Snapshot()), i)
    {
      if IsCollision(enemyX[i], enemyY[i], playerX as real, playerY as real, PLAYER_THRESHOLD) ||
         enemyY[i] >= BOTTOM_LINE as real {
        gameOver := true;
      }
    }

    /** The enemy loop of a frame, given each enemy's draws. */
    method UpdateEnemies(rolls: seq<Roll>)
      requires Valid() && ValidRolls(rolls)
      modifies this`bullets, this`explosions, this`score, this`gameOver, enemyX, enemyY, enemyXChange
      ensures Valid() && Snapshot() == EnemyPhase(old(Snapshot()), rolls)
    {
      ghost var w0 := Snapshot();
      var i := 0;
      while i < NUM_ENEMIES
        invariant 0 <= i <= NUM_ENEMIES
        invariant Valid() && Snapshot() == EnemiesUpTo(w0, i, rolls)
      {
        MoveEnemyAt(i);
        StrikeEnemyAt(i, rolls[i]);
        CheckOverrun(i);
        i := i + 1;
      }
    }

    /** The bullet loop of a frame: each bullet of a copy of the list climbs
        in place and is removed by value once it reaches the top edge. */
    method UpdateBullets()
      requires Valid()
      modifies this`bullets
      ensures bullets == BulletPhase(old(bullets))
      ensures Valid() && Snapshot() == old(Snapshot()).(bullets := bullets)
    {
      var snap := bullets;
      var i, n := 0, 0;
      while i < |snap|
        invariant 0 <= i <= |snap|
        invariant n == |BulletPhase(snap[..i])|
        invariant bullets == BulletPhase(snap[..i]) + snap[i..]
      {
        BulletLoopStep(snap, i);
        var moved := Climbed(bullets[n]);
        bullets := bullets[n := moved];
        if moved.y <= 0 {
          bullets := RemoveFirst(bullets, moved);
        } else {
          n := n + 1;
        }
        i := i + 1;
      }
      assert snap[..i] == snap;
    }

    /** The particle loop of a frame: every particle moves and ages in place,
        then empty groups and expired particles are dropped. */
    method UpdateExplosions()
      requires Valid()
      modifies this`explosions
      ensures explosions == ParticlePhase(old(explosions))
      ensures Valid() && Snapshot() == old(Snapshot()).(explosions := explosions)
    {
      ghost var es := explosions;
      var h := 0;
      while h < |explosions|
        invariant 0 <= h <= |explosions| == |es|
        invariant explosions == AdvanceAll(es[..h]) + es[h..]
      {
        var g := explosions[h];
        var k := 0;
        while k < |g|
          invariant 0 <= k <= |g| == |es[h]|
          invariant g == AdvanceGroup(es[h][..k]) + es[h][k..]
          invariant explosions == AdvanceAll(es[..h]) + es[h..]
        {
          AdvanceGroupStep(es[h], k);
          g := g[k := Advanced(g[k])];
          k := k + 1;
        }
        assert es[h][..k] == es[h] && es[h][k..] == [];
        assert g == AdvanceGroup(es[h]);
        AdvanceAllStep(es, h);
        explosions := explosions[h := g];
        h := h + 1;
      }
      assert es[..h] == es && es[h..] == [];
      assert explosions == AdvanceAll(es);
      explosions := Cull(explosions);
    }

    /** thegameaboutus.py:139-140: the player is clamped to the screen. */
    method ClampPlayerPosition()
      requires Valid()
      modifies this`playerX, this`playerY
      ensures Valid() && Snapshot() == ClampPlayer(old(Snapshot()))
    {
      playerX := Clamp(playerX, WIDTH - PLAYER_WIDTH);
      playerY := Clamp(playerY, HEIGHT - PLAYER_HEIGHT);
    }

    /** thegameaboutus.py:187-188: the session is won at the winning score. */
    method CheckWinAt()
      requires Valid()
      modifies this`gameWon
      ensures Valid() && Snapshot() == CheckWin(old(Snapshot()))
    {
      if score >= WIN_SCORE {
        gameWon := true;
      }
    }

    /** One frame of the main loop (thegameaboutus.py:138-188), given each enemy's draws. */
    method Step(rolls: seq<Roll>)
      requires Valid() && ValidRolls(rolls)
      modifies this`playerX, this`playerY, this`bullets, this`explosions, this`score,
        this`gameOver, this`gameWon, enemyX, enemyY, enemyXChange
      ensures Valid() && Snapshot() == AfterFrame(old(Snapshot()), rolls)
    {
      if !gameOver && !gameWon {
        ClampPlayerPosition();
        UpdateEnemies(rolls);
        UpdateBullets();
        UpdateExplosions();
        CheckWinAt();
      }
    }

    /** The restart button of the game-over and victory screens: pressing it
        while the pointer is inside runs reset_game with the given draws. */
    method RestartControl(mx: int, my: int, pressed: bool, xs: seq<int>, ys: seq<int>) returns (restarted: bool)
      requires Valid() && ValidSpawn(xs, ys)
      modifies this
      ensures restarted == RestartClicked(old(Snapshot()), mx, my, pressed)
      ensures restarted ==> Valid() && Snapshot() == Initial(xs, ys)
      ensures !restarted ==> Valid() && Snapshot() == old(Snapshot())
    {
      restarted := false;
      if !gameOver && !gameWon {
        return;
      }
      var top := if gameOver then HEIGHT / 2 + 20 else HEIGHT / 2 + 80;
      if Hovered(WIDTH / 2 - 100, top, 200, 60, mx, my) && pressed {
        Reset(xs, ys);
        restarted := true;
      }
    }
  }
}
