/** The enemy phase of a frame: each of the twenty enemies in turn moves,
    bounces at the side edges, may be struck by one bullet (and respawn), and
    may end the game by reaching the player or the bottom line. */
module Enemies {
  import opened Entities
  import opened Collision
  import opened Bullets
  import opened Explosions

  /** The continuous descent per frame, which grows with the score. */
  function Drift(score: nat): (d: real)
    ensures d >= 0.6
  {
    0.6 + score as real * 0.03
  }

  /** The descent grows with the score, by 0.03 per point. */
  lemma DriftGrows(s: nat, t: nat)
    requires s <= t
    ensures Drift(s) <= Drift(t)
    ensures Drift(s + 1) == Drift(s) + 0.03
    ensures Drift(0) == 0.6
  {
  }

  /** A moved enemy at or past a side edge bounces. */
  predicate AtEdge(x: real) {
    x <= 0.0 || x >= ENEMY_MAX_X as real
  }

  /** The horizontal speed after a move from x: reversed at a side edge. */
  function Rebound(x: real, xChange: real): (r: real)
    ensures r == xChange || r == -xChange
    ensures AtEdge(x + xChange) ==> r == -xChange
    ensures r != xChange ==> AtEdge(x + xChange)
  {
    if AtEdge(x + xChange) then -xChange else xChange
  }

  datatype Motion = Motion(x: real, y: real, xChange: real)

  /** thegameaboutus.py:144-149: move, drift down, and bounce-and-drop at an edge. */
  function MoveEnemy(x: real, y: real, xChange: real, yChange: int, score: nat): Motion {
    var x' := x + xChange;
    var y' := y + Drift(score);
    if AtEdge(x') then Motion(x', y' + yChange as real, -xChange) else Motion(x', y', xChange)
  }

  /** A bullet strikes the enemy at (ex, ey). */
  predicate Hits(ex: real, ey: real, b: Bullet) {
    IsCollision(ex, ey, b.x as real, b.y as real, HIT_THRESHOLD)
  }

  /** The bullet that `for bullet in bullets[:]: ... break` acts on: the
      first one, in list order, that strikes the enemy. */
  function FirstHit(ex: real, ey: real, bs: seq<Bullet>): (k: Option<nat>)
    ensures k.Some? ==>
      k.value < |bs| && Hits(ex, ey, bs[k.value]) &&
      forall j :: 0 <= j < k.value ==> !Hits(ex, ey, bs[j])
    ensures k.None? ==> forall j :: 0 <= j < |bs| ==> !Hits(ex, ey, bs[j])
    decreases |bs|
  {
    if bs == [] then None
    else if Hits(ex, ey, bs[0]) then Some(0)
    else match FirstHit(ex, ey, bs[1..])
      case None => None
      case Some(k) => Some(k + 1)
  }

  /** The linear search of the inner bullet loop. */
  method FindHit(ex: real, ey: real, bs: seq<Bullet>) returns (hit: Option<nat>)
    ensures hit == FirstHit(ex, ey, bs)
  {
    var k := 0;
    while k < |bs| && !Hits(ex, ey, bs[k])
      invariant 0 <= k <= |bs|
      invariant forall j :: 0 <= j < k ==> !Hits(ex, ey, bs[j])
    {
      k := k + 1;
    }
    hit := if k < |bs| then Some(k) else None;
  }

  /** The enemy reaches the player (wider threshold) or the bottom line. */
  predicate Overruns(ex: real, ey: real, px: int, py: int) {
    IsCollision(ex, ey, px as real, py as real, PLAYER_THRESHOLD) || ey >= BOTTOM_LINE as real
  }

  /** One move: the enemy shifts by its speed, which it keeps unless the new
      x is at or past a side edge, where it reverses; it drops by the drift,
      plus its descent step when it bounced, so it always moves down. */
  lemma MoveEnemyMotion(x: real, y: real, xChange: real, yChange: int, score: nat)
    ensures var m := MoveEnemy(x, y, xChange, yChange, score);
      m.x == x + xChange && m.xChange == Rebound(x, xChange) &&
      (AtEdge(m.x) ==> m.y == y + Drift(score) + yChange as real) &&
      (!AtEdge(m.x) ==> m.y == y + Drift(score)) &&
      (yChange >= 0 ==> m.y >= y + 0.6)
  {
  }

  /** A bullet strikes an enemy when it is within 50 of it on each axis; an
      enemy overruns the player when it is within 55 of the player on each
      axis or has reached y = 640. */
  lemma StrikeAndOverrunZones(ex: real, ey: real, b: Bullet, px: int, py: int)
    ensures Hits(ex, ey, b) <==>
      ex - 50.0 < b.x as real < ex + 50.0 && ey - 50.0 < b.y as real < ey + 50.0
    ensures Overruns(ex, ey, px, py) <==>
      (ex - 55.0 < px as real < ex + 55.0 && ey - 55.0 < py as real < ey + 55.0) ||
      ey >= 640.0
  {
  }

  /** thegameaboutus.py:144-149 applied to enemy i of the state. */
  function MoveStep(w: World, i: nat): (r: World)
    requires WellFormed(w) && i < NUM_ENEMIES
    ensures WellFormed(r)
  {
    var m := MoveEnemy(w.enemyX[i], w.enemyY[i], w.enemyXChange[i], w.enemyYChange[i], w.score);
    w.(enemyX := w.enemyX[i := m.x], enemyY := w.enemyY[i := m.y],
       enemyXChange := w.enemyXChange[i := m.xChange])
  }

  /** thegameaboutus.py:152-160 for enemy i: the first striking bullet, if any, is
      removed, an explosion is spawned, the score rises and the enemy
      respawns. */
  function StrikeStep(w: World, i: nat, roll: Roll): (r: World)
    requires WellFormed(w) && i < NUM_ENEMIES && ValidRoll(roll)
    ensures WellFormed(r)
  {
    var ex, ey := w.enemyX[i], w.enemyY[i];
    match FirstHit(ex, ey, w.bullets)
    case None => w
    case Some(k) =>
      w.(explosions := w.explosions + [HeartGroup(ex + SPARK_OFFSET, ey + SPARK_OFFSET, roll.sparks)],
         bullets := RemoveFirst(w.bullets, w.bullets[k]),
         score := w.score + 1,
         enemyX := w.enemyX[i := roll.respawnX as real],
         enemyY := w.enemyY[i := roll.respawnY as real])
  }

  /** thegameaboutus.py:163-164 for enemy i. */
  function OverrunStep(w: World, i: nat): (r: World)
    requires WellFormed(w) && i < NUM_ENEMIES
    ensures WellFormed(r)
  {
    w.(gameOver := w.gameOver || Overruns(w.enemyX[i], w.enemyY[i], w.playerX, w.playerY))
  }

  /** One iteration of the enemy loop, for enemy i. */
  function UpdateEnemy(w: World, i: nat, roll: Roll): (r: World)
    requires WellFormed(w) && i < NUM_ENEMIES && ValidRoll(roll)
    ensures WellFormed(r)
  {
    OverrunStep(StrikeStep(MoveStep(w, i), i, roll), i)
  }

  /** The enemy loop after its first n iterations. */
  function EnemiesUpTo(w: World, n: nat, rolls: seq<Roll>): (r: World)
    requires WellFormed(w) && n <= NUM_ENEMIES && ValidRolls(rolls)
    ensures WellFormed(r)
    decreases n
  {
    if n == 0 then w else UpdateEnemy(EnemiesUpTo(w, n - 1, rolls), n - 1, rolls[n - 1])
  }

  /** The whole enemy phase: at most one paid-for hit per enemy, and only
      fresh groups appended. */
  function EnemyPhase(w: World, rolls: seq<Roll>): (r: World)
    requires WellFormed(w) && ValidRolls(rolls)
    ensures WellFormed(r) && Accounted(w, r, NUM_ENEMIES)
    ensures AppendsFreshGroups(w.explosions, r.explosions)
  {
    EnemiesUpToAccounting(w, |rolls|, rolls);
    EnemiesUpToGroups(w, |rolls|, rolls);
    EnemiesUpTo(w, |rolls|, rolls)
  }

  /** A group as spawn_heart_explosion creates it. */
  predicate FreshGroup(g: seq<Particle>) {
    |g| == SPARK_COUNT && forall p :: p in g ==> p.life == SPARK_LIFESPAN
  }

  /** One enemy's iteration touches only that enemy (whose velocity becomes
      its moved velocity, hit or not) and the bullets, explosions, score and
      game-over flag; game over is raised exactly when the enemy's final
      position overruns the player. */
  lemma UpdateEnemyFrame(w: World, i: nat, roll: Roll)
    requires WellFormed(w) && i < NUM_ENEMIES && ValidRoll(roll)
    ensures var r := UpdateEnemy(w, i, roll);
      r.playerX == w.playerX && r.playerY == w.playerY && r.lastShotTime == w.lastShotTime &&
      r.gameWon == w.gameWon && r.enemyYChange == w.enemyYChange &&
      (forall j :: 0 <= j < NUM_ENEMIES && j != i ==>
         r.enemyX[j] == w.enemyX[j] && r.enemyY[j] == w.enemyY[j] && r.enemyXChange[j] == w.enemyXChange[j]) &&
      r.enemyXChange[i] == MoveEnemy(w.enemyX[i], w.enemyY[i], w.enemyXChange[i], w.enemyYChange[i], w.score).xChange &&
      (r.gameOver <==> w.gameOver || Overruns(r.enemyX[i], r.enemyY[i], w.playerX, w.playerY))
  {
    var v := MoveStep(w, i);
    var s := StrikeStep(v, i, roll);
    assert s.enemyXChange == v.enemyXChange && s.gameOver == w.gameOver;
  }

  /** No bullet strikes the moved enemy: bullets, explosions and score are
      unchanged and the enemy stays where it moved to. */
  lemma UpdateEnemyMiss(w: World, i: nat, roll: Roll)
    requires WellFormed(w) && i < NUM_ENEMIES && ValidRoll(roll)
    requires var m := MoveEnemy(w.enemyX[i], w.enemyY[i], w.enemyXChange[i], w.enemyYChange[i], w.score);
      forall j :: 0 <= j < |w.bullets| ==> !Hits(m.x, m.y, w.bullets[j])
    ensures var m := MoveEnemy(w.enemyX[i], w.enemyY[i], w.enemyXChange[i], w.enemyYChange[i], w.score);
      var r := UpdateEnemy(w, i, roll);
      r.score == w.score && r.bullets == w.bullets && r.explosions == w.explosions &&
      r.enemyX[i] == m.x && r.enemyY[i] == m.y
  {
    var v := MoveStep(w, i);
    assert v.bullets == w.bullets;
  }

  /** A bullet strikes the moved enemy: exactly the first striking bullet in
      list order is removed, the score rises by one, one group appears at the
      enemy's moved position offset by 16, and the enemy respawns at the
      rolled position, inside the spawn rectangle. */
  lemma UpdateEnemyHit(w: World, i: nat, roll: Roll, k: nat)
    requires WellFormed(w) && i < NUM_ENEMIES && ValidRoll(roll)
    requires var m := MoveEnemy(w.enemyX[i], w.enemyY[i], w.enemyXChange[i], w.enemyYChange[i], w.score);
      k < |w.bullets| && Hits(m.x, m.y, w.bullets[k]) &&
      forall j :: 0 <= j < k ==> !Hits(m.x, m.y, w.bullets[j])
    ensures var m := MoveEnemy(w.enemyX[i], w.enemyY[i], w.enemyXChange[i], w.enemyYChange[i], w.score);
      var r := UpdateEnemy(w, i, roll);
      r.score == w.score + 1 &&
      r.bullets == w.bullets[..k] + w.bullets[k + 1..] &&
      r.explosions == w.explosions + [HeartGroup(m.x + SPARK_OFFSET, m.y + SPARK_OFFSET, roll.sparks)] &&
      r.enemyX[i] == roll.respawnX as real && r.enemyY[i] == roll.respawnY as real &&
      InSpawnBounds(r.enemyX[i], r.enemyY[i])
  {
    var m := MoveEnemy(w.enemyX[i], w.enemyY[i], w.enemyXChange[i], w.enemyYChange[i], w.score);
    var v := MoveStep(w, i);
    assert v.enemyX[i] == m.x && v.enemyY[i] == m.y && v.bullets == w.bullets;
    assert v.score == w.score && v.explosions == w.explosions;
    FirstHitUnique(m.x, m.y, w.bullets, k);
    StrikeHit(v, i, roll, k);
  }

  lemma StrikeHit(v: World, i: nat, roll: Roll, k: nat)
    requires WellFormed(v) && i < NUM_ENEMIES && ValidRoll(roll)
    requires FirstHit(v.enemyX[i], v.enemyY[i], v.bullets) == Some(k)
    ensures var s := StrikeStep(v, i, roll);
      s.score == v.score + 1 &&
      s.bullets == v.bullets[..k] + v.bullets[k + 1..] &&
      s.explosions == v.explosions + [HeartGroup(v.enemyX[i] + SPARK_OFFSET, v.enemyY[i] + SPARK_OFFSET, roll.sparks)] &&
      s.enemyX[i] == roll.respawnX as real && s.enemyY[i] == roll.respawnY as real
  {
    StrikeHitBullets(v, i, roll, k);
  }

  lemma StrikeHitBullets(v: World, i: nat, roll: Roll, k: nat)
    requires WellFormed(v) && i < NUM_ENEMIES && ValidRoll(roll)
    requires FirstHit(v.enemyX[i], v.enemyY[i], v.bullets) == Some(k)
    ensures StrikeStep(v, i, roll).bullets == v.bullets[..k] + v.bullets[k + 1..]
  {
    forall j | 0 <= j < k ensures v.bullets[j] != v.bullets[k] {
      assert !Hits(v.enemyX[i], v.enemyY[i], v.bullets[j]);
    }
    RemoveFirstAt(v.bullets, k, v.bullets[k]);
  }

  /** The first striking bullet is determined by its two properties. */
  lemma FirstHitUnique(ex: real, ey: real, bs: seq<Bullet>, k: nat)
    requires k < |bs| && Hits(ex, ey, bs[k])
    requires forall j :: 0 <= j < k ==> !Hits(ex, ey, bs[j])
    ensures FirstHit(ex, ey, bs) == Some(k)
  {
  }

  /** Either the enemy is missed and stays where it moved to, or it is hit:
      one bullet fewer (none added), one more point, one fresh group
      appended, and the enemy at its rolled respawn position. */
  lemma UpdateEnemyOutcome(w: World, i: nat, roll: Roll)
    requires WellFormed(w) && i < NUM_ENEMIES && ValidRoll(roll)
    ensures var m := MoveEnemy(w.enemyX[i], w.enemyY[i], w.enemyXChange[i], w.enemyYChange[i], w.score);
      var r := UpdateEnemy(w, i, roll);
      (r.score == w.score && r.bullets == w.bullets && r.explosions == w.explosions &&
       r.enemyX[i] == m.x && r.enemyY[i] == m.y) ||
      (r.score == w.score + 1 &&
       |r.bullets| + 1 == |w.bullets| && multiset(r.bullets) <= multiset(w.bullets) &&
       |r.explosions| == |w.explosions| + 1 && r.explosions[..|w.explosions|] == w.explosions &&
       FreshGroup(r.explosions[|w.explosions|]) &&
       r.enemyX[i] == roll.respawnX as real && r.enemyY[i] == roll.respawnY as real)
  {
    var m := MoveEnemy(w.enemyX[i], w.enemyY[i], w.enemyXChange[i], w.enemyYChange[i], w.score);
    match FirstHit(m.x, m.y, w.bullets)
    case None =>
      UpdateEnemyMiss(w, i, roll);
    case Some(k) =>
      UpdateEnemyHit(w, i, roll, k);
      var r := UpdateEnemy(w, i, roll);
      var bs := w.bullets;
      assert bs == bs[..k] + [bs[k]] + bs[k + 1..];
      assert multiset(bs) == multiset(bs[..k]) + multiset{bs[k]} + multiset(bs[k + 1..]);
      assert r.explosions[|w.explosions|] == HeartGroup(m.x + SPARK_OFFSET, m.y + SPARK_OFFSET, roll.sparks);
  }

  /** The enemy loop changes neither the player, nor the fire clock, nor the
      win flag, nor any descent step, and leaves the enemies it has not yet
      reached as they were. */
  lemma {:induction false} EnemiesUpToFrame(w: World, n: nat, rolls: seq<Roll>)
    requires WellFormed(w) && n <= NUM_ENEMIES && ValidRolls(rolls)
    ensures var r := EnemiesUpTo(w, n, rolls);
      r.playerX == w.playerX && r.playerY == w.playerY && r.lastShotTime == w.lastShotTime &&
      r.gameWon == w.gameWon && r.enemyYChange == w.enemyYChange &&
      forall j :: n <= j < NUM_ENEMIES ==>
        r.enemyX[j] == w.enemyX[j] && r.enemyY[j] == w.enemyY[j] && r.enemyXChange[j] == w.enemyXChange[j]
    decreases n
  {
    if n > 0 {
      EnemiesUpToFrame(w, n - 1, rolls);
      UpdateEnemyFrame(EnemiesUpTo(w, n - 1, rolls), n - 1, rolls[n - 1]);
    }
  }

  /** At most one hit per enemy, and every hit is paid for exactly: the points
      gained, the bullets removed and the explosion groups appended are the
      same number, at most the number of enemies processed; no bullet is
      created or altered. */
  lemma {:induction false} EnemiesUpToAccounting(w: World, n: nat, rolls: seq<Roll>)
    requires WellFormed(w) && n <= NUM_ENEMIES && ValidRolls(rolls)
    ensures Accounted(w, EnemiesUpTo(w, n, rolls), n)
    decreases n
  {
    if n > 0 {
      var v := EnemiesUpTo(w, n - 1, rolls);
      var r := UpdateEnemy(v, n - 1, rolls[n - 1]);
      EnemiesUpToAccounting(w, n - 1, rolls);
      UpdateEnemyAccounting(v, n - 1, rolls[n - 1]);
      AccountedTransitive(w, v, r, n - 1, 1);
      assert EnemiesUpTo(w, n, rolls) == r;
    }
  }

  /** r is w after at most `hits` hits, each paid for with one bullet and
      one explosion group, and no bullet created or altered. */
  predicate Accounted(w: World, r: World, hits: nat) {
    w.score <= r.score <= w.score + hits &&
    r.score - w.score == |w.bullets| - |r.bullets| == |r.explosions| - |w.explosions| &&
    multiset(r.bullets) <= multiset(w.bullets)
  }

  lemma AccountedTransitive(a: World, b: World, c: World, m: nat, n: nat)
    requires Accounted(a, b, m) && Accounted(b, c, n)
    ensures Accounted(a, c, m + n)
  {
    SubBagTransitive(multiset(c.bullets), multiset(b.bullets), multiset(a.bullets));
  }

  lemma SubBagTransitive(a: multiset<Bullet>, b: multiset<Bullet>, c: multiset<Bullet>)
    requires a <= b && b <= c
    ensures a <= c
  {
  }

  /** One iteration scores at most one point and pays for it with exactly
      one bullet and one explosion group. */
  lemma UpdateEnemyAccounting(v: World, i: nat, roll: Roll)
    requires WellFormed(v) && i < NUM_ENEMIES && ValidRoll(roll)
    ensures Accounted(v, UpdateEnemy(v, i, roll), 1)
  {
    UpdateEnemyOutcome(v, i, roll);
  }

  /** b is a followed by fresh groups only. */
  predicate AppendsFreshGroups(a: seq<seq<Particle>>, b: seq<seq<Particle>>) {
    |a| <= |b| && b[..|a|] == a &&
    forall h :: |a| <= h < |b| ==> FreshGroup(b[h])
  }

  lemma AppendsFreshGroupsTransitive(a: seq<seq<Particle>>, b: seq<seq<Particle>>, c: seq<seq<Particle>>)
    requires AppendsFreshGroups(a, b) && AppendsFreshGroups(b, c)
    ensures AppendsFreshGroups(a, c)
  {
    assert c[..|a|] == c[..|b|][..|a|];
    forall h | |a| <= h < |c|
      ensures FreshGroup(c[h])
    {
      if h < |b| {
        assert c[h] == c[..|b|][h];
      }
    }
  }

  /** The explosion groups present before the enemy loop are kept, in front
      and unchanged; every group it appends is a fresh group of eight
      particles with the full lifespan. */
  lemma {:induction false} EnemiesUpToGroups(w: World, n: nat, rolls: seq<Roll>)
    requires WellFormed(w) && n <= NUM_ENEMIES && ValidRolls(rolls)
    ensures AppendsFreshGroups(w.explosions, EnemiesUpTo(w, n, rolls).explosions)
    decreases n
  {
    if n == 0 {
      assert w.explosions[..|w.explosions|] == w.explosions;
    } else {
      var v := EnemiesUpTo(w, n - 1, rolls);
      EnemiesUpToGroups(w, n - 1, rolls);
      var r := UpdateEnemy(v, n - 1, rolls[n - 1]);
      UpdateEnemyGroups(v, n - 1, rolls[n - 1]);
      AppendsFreshGroupsTransitive(w.explosions, v.explosions, r.explosions);
    }
  }

  /** One iteration appends at most one group, and only a fresh one. */
  lemma UpdateEnemyGroups(v: World, i: nat, roll: Roll)
    requires WellFormed(v) && i < NUM_ENEMIES && ValidRoll(roll)
    ensures AppendsFreshGroups(v.explosions, UpdateEnemy(v, i, roll).explosions)
  {
    UpdateEnemyOutcome(v, i, roll);
    assert v.explosions[..|v.explosions|] == v.explosions;
  }

  /** Through the enemy loop every enemy reached keeps the magnitude of its
      horizontal speed and reverses it exactly when its moved x is at or
      past a side edge; a hit does not change it. */
  lemma {:induction false} EnemiesUpToVelocity(w: World, n: nat, rolls: seq<Roll>)
    requires WellFormed(w) && n <= NUM_ENEMIES && ValidRolls(rolls)
    ensures forall j :: 0 <= j < n ==>
      EnemiesUpTo(w, n, rolls).enemyXChange[j] == Rebound(w.enemyX[j], w.enemyXChange[j])
    decreases n
  {
    if n > 0 {
      EnemiesUpToVelocity(w, n - 1, rolls);
      EnemiesUpToFrame(w, n - 1, rolls);
      UpdateEnemyFrame(EnemiesUpTo(w, n - 1, rolls), n - 1, rolls[n - 1]);
    }
  }

  /** Where enemy j of w ends up in r: either at its moved x, having dropped
      by at least the drift of the starting score and at most the drift of
      the final score (plus the descent step if it bounced), or at its rolled
      respawn position. */
  predicate Placed(w: World, r: World, roll: Roll, j: nat)
    requires WellFormed(w) && WellFormed(r) && j < NUM_ENEMIES
  {
    var x1 := w.enemyX[j] + w.enemyXChange[j];
    var drop := if AtEdge(x1) then w.enemyYChange[j] as real else 0.0;
    (r.enemyX[j] == x1 &&
     w.enemyY[j] + Drift(w.score) + drop <= r.enemyY[j] <= w.enemyY[j] + Drift(r.score) + drop) ||
    (r.enemyX[j] == roll.respawnX as real && r.enemyY[j] == roll.respawnY as real)
  }

  /** A placed enemy that later iterations leave alone stays placed. */
  lemma PlacedStable(w: World, v: World, r: World, roll: Roll, j: nat)
    requires WellFormed(w) && WellFormed(v) && WellFormed(r) && j < NUM_ENEMIES
    requires Placed(w, v, roll, j) && v.score <= r.score
    requires r.enemyX[j] == v.enemyX[j] && r.enemyY[j] == v.enemyY[j]
    ensures Placed(w, r, roll, j)
  {
  }

  /** The iteration for enemy i places it, if nothing before touched it. */
  lemma PlacedByIteration(w: World, v: World, i: nat, roll: Roll)
    requires WellFormed(w) && WellFormed(v) && i < NUM_ENEMIES && ValidRoll(roll)
    requires v.enemyX[i] == w.enemyX[i] && v.enemyY[i] == w.enemyY[i]
    requires v.enemyXChange[i] == w.enemyXChange[i] && v.enemyYChange[i] == w.enemyYChange[i]
    requires w.score <= v.score
    ensures Placed(w, UpdateEnemy(v, i, roll), roll, i)
  {
    UpdateEnemyOutcome(v, i, roll);
  }

  /** Every enemy the loop has reached is placed as Placed describes. */
  lemma {:induction false} EnemiesUpToPosition(w: World, n: nat, rolls: seq<Roll>)
    requires WellFormed(w) && n <= NUM_ENEMIES && ValidRolls(rolls)
    ensures forall j :: 0 <= j < n ==> Placed(w, EnemiesUpTo(w, n, rolls), rolls[j], j)
    decreases n
  {
    if n > 0 {
      var v := EnemiesUpTo(w, n - 1, rolls);
      var r := EnemiesUpTo(w, n, rolls);
      EnemiesUpToPosition(w, n - 1, rolls);
      EnemiesUpToFrame(w, n - 1, rolls);
      EnemiesUpToAccounting(w, n - 1, rolls);
      UpdateEnemyFrame(v, n - 1, rolls[n - 1]);
      UpdateEnemyOutcome(v, n - 1, rolls[n - 1]);
      PlacedByIteration(w, v, n - 1, rolls[n - 1]);
      forall j | 0 <= j < n - 1
        ensures Placed(w, r, rolls[j], j)
      {
        PlacedStable(w, v, r, rolls[j], j);
      }
    }
  }

  /** Game over is raised by the loop exactly when some enemy it reached ends
      its own iteration overrunning the player; no later iteration moves that
      enemy again, so this can be read off the final state. */
  lemma {:induction false} EnemiesUpToGameOver(w: World, n: nat, rolls: seq<Roll>)
    requires WellFormed(w) && n <= NUM_ENEMIES && ValidRolls(rolls)
    ensures var r := EnemiesUpTo(w, n, rolls);
      r.gameOver <==>
        w.gameOver || exists j :: 0 <= j < n && Overruns(r.enemyX[j], r.enemyY[j], w.playerX, w.playerY)
    decreases n
  {
    if n > 0 {
      var v := EnemiesUpTo(w, n - 1, rolls);
      var r := EnemiesUpTo(w, n, rolls);
      EnemiesUpToGameOver(w, n - 1, rolls);
      EnemiesUpToFrame(w, n - 1, rolls);
      UpdateEnemyFrame(v, n - 1, rolls[n - 1]);
      if exists j :: 0 <= j < n - 1 && Overruns(v.enemyX[j], v.enemyY[j], w.playerX, w.playerY) {
        var j :| 0 <= j < n - 1 && Overruns(v.enemyX[j], v.enemyY[j], w.playerX, w.playerY);
        assert Overruns(r.enemyX[j], r.enemyY[j], w.playerX, w.playerY);
      }
      if exists j :: 0 <= j < n && Overruns(r.enemyX[j], r.enemyY[j], w.playerX, w.playerY) {
        var j :| 0 <= j < n && Overruns(r.enemyX[j], r.enemyY[j], w.playerX, w.playerY);
        if j < n - 1 {
          assert Overruns(v.enemyX[j], v.enemyY[j], w.playerX, w.playerY);
        }
      }
    }
  }

  /** The loop goes on after game over is raised: apart from the flag itself,
      its outcome does not depend on the flag. */
  lemma {:induction false} EnemiesUpToIgnoresGameOver(w: World, n: nat, rolls: seq<Roll>)
    requires WellFormed(w) && n <= NUM_ENEMIES && ValidRolls(rolls)
    ensures EnemiesUpTo(w.(gameOver := true), n, rolls) == EnemiesUpTo(w, n, rolls).(gameOver := true)
    decreases n
  {
    if n > 0 {
      EnemiesUpToIgnoresGameOver(w, n - 1, rolls);
      UpdateEnemyIgnoresGameOver(EnemiesUpTo(w, n - 1, rolls), n - 1, rolls[n - 1]);
    }
  }

  /** One iteration does not read the game-over flag. */
  lemma UpdateEnemyIgnoresGameOver(v: World, i: nat, roll: Roll)
    requires WellFormed(v) && i < NUM_ENEMIES && ValidRoll(roll)
    ensures UpdateEnemy(v.(gameOver := true), i, roll) == UpdateEnemy(v, i, roll).(gameOver := true)
  {
    assert MoveStep(v.(gameOver := true), i) == MoveStep(v, i).(gameOver := true);
    assert StrikeStep(MoveStep(v, i).(gameOver := true), i, roll) ==
      StrikeStep(MoveStep(v, i), i, roll).(gameOver := true);
  }

  /** Respawning keeps the velocity, so an enemy respawned exactly on the
      left edge while moving left bounces in two consecutive frames and is
      back where it started, having dropped two descent steps plus two
      drifts: it keeps doing so every frame. */
  lemma EdgeRespawnBouncesEveryFrame(y: real, score: nat)
    ensures var m1 := MoveEnemy(0.0, y, -ENEMY_SPEED, ENEMY_Y_BASE_CHANGE, score);
      var m2 := MoveEnemy(m1.x, m1.y, m1.xChange, ENEMY_Y_BASE_CHANGE, score);
      AtEdge(m1.x) && AtEdge(m2.x) && m2.x == 0.0 && m2.xChange == -ENEMY_SPEED &&
      m2.y == y + 2.0 * Drift(score) + 2.0 * ENEMY_Y_BASE_CHANGE as real
  {
  }
}
