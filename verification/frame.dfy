/** The session as a whole: reset, input events, the restart control, and the
    per-frame update, each as a function of the session state. */
module Frame {
  import opened Entities
  import opened Collision
  import opened Cooldown
  import opened Bullets
  import opened Explosions
  import opened Enemies

  /** max(0, min(v, hi)) */
  function Clamp(v: int, hi: int): (r: int)
    requires 0 <= hi
    ensures 0 <= r <= hi
    ensures 0 <= v <= hi ==> r == v
    ensures v < 0 ==> r == 0
    ensures v > hi ==> r == hi
  {
    var m := if v < hi then v else hi;
    if 0 > m then 0 else m
  }

  /** The state reset_game establishes, given the twenty x and y draws. */
  function Initial(xs: seq<int>, ys: seq<int>): (r: World)
    requires ValidSpawn(xs, ys)
    ensures WellFormed(r) && Active(r)
    ensures r.playerX == 500 && r.playerY == 620
    ensures r.bullets == [] && r.explosions == [] && r.score == 0 && r.lastShotTime == 0
    ensures forall j :: 0 <= j < NUM_ENEMIES ==>
      InSpawnBounds(r.enemyX[j], r.enemyY[j]) &&
      r.enemyXChange[j] == ENEMY_SPEED && r.enemyYChange[j] == ENEMY_Y_BASE_CHANGE
    ensures forall j :: 0 <= j < NUM_ENEMIES ==> r.enemyX[j] == xs[j] as real && r.enemyY[j] == ys[j] as real
  {
    World(
      WIDTH / 2, HEIGHT - 80,
      [],
      seq(NUM_ENEMIES, j requires 0 <= j < NUM_ENEMIES => xs[j] as real),
      seq(NUM_ENEMIES, j requires 0 <= j < NUM_ENEMIES => ys[j] as real),
      seq(NUM_ENEMIES, _ => ENEMY_SPEED),
      seq(NUM_ENEMIES, _ => ENEMY_Y_BASE_CHANGE),
      [], 0, 0, false, false)
  }

  /** The input events the game reacts to. */
  datatype Event =
    | Quit
    | MouseMotion(mx: int, my: int)
    | KeyDown(isSpace: bool)
    | MouseButtonDown
    | OtherEvent

  /** The state after one input event at tick `now`: while the session is
      active, pointer motion centres the player on the pointer and a space
      key or any click requests a shot; otherwise input is ignored. */
  function AfterEvent(w: World, e: Event, now: int): (r: World)
    ensures !Active(w) ==> r == w
    ensures Active(w) && e.MouseMotion? ==>
      r == w.(playerX := e.mx - PLAYER_WIDTH / 2, playerY := e.my - PLAYER_HEIGHT / 2)
    ensures Active(w) && (e == KeyDown(true) || e == MouseButtonDown) ==> r == AfterFire(w, now)
    ensures e.Quit? || e.OtherEvent? || e == KeyDown(false) ==> r == w
  {
    if !Active(w) then w
    else match e
      case MouseMotion(mx, my) => w.(playerX := mx - PLAYER_WIDTH / 2, playerY := my - PLAYER_HEIGHT / 2)
      case KeyDown(isSpace) => if isSpace then AfterFire(w, now) else w
      case MouseButtonDown => AfterFire(w, now)
      case _ => w
  }

  /** Top edge of the restart button: on the game-over screen (which wins
      when both flags are set) or on the victory screen. */
  function RestartButtonTop(w: World): (top: int)
    ensures (top == 370 <==> w.gameOver) && (top == 430 <==> !w.gameOver)
  {
    if w.gameOver then HEIGHT / 2 + 20 else HEIGHT / 2 + 80
  }

  /** The restart control fires: a terminal screen is shown, the pointer is
      strictly inside its 200 by 60 button and the left button is held. */
  function RestartClicked(w: World, mx: int, my: int, pressed: bool): (r: bool)
    ensures r <==> (!Active(w) && pressed &&
                    400 < mx < 600 && (if w.gameOver then 370 < my < 430 else 430 < my < 490))
  {
    !Active(w) && pressed && Hovered(WIDTH / 2 - 100, RestartButtonTop(w), 200, 60, mx, my)
  }

  /** Step 1 of a frame: the player is clamped to the screen. */
  function ClampPlayer(w: World): (r: World)
    ensures 0 <= r.playerX <= WIDTH - PLAYER_WIDTH && 0 <= r.playerY <= HEIGHT - PLAYER_HEIGHT
    ensures 0 <= w.playerX <= WIDTH - PLAYER_WIDTH ==> r.playerX == w.playerX
    ensures 0 <= w.playerY <= HEIGHT - PLAYER_HEIGHT ==> r.playerY == w.playerY
    ensures r == w.(playerX := r.playerX, playerY := r.playerY)
  {
    w.(playerX := Clamp(w.playerX, WIDTH - PLAYER_WIDTH),
       playerY := Clamp(w.playerY, HEIGHT - PLAYER_HEIGHT))
  }

  /** Steps 3 and 4 of a frame. */
  function MoveProjectiles(w: World): World {
    w.(bullets := BulletPhase(w.bullets), explosions := ParticlePhase(w.explosions))
  }

  /** Step 5 of a frame. */
  function CheckWin(w: World): (r: World)
    ensures r.gameWon <==> w.gameWon || w.score >= WIN_SCORE
    ensures r == w.(gameWon := r.gameWon)
  {
    if w.score >= WIN_SCORE then w.(gameWon := true) else w
  }

  /** The state after one frame of the main loop, given the random draws
      each enemy would consume if hit. Nothing happens once the session has
      ended. */
  function AfterFrame(w: World, rolls: seq<Roll>): (r: World)
    requires WellFormed(w) && ValidRolls(rolls)
    ensures WellFormed(r)
  {
    if !Active(w) then w
    else CheckWin(MoveProjectiles(EnemyPhase(ClampPlayer(w), rolls)))
  }

  /** Once either flag is set, frames and input leave the state unchanged;
      only the restart control can act, and only then. */
  lemma TerminalUntilRestart(w: World, rolls: seq<Roll>, e: Event, now: int, mx: int, my: int, pressed: bool)
    requires WellFormed(w) && ValidRolls(rolls)
    ensures !Active(w) ==> AfterFrame(w, rolls) == w && AfterEvent(w, e, now) == w
    ensures Active(w) ==> !RestartClicked(w, mx, my, pressed)
  {
  }

  /** An active frame is the enemy phase on the clamped state, followed by
      the bullet and particle phases and the win check. */
  lemma FrameShape(w: World, rolls: seq<Roll>)
    requires WellFormed(w) && ValidRolls(rolls) && Active(w)
    ensures var e := EnemyPhase(ClampPlayer(w), rolls);
      AfterFrame(w, rolls) ==
        e.(bullets := BulletPhase(e.bullets), explosions := ParticlePhase(e.explosions),
           gameWon := e.gameWon || e.score >= WIN_SCORE)
  {
  }

  /** A frame clamps the player into [0, 936] x [0, 636] and leaves the fire
      clock alone. */
  lemma FramePlayer(w: World, rolls: seq<Roll>)
    requires WellFormed(w) && ValidRolls(rolls) && Active(w)
    ensures var r := AfterFrame(w, rolls);
      r.playerX == Clamp(w.playerX, WIDTH - PLAYER_WIDTH) &&
      r.playerY == Clamp(w.playerY, HEIGHT - PLAYER_HEIGHT) &&
      0 <= r.playerX <= 936 && 0 <= r.playerY <= 636 &&
      r.lastShotTime == w.lastShotTime
  {
    FrameShape(w, rolls);
    EnemiesUpToFrame(ClampPlayer(w), |rolls|, rolls);
  }

  /** The score never decreases, and rises by at most one per enemy. */
  lemma FrameScore(w: World, rolls: seq<Roll>)
    requires WellFormed(w) && ValidRolls(rolls)
    ensures w.score <= AfterFrame(w, rolls).score <= w.score + NUM_ENEMIES
  {
    if Active(w) {
      FrameShape(w, rolls);
      EnemiesUpToAccounting(ClampPlayer(w), |rolls|, rolls);
    }
  }

  /** After an active frame: game won exactly when the score has reached 15,
      and game over exactly when some enemy ends the frame overrunning the
      clamped player. The two are independent, so both can be raised in the
      same frame. */
  lemma FrameFlags(w: World, rolls: seq<Roll>)
    requires WellFormed(w) && ValidRolls(rolls) && Active(w)
    ensures var r := AfterFrame(w, rolls);
      (r.gameWon <==> r.score >= WIN_SCORE) &&
      (r.gameOver <==> exists j :: 0 <= j < NUM_ENEMIES && Overruns(r.enemyX[j], r.enemyY[j], r.playerX, r.playerY))
  {
    var c := ClampPlayer(w);
    FrameShape(w, rolls);
    EnemiesUpToFrame(c, |rolls|, rolls);
    EnemiesUpToGameOver(c, |rolls|, rolls);
  }

  /** Through an active frame each descent step is unchanged and each
      horizontal speed reverses exactly when the moved x is at or past a side
      edge, whether or not the enemy is hit. */
  lemma FrameVelocity(w: World, rolls: seq<Roll>)
    requires WellFormed(w) && ValidRolls(rolls) && Active(w)
    ensures var r := AfterFrame(w, rolls);
      r.enemyYChange == w.enemyYChange &&
      forall j :: 0 <= j < NUM_ENEMIES ==> r.enemyXChange[j] == Rebound(w.enemyX[j], w.enemyXChange[j])
  {
    var c := ClampPlayer(w);
    FrameShape(w, rolls);
    assert c.enemyX == w.enemyX && c.enemyXChange == w.enemyXChange;
    EnemiesUpToFrame(c, |rolls|, rolls);
    EnemiesUpToVelocity(c, |rolls|, rolls);
  }

  /** After an active frame each enemy is either at its moved position or at
      its respawn position. */
  lemma FramePositions(w: World, rolls: seq<Roll>)
    requires WellFormed(w) && ValidRolls(rolls) && Active(w)
    ensures forall j :: 0 <= j < NUM_ENEMIES ==> Placed(w, AfterFrame(w, rolls), rolls[j], j)
  {
    var c := ClampPlayer(w);
    var e := EnemyPhase(c, rolls);
    var r := AfterFrame(w, rolls);
    FrameShape(w, rolls);
    EnemiesUpToPosition(c, |rolls|, rolls);
    forall j | 0 <= j < NUM_ENEMIES
      ensures Placed(w, r, rolls[j], j)
    {
      PlacedTransfer(c, e, w, r, rolls[j], j);
    }
  }

  /** Placed depends only on the enemy lists and the scores. */
  lemma PlacedTransfer(c: World, e: World, w: World, r: World, roll: Roll, j: nat)
    requires WellFormed(c) && WellFormed(e) && WellFormed(w) && WellFormed(r) && j < NUM_ENEMIES
    requires Placed(c, e, roll, j)
    requires c.enemyX == w.enemyX && c.enemyY == w.enemyY && c.enemyXChange == w.enemyXChange &&
      c.enemyYChange == w.enemyYChange && c.score == w.score
    requires e.enemyX == r.enemyX && e.enemyY == r.enemyY && e.score == r.score
    ensures Placed(w, r, roll, j)
  {
  }

  /** After an active frame every bullet is below the top edge and is a
      bullet of the previous frame that climbed by exactly the bullet speed:
      a frame creates no bullet. */
  lemma FrameBullets(w: World, rolls: seq<Roll>)
    requires WellFormed(w) && ValidRolls(rolls) && Active(w)
    ensures var r := AfterFrame(w, rolls);
      |r.bullets| <= |w.bullets| &&
      forall b :: b in r.bullets ==> b.y > 0 && Bullet(b.x, b.y + BULLET_SPEED) in w.bullets
  {
    var c := ClampPlayer(w);
    var e := EnemyPhase(c, rolls);
    var r := AfterFrame(w, rolls);
    FrameShape(w, rolls);
    EnemiesUpToAccounting(c, |rolls|, rolls);
    BulletPhaseFrom(e.bullets);
    forall b | b in r.bullets
      ensures Bullet(b.x, b.y + BULLET_SPEED) in w.bullets
    {
      SubMultisetMember(e.bullets, w.bullets, Bullet(b.x, b.y + BULLET_SPEED));
    }
  }

  lemma SubMultisetMember(a: seq<Bullet>, b: seq<Bullet>, x: Bullet)
    requires multiset(a) <= multiset(b) && x in a
    ensures x in b
  {
    assert x in multiset(a);
  }

  /** After an active frame no particle with an expired lifespan remains, and
      at most one group per point scored has been added. */
  lemma FrameParticles(w: World, rolls: seq<Roll>)
    requires WellFormed(w) && ValidRolls(rolls) && Active(w)
    ensures var r := AfterFrame(w, rolls);
      (forall g, p :: g in r.explosions && p in g ==> p.life > 0) &&
      |r.explosions| <= |w.explosions| + (r.score - w.score)
  {
    var c := ClampPlayer(w);
    var e := EnemyPhase(c, rolls);
    FrameShape(w, rolls);
    EnemiesUpToAccounting(c, |rolls|, rolls);
    assert |AdvanceAll(e.explosions)| == |e.explosions|;
  }
}
