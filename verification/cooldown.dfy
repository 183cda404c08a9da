/** Fire control: a shot request succeeds only when the cooldown has elapsed
    since the last successful shot. */
module Cooldown {
  import opened Entities

  /** The state after fire_bullet is called at tick `now`. */
  function AfterFire(w: World, now: int): (r: World)
    ensures now - w.lastShotTime >= SHOT_COOLDOWN ==>
      r.bullets == w.bullets + [Bullet(w.playerX + MUZZLE_OFFSET, w.playerY)] &&
      r.lastShotTime == now
    ensures now - w.lastShotTime < SHOT_COOLDOWN ==> r == w
    ensures r.(bullets := w.bullets, lastShotTime := w.lastShotTime) == w
  {
    if now - w.lastShotTime >= SHOT_COOLDOWN then
      w.(bullets := w.bullets + [Bullet(w.playerX + MUZZLE_OFFSET, w.playerY)],
         lastShotTime := now)
    else
      w
  }

  /** Two requests less than a cooldown apart yield one bullet: the second is
      dropped. */
  lemma SecondShotWithinCooldownDropped(w: World, t1: int, t2: int)
    requires t1 - w.lastShotTime >= SHOT_COOLDOWN
    requires t1 <= t2 < t1 + SHOT_COOLDOWN
    ensures AfterFire(AfterFire(w, t1), t2) == AfterFire(w, t1)
    ensures |AfterFire(AfterFire(w, t1), t2).bullets| == |w.bullets| + 1
  {
  }

  /** A request at least a cooldown after a successful one fires again, so
      two bullets have been added, in firing order. */
  lemma SecondShotAfterCooldownFires(w: World, t1: int, t2: int)
    requires t1 - w.lastShotTime >= SHOT_COOLDOWN
    requires t2 - t1 >= SHOT_COOLDOWN
    ensures AfterFire(AfterFire(w, t1), t2).bullets ==
      w.bullets + [Bullet(w.playerX + MUZZLE_OFFSET, w.playerY),
                   Bullet(w.playerX + MUZZLE_OFFSET, w.playerY)]
    ensures AfterFire(AfterFire(w, t1), t2).lastShotTime == t2
  {
  }
}
