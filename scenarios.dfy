/**
 * Client code showing what callers of Game can rely on, from its contracts
 * alone.
 */
module Scenarios {
  import opened Options
  import opened Chickens
  import opened Hunter

  /** Two shots 50 ms apart: the second is refused; a reload refills the magazine. */
  method RapidFireThenReload()
  {
    var g := new Game();
    var started := g.StartReload();
    assert !started;  // a full magazine is not reloaded
    var fired, target, victory, autoReload := g.Shoot(1000, []);
    assert fired && target == None && g.ammo == MaxAmmo - 1;
    fired, target, victory, autoReload := g.Shoot(1050, []);
    assert !fired && g.ammo == MaxAmmo - 1;
    started := g.StartReload();
    assert started && g.isReloading;
    fired, target, victory, autoReload := g.Shoot(2000, []);
    assert !fired;  // no shooting while reloading
    g.FinishReload();
    assert g.ammo == MaxAmmo && !g.isReloading;
  }

  /** Three strikes end the game in defeat. */
  method ThreeStrikes()
  {
    var g := new Game();
    g.TakeDamage();
    g.TakeDamage();
    assert !g.gameOver && g.lives == 1;
    g.TakeDamage();
    assert g.gameOver && g.gameOverScreen == Defeat && g.lives == 0;
  }

  /** A ray through a dead chicken and then a live one kills the live one. */
  method ShootingPastTheDead(draws: seq<SpawnDraw>, trig: Trig)
    requires |draws| == TotalChickens
  {
    var g := new Game();
    g.StartGame(draws, trig);
    ghost var flock := g.chickens;
    SpawnedFlock(draws, 0, g.worldSize, trig);
    assert flock[0].alive && flock[1].alive && flock[2].alive;
    var fired, target, victory, autoReload := g.Shoot(1000, [0]);
    assert target == Some(0);
    ghost var survivors := g.chickens;
    assert survivors == Killed(flock, 0) && g.score == KillScore;
    assert !survivors[0].alive && survivors[1].alive && survivors[2].alive;
    fired, target, victory, autoReload := g.Shoot(1200, [0, 1]);
    assert target == Some(1);
    assert g.chickens == Killed(survivors, 1) && g.score == 2 * KillScore;
    assert g.chickens[2].alive;
    NoneAlive(g.chickens);
    assert !victory;
  }
}
