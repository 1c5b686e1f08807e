/**
 * The game-rules layer of the ChickenHunter3D class in game.js: the fields
 * the class keeps on `this` for score, lives, ammo, reloading, pausing, the
 * session flags, the world size, the attack timer, the chickens and the
 * camera position, and the methods that change them.
 */
module Hunter {
  import opened Options
  import opened Arena
  import opened Chickens
  import opened Shooting

  const MaxLives: int := 3
  const MaxAmmo: int := 30
  /** Points awarded per kill. */
  const KillScore: int := 15
  /** Chickens created per session. */
  const TotalChickens: nat := 20
  /** Milliseconds between two attack windows. */
  const ChickenAttackInterval: real := 8000.0

  /** What the game-over screen shows. */
  datatype Screen = Hidden | Victory | Defeat

  /** A snapshot of every field a Game keeps. */
  datatype GameState = GameState(
    score: int,
    lives: int,
    ammo: int,
    isReloading: bool,
    lastShotTime: int,
    isPaused: bool,
    gameOver: bool,
    gameStarted: bool,
    worldSize: int,
    mouseSensitivity: real,
    chickenAttackTimer: real,
    chickens: seq<Chicken>,
    nextId: nat,
    camera: Position,
    gameOverScreen: Screen)

  /**
   * What every operation keeps: ammo within [0, maxAmmo], lives never above
   * maxLives (they may drop below zero), the score a whole number of kills,
   * the settings within their bounds, and distinct chicken identities.
   */
  ghost predicate Invariant(s: GameState)
  {
    Sound(s.score, s.lives, s.ammo, s.worldSize, s.mouseSensitivity, s.chickens, s.nextId)
  }

  /** The invariant on the fields it constrains. */
  ghost predicate Sound(score: int, lives: int, ammo: int, worldSize: int, mouseSensitivity: real,
                        chickens: seq<Chicken>, nextId: nat)
  {
    && 0 <= ammo <= MaxAmmo
    && lives <= MaxLives
    && 0 <= score && score % KillScore == 0
    && MinWorldSize <= worldSize <= MaxWorldSize
    && MinSensitivity <= mouseSensitivity <= MaxSensitivity
    && IncreasingIds(chickens) && IdsBelow(chickens, nextId)
  }

  /** The state part of takeDamage: one life lost; none left ends the game in defeat. */
  ghost function Damaged(s: GameState): (r: GameState)
    ensures r.lives == s.lives - 1
    ensures r.gameOver <==> s.gameOver || r.lives <= 0
    ensures r.gameOverScreen == if r.lives <= 0 then Defeat else s.gameOverScreen
    ensures r == s.(lives := r.lives, gameOver := r.gameOver, gameOverScreen := r.gameOverScreen)
  {
    var lives := s.lives - 1;
    s.(lives := lives,
       gameOver := s.gameOver || lives <= 0,
       gameOverScreen := if lives <= 0 then Defeat else s.gameOverScreen)
  }

  /**
   * updateChickens as a whole: the attack timer advances, every chicken takes
   * its turn in order, and the timer restarts once it has passed the
   * interval.
   */
  ghost function ChickenPhase(s: GameState, delta: real, around: seq<Surroundings>, trig: Trig): (r: GameState)
    requires |around| == |s.chickens|
    ensures |r.chickens| == |s.chickens|
  {
    var p := PhaseUpTo(s.(chickenAttackTimer := s.chickenAttackTimer + delta * 1000.0), |s.chickens|, delta, around, trig);
    p.(chickenAttackTimer := if p.chickenAttackTimer > ChickenAttackInterval then 0.0 else p.chickenAttackTimer)
  }

  /**
   * One turn of the forEach in updateChickens, on the i-th chicken: it is
   * stepped with the attack window the timer opens, and a strike costs a
   * life (takeDamage).
   */
  ghost function Turn(p: GameState, i: nat, a: Surroundings, delta: real, trig: Trig): (r: GameState)
    requires i < |p.chickens|
    ensures |r.chickens| == |p.chickens|
  {
    var step := StepChicken(p.chickens[i], a, p.chickenAttackTimer > ChickenAttackInterval, delta, p.worldSize, trig);
    (if step.1 then Damaged(p) else p).(chickens := p.chickens[i := step.0])
  }

  /** The forEach of updateChickens after its first `i` turns: the loop invariant of UpdateFlock. */
  ghost function PhaseUpTo(s: GameState, i: nat, delta: real, around: seq<Surroundings>, trig: Trig): (r: GameState)
    requires i <= |s.chickens| == |around|
    ensures |r.chickens| == |s.chickens|
  {
    if i == 0 then s
    else Turn(PhaseUpTo(s, i - 1, delta, around, trig), i - 1, around[i - 1], delta, trig)
  }

  /**
   * The same stage described all at once: the first `i` chickens stepped
   * with StepAll, the rest untouched, the strikes so far taken off the lives.
   */
  ghost function Stepped(s: GameState, i: nat, delta: real, around: seq<Surroundings>, trig: Trig): GameState
    requires i <= |s.chickens| == |around|
  {
    var front := StepAll(s.chickens[..i], around[..i], s.chickenAttackTimer > ChickenAttackInterval, delta, s.worldSize, trig);
    var defeated := front.1 > 0 && s.lives - front.1 <= 0;
    s.(chickens := front.0 + s.chickens[i..],
       lives := s.lives - front.1,
       gameOver := s.gameOver || defeated,
       gameOverScreen := if defeated then Defeat else s.gameOverScreen)
  }

  /** One more turn after `i` stepped chickens gives `i + 1` stepped chickens. */
  lemma SteppedSnoc(s: GameState, i: nat, delta: real, around: seq<Surroundings>, trig: Trig)
    requires i < |s.chickens| == |around|
    ensures Stepped(s, i, delta, around, trig).chickens[i] == s.chickens[i]
    ensures Stepped(s, i + 1, delta, around, trig) == Turn(Stepped(s, i, delta, around, trig), i, around[i], delta, trig)
  {
    var window := s.chickenAttackTimer > ChickenAttackInterval;
    var front := StepAll(s.chickens[..i], around[..i], window, delta, s.worldSize, trig);
    var step := StepChicken(s.chickens[i], around[i], window, delta, s.worldSize, trig);
    StepAllSnoc(s.chickens, around, i, window, delta, s.worldSize, trig);
    ReplaceAtSeam(front.0, s.chickens[i..], step.0);
    assert s.chickens[i..][1..] == s.chickens[i + 1..];
  }

  /** Turn by turn, the loop computes the all-at-once description. */
  lemma {:induction false} PhaseUpToIsStepped(s: GameState, i: nat, delta: real, around: seq<Surroundings>, trig: Trig)
    requires i <= |s.chickens| == |around|
    ensures PhaseUpTo(s, i, delta, around, trig) == Stepped(s, i, delta, around, trig)
  {
    if i == 0 {
      SteppedNone(s, delta, around, trig);
    } else {
      PhaseUpToIsStepped(s, i - 1, delta, around, trig);
      SteppedSnoc(s, i - 1, delta, around, trig);
    }
  }

  /** No chicken stepped yet: the state is untouched. */
  lemma SteppedNone(s: GameState, delta: real, around: seq<Surroundings>, trig: Trig)
    requires |s.chickens| == |around|
    ensures Stepped(s, 0, delta, around, trig) == s
  {
    assert s.chickens[0..] == s.chickens;
  }

  /**
   * updateChickens all at once: the window is open when the advanced timer
   * has passed the interval, StepAll steps the whole flock, each strike costs
   * a life, a strike that leaves no lives shows the defeat screen, and the
   * timer restarts when the window was open.
   */
  lemma ChickenPhaseAllAtOnce(s: GameState, delta: real, around: seq<Surroundings>, trig: Trig)
    requires |s.chickens| == |around|
    ensures var timer := s.chickenAttackTimer + delta * 1000.0;
            var window := timer > ChickenAttackInterval;
            var stepped := StepAll(s.chickens, around, window, delta, s.worldSize, trig);
            var defeated := stepped.1 > 0 && s.lives - stepped.1 <= 0;
            ChickenPhase(s, delta, around, trig) ==
              s.(chickens := stepped.0,
                 lives := s.lives - stepped.1,
                 gameOver := s.gameOver || defeated,
                 gameOverScreen := if defeated then Defeat else s.gameOverScreen,
                 chickenAttackTimer := if window then 0.0 else timer)
  {
    PhaseUpToIsStepped(s.(chickenAttackTimer := s.chickenAttackTimer + delta * 1000.0), |s.chickens|, delta, around, trig);
    assert s.chickens[..|s.chickens|] == s.chickens && around[..|around|] == around;
  }

  /**
   * What a frame of chicken updates may change: only the chickens, the lives,
   * the game-over flag and screen, and the timer, which ends at most one
   * interval; lives never go up, a finished game stays finished, and a game
   * that ends here ends in defeat with no lives left.
   */
  lemma ChickenPhaseBounds(s: GameState, delta: real, around: seq<Surroundings>, trig: Trig)
    requires |s.chickens| == |around|
    ensures var r := ChickenPhase(s, delta, around, trig);
            && r == s.(chickens := r.chickens, lives := r.lives, gameOver := r.gameOver,
                       gameOverScreen := r.gameOverScreen, chickenAttackTimer := r.chickenAttackTimer)
            && r.chickenAttackTimer <= ChickenAttackInterval
            && (r.chickenAttackTimer == 0.0 || r.chickenAttackTimer == s.chickenAttackTimer + delta * 1000.0)
            && r.lives <= s.lives
            && (s.gameOver ==> r.gameOver)
            && (r.gameOver && !s.gameOver ==> r.lives <= 0 && r.gameOverScreen == Defeat)
  {
    ChickenPhaseAllAtOnce(s, delta, around, trig);
  }

  /** The chicken update keeps the invariant. */
  lemma ChickenPhaseKeepsInvariant(s: GameState, delta: real, around: seq<Surroundings>, trig: Trig)
    requires Invariant(s) && |around| == |s.chickens|
    ensures Invariant(ChickenPhase(s, delta, around, trig))
  {
    ChickenPhaseAllAtOnce(s, delta, around, trig);
    var window := s.chickenAttackTimer + delta * 1000.0 > ChickenAttackInterval;
    StepAllAt(s.chickens, around, window, delta, s.worldSize, trig);
  }

  /** Dead chickens are skipped: each keeps its timers, cooldown and position, and no chicken dies or revives. */
  lemma ChickenPhaseSkipsDead(s: GameState, delta: real, around: seq<Surroundings>, trig: Trig)
    requires |around| == |s.chickens|
    ensures var r := ChickenPhase(s, delta, around, trig);
            |r.chickens| == |s.chickens| && AliveCount(r.chickens) == AliveCount(s.chickens) &&
            forall k :: 0 <= k < |s.chickens| ==>
              r.chickens[k].alive == s.chickens[k].alive && (!s.chickens[k].alive ==> r.chickens[k] == s.chickens[k])
  {
    ChickenPhaseAllAtOnce(s, delta, around, trig);
    var window := s.chickenAttackTimer + delta * 1000.0 > ChickenAttackInterval;
    StepAllAt(s.chickens, around, window, delta, s.worldSize, trig);
    StepAllKeepsAlive(s.chickens, around, window, delta, s.worldSize, trig);
  }

  /**
   * Lives are lost only while the attack window is open, and at most one per
   * alive aggressive chicken.
   */
  lemma ChickenPhaseDamage(s: GameState, delta: real, around: seq<Surroundings>, trig: Trig)
    requires |around| == |s.chickens|
    ensures var r := ChickenPhase(s, delta, around, trig);
            s.lives - r.lives <= Attackers(s.chickens) &&
            (s.chickenAttackTimer + delta * 1000.0 <= ChickenAttackInterval ==>
               r.lives == s.lives && r.gameOver == s.gameOver && r.gameOverScreen == s.gameOverScreen)
  {
    ChickenPhaseAllAtOnce(s, delta, around, trig);
    var window := s.chickenAttackTimer + delta * 1000.0 > ChickenAttackInterval;
    StepAllStrikes(s.chickens, around, window, delta, s.worldSize, trig);
  }

  class Game {
    var score: int
    var lives: int
    var ammo: int
    var isReloading: bool
    var lastShotTime: int
    var isPaused: bool
    var gameOver: bool
    var gameStarted: bool
    var worldSize: int
    var mouseSensitivity: real
    var chickenAttackTimer: real
    var chickens: seq<Chicken>
    /** The identity the next created chicken receives. */
    var nextId: nat
    /** The camera (player) position. */
    var camera: Position
    var gameOverScreen: Screen

    ghost function State(): GameState
      reads this
    {
      GameState(score, lives, ammo, isReloading, lastShotTime, isPaused, gameOver, gameStarted,
                worldSize, mouseSensitivity, chickenAttackTimer, chickens, nextId, camera, gameOverScreen)
    }

    /** Invariant, on the current fields. */
    ghost predicate Valid()
      reads this`score, this`lives, this`ammo, this`worldSize, this`mouseSensitivity, this`chickens, this`nextId
    {
      Sound(score, lives, ammo, worldSize, mouseSensitivity, chickens, nextId)
    }

    /** The state part of the constructor: a fresh game waiting on its start menu. */
    constructor ()
      ensures Valid()
      ensures State() == GameState(0, MaxLives, MaxAmmo, false, 0, false, false, false,
                                   DefaultWorldSize, DefaultSensitivity, 0.0, [], 0,
                                   Position(0.0, 8.0, 15.0), Hidden)
    {
      score, lives, ammo, isReloading, lastShotTime := 0, MaxLives, MaxAmmo, false, 0;
      isPaused, gameOver, gameStarted := false, false, false;
      worldSize, mouseSensitivity, chickenAttackTimer := DefaultWorldSize, DefaultSensitivity, 0.0;
      chickens, nextId := [], 0;
      camera := Position(0.0, 8.0, 15.0);
      gameOverScreen := Hidden;
    }

    /** createChickens: append one new chicken per draw. */
    method CreateChickens(draws: seq<SpawnDraw>, trig: Trig)
      requires Valid()
      modifies this
      ensures Valid()
      ensures State() == old(State()).(chickens := old(chickens) + Spawned(draws, old(nextId), old(worldSize), trig),
                                       nextId := old(nextId) + |draws|)
    {
      var i := 0;
      while i < |draws|
        invariant 0 <= i <= |draws|
        invariant chickens == old(chickens) + Spawned(draws[..i], old(nextId), worldSize, trig)
        invariant nextId == old(nextId) + i
        invariant State() == old(State()).(chickens := chickens, nextId := nextId)
        invariant Valid()
      {
        SpawnedSnoc(draws, i, old(nextId), worldSize, trig);
        CreateChicken(draws[i], trig);
        i := i + 1;
      }
      assert draws[..i] == draws;
    }

    /**
     * createChicken: a chicken spawned from the draw `d` joins the flock with
     * the next identity.
     */
    method CreateChicken(d: SpawnDraw, trig: Trig)
      requires Valid()
      modifies this
      ensures Valid()
      ensures State() == old(State()).(chickens := old(chickens) + [Spawn(d, old(nextId), worldSize, trig)],
                                       nextId := old(nextId) + 1)
    {
      var c := Spawn(d, nextId, worldSize, trig);
      AppendFresh(chickens, c, nextId);
      chickens, nextId := chickens + [c], nextId + 1;
    }

    /** The state part of startGame: the session starts and the chickens are created. */
    method StartGame(draws: seq<SpawnDraw>, trig: Trig)
      requires Valid() && |draws| == TotalChickens
      modifies this
      ensures Valid()
      ensures State() == old(State()).(gameStarted := true,
                                       chickens := old(chickens) + Spawned(draws, old(nextId), old(worldSize), trig),
                                       nextId := old(nextId) + TotalChickens)
    {
      gameStarted := true;
      CreateChickens(draws, trig);
    }

    /** The state part of showMainMenu: back to the start menu with no chickens and a full reset. */
    method ShowMainMenu()
      requires Valid()
      modifies this
      ensures Valid()
      ensures State() == old(State()).(gameStarted := false, gameOver := false, chickens := [],
                                       score := 0, lives := MaxLives, ammo := MaxAmmo,
                                       isReloading := false, isPaused := false, gameOverScreen := Hidden)
    {
      gameStarted, gameOver, chickens, gameOverScreen := false, false, [], Hidden;
      ResetStats();
    }

    /** The reset shared by showMainMenu and restart: full lives and ammo, no score, no reload, no pause. */
    method ResetStats()
      requires Valid()
      modifies this
      ensures Valid()
      ensures State() == old(State()).(score := 0, lives := MaxLives, ammo := MaxAmmo,
                                       isReloading := false, isPaused := false)
    {
      score, lives, ammo := 0, MaxLives, MaxAmmo;
      isReloading, isPaused := false, false;
    }

    /**
     * showSettings: each answer that is present and numeric is clamped into
     * its range; a cancelled or non-numeric answer leaves the setting alone.
     */
    method ShowSettings(sensitivity: Option<real>, size: Option<int>)
      requires Valid()
      modifies this
      ensures Valid()
      ensures State() == old(State()).(
        mouseSensitivity := if sensitivity.Some? then ClampSensitivity(sensitivity.value) else old(mouseSensitivity),
        worldSize := if size.Some? then ClampWorldSize(size.value) else old(worldSize))
    {
      if sensitivity.Some? {
        mouseSensitivity := ClampSensitivity(sensitivity.value);
      }
      if size.Some? {
        worldSize := ClampWorldSize(size.value);
      }
    }

    /**
     * shoot at time `now`, with `hits` the owners of the parts the ray
     * crosses, nearest first. Returns whether the shot was fired, the chicken
     * it killed, whether the kill left no chicken alive (the source then shows
     * the victory screen a second later: ShowGameOver(true)), and whether the
     * magazine is now empty (the source then reloads half a second later:
     * StartReload).
     */
    method Shoot(now: int, hits: seq<nat>) returns (fired: bool, target: Option<nat>, victory: bool, autoReload: bool)
      requires Valid()
      modifies this
      ensures Valid()
      ensures fired == ShotAllowed(now, old(lastShotTime), old(ammo), old(isReloading))
      ensures !fired ==> State() == old(State()) && target == None && !victory && !autoReload
      ensures fired ==> target == TargetOf(hits, old(chickens))
      ensures fired && target.None? ==> State() == old(State()).(lastShotTime := now, ammo := old(ammo) - 1)
      ensures fired && target.Some? ==>
                State() == old(State()).(lastShotTime := now, ammo := old(ammo) - 1,
                                         chickens := Killed(old(chickens), target.value),
                                         score := old(score) + KillScore)
      ensures victory <==> target.Some? && AliveCount(chickens) == 0
      ensures autoReload <==> fired && ammo == 0
    {
      if !ShotAllowed(now, lastShotTime, ammo, isReloading) {
        return false, None, false, false;
      }
      lastShotTime := now;
      ammo := ammo - 1;
      fired := true;
      target := TargetOf(hits, chickens);
      victory := false;
      if target.Some? {
        victory := KillChicken(target.value);
      }
      autoReload := ammo == 0;
    }

    /**
     * The state part of killChicken: the chicken is marked dead and 15 points
     * are scored; returns whether no chicken is left alive.
     */
    method KillChicken(i: nat) returns (victory: bool)
      requires Valid() && i < |chickens|
      modifies this
      ensures Valid()
      ensures State() == old(State()).(chickens := Killed(old(chickens), i), score := old(score) + KillScore)
      ensures victory <==> AliveCount(chickens) == 0
    {
      chickens := Killed(chickens, i);
      score := score + KillScore;
      victory := AliveCount(chickens) == 0;
    }

    /** indexOf over the chickens by identity: the first position holding `id`, or -1. */
    method IndexOfChicken(id: nat) returns (index: int)
      ensures -1 <= index < |chickens|
      ensures index >= 0 ==> chickens[index].id == id && forall k :: 0 <= k < index ==> chickens[k].id != id
      ensures index == -1 <==> forall k :: 0 <= k < |chickens| ==> chickens[k].id != id
    {
      var k := 0;
      while k < |chickens|
        invariant 0 <= k <= |chickens|
        invariant forall j :: 0 <= j < k ==> chickens[j].id != id
      {
        if chickens[k].id == id {
          return k;
        }
        k := k + 1;
      }
      return -1;
    }

    /**
     * The end of the death animation: the chicken with this identity is
     * spliced out of the list, if it is still there.
     */
    method FinishDeathAnimation(id: nat)
      requires Valid()
      modifies this
      ensures Valid()
      ensures State() == old(State()).(chickens := Without(old(chickens), id))
    {
      var index := IndexOfChicken(id);
      if index > -1 {
        SpliceIsWithout(chickens, index);
        chickens := chickens[..index] + chickens[index + 1..];
      } else {
        WithoutAbsent(chickens, id);
      }
    }

    /** reload: start reloading unless already reloading or full; returns whether it started. */
    method StartReload() returns (started: bool)
      requires Valid()
      modifies this
      ensures Valid()
      ensures started <==> !old(isReloading) && old(ammo) != MaxAmmo
      ensures State() == if started then old(State()).(isReloading := true) else old(State())
    {
      if isReloading || ammo == MaxAmmo {
        return false;
      }
      isReloading := true;
      started := true;
    }

    /** The reload timer firing: a full magazine, and reloading ends. */
    method FinishReload()
      requires Valid()
      modifies this
      ensures Valid()
      ensures State() == old(State()).(ammo := MaxAmmo, isReloading := false)
    {
      ammo := MaxAmmo;
      isReloading := false;
    }

    /** The state part of takeDamage: one life lost, and the defeat screen when none are left. */
    method TakeDamage()
      requires Valid()
      modifies this
      ensures Valid()
      ensures State() == Damaged(old(State()))
    {
      lives := lives - 1;
      if lives <= 0 {
        ShowGameOver(false);
      }
    }

    /** The state part of showGameOver: the game is over, won or lost. */
    method ShowGameOver(won: bool)
      requires Valid()
      modifies this
      ensures Valid()
      ensures State() == old(State()).(gameOver := true, gameOverScreen := if won then Victory else Defeat)
    {
      gameOver := true;
      gameOverScreen := if won then Victory else Defeat;
    }

    /** togglePause. */
    method TogglePause()
      requires Valid()
      modifies this
      ensures Valid()
      ensures State() == old(State()).(isPaused := !old(isPaused))
    {
      isPaused := !isPaused;
    }

    /**
     * The state part of restart: score, lives, ammo and the flags reset, a new
     * flock replaces the old one, the camera goes back to its restart spot
     * and the game-over screen is hidden. The attack timer and gameStarted
     * are left as they were.
     */
    method Restart(draws: seq<SpawnDraw>, trig: Trig)
      requires Valid() && |draws| == TotalChickens
      modifies this
      ensures Valid()
      ensures State() == old(State()).(score := 0, lives := MaxLives, ammo := MaxAmmo, isReloading := false,
                                       isPaused := false, gameOver := false,
                                       chickens := Spawned(draws, old(nextId), old(worldSize), trig),
                                       nextId := old(nextId) + TotalChickens,
                                       camera := Position(0.0, 5.0, 10.0), gameOverScreen := Hidden)
    {
      ResetStats();
      gameOver, chickens, camera, gameOverScreen := false, [], Position(0.0, 5.0, 10.0), Hidden;
      CreateChickens(draws, trig);
      assert [] + Spawned(draws, old(nextId), old(worldSize), trig) == Spawned(draws, old(nextId), old(worldSize), trig);
    }

    /**
     * The bookkeeping of updateMovement: `step` is the world-space
     * displacement of this frame's camera translation and `bob` the head-bob
     * offset; the moved camera is confined to the arena.
     */
    method UpdateMovement(step: Position, bob: real)
      requires Valid()
      modifies this
      ensures Valid()
      ensures State() == old(State()).(camera := Confine(Translate(old(camera), step), worldSize, bob))
      ensures InArena(camera, worldSize) && camera.y >= EyeHeight + bob
    {
      var moved := Translate(camera, step);
      camera := Confine(moved, worldSize, bob);
    }

    /**
     * updateChickens for a frame of `delta` seconds, with `around[k]` what
     * the frame supplies about the k-th chicken.
     */
    method UpdateChickens(delta: real, around: seq<Surroundings>, trig: Trig)
      requires Valid() && |around| == |chickens|
      modifies this
      ensures Valid()
      ensures State() == ChickenPhase(old(State()), delta, around, trig)
    {
      chickenAttackTimer := chickenAttackTimer + delta * 1000.0;
      UpdateFlock(delta, around, trig);
      // the timer restarts once it has passed the interval
      chickenAttackTimer := if chickenAttackTimer > ChickenAttackInterval then 0.0 else chickenAttackTimer;
    }

    /** The forEach of updateChickens: every chicken takes its turn, in order. */
    method UpdateFlock(delta: real, around: seq<Surroundings>, trig: Trig)
      requires Valid() && |around| == |chickens|
      modifies this
      ensures Valid()
      ensures State() == PhaseUpTo(old(State()), |old(chickens)|, delta, around, trig)
    {
      var i := 0;
      while i < |chickens|
        invariant 0 <= i <= |chickens| == |old(chickens)|
        invariant State() == PhaseUpTo(old(State()), i, delta, around, trig)
        invariant Valid()
      {
        UpdateChicken(i, around[i], delta, trig);
        i := i + 1;
      }
    }

    /**
     * One turn of the forEach in updateChickens: the i-th chicken is stepped
     * and, if it struck the player, takeDamage follows.
     */
    method UpdateChicken(i: nat, around: Surroundings, delta: real, trig: Trig)
      requires Valid() && i < |chickens|
      modifies this
      ensures Valid()
      ensures State() == Turn(old(State()), i, around, delta, trig)
    {
      var step := StepChicken(chickens[i], around, chickenAttackTimer > ChickenAttackInterval, delta, worldSize, trig);
      var c, struck := step.0, step.1;
      if struck {
        TakeDamage();
      }
      ReplaceKeepsIds(chickens, i, c, nextId);
      chickens := chickens[i := c];
    }

    /**
     * The guard of the render loop: nothing is updated while paused or after
     * the game is over; otherwise the camera moves (only with the pointer
     * locked and the game started) and the chickens are updated (only once
     * the game has started).
     */
    method Animate(pointerLocked: bool, delta: real, step: Position, bob: real, around: seq<Surroundings>, trig: Trig)
      requires Valid() && |around| == |chickens|
      modifies this
      ensures Valid()
      ensures old(isPaused) || old(gameOver) || !old(gameStarted) ==> State() == old(State())
      ensures !old(isPaused) && !old(gameOver) && old(gameStarted) ==>
                State() == ChickenPhase(if pointerLocked
                                        then old(State()).(camera := Confine(Translate(old(camera), step), old(worldSize), bob))
                                        else old(State()),
                                        delta, around, trig)
    {
      if isPaused || gameOver {
        return;
      }
      if pointerLocked && gameStarted {
        UpdateMovement(step, bob);
      }
      if gameStarted {
        UpdateChickens(delta, around, trig);
      }
    }
  }
}
