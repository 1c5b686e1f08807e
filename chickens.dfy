/**
 * The chickens of game.js: the record createChicken attaches to each chicken
 * (its userData plus its x/z position), the per-frame AI of updateChickens and
 * moveChickenNormally, and the counts the win check and the attack rule use.
 */
module Chickens {

  /** Math.PI. */
  const Pi: real := 3.141592653589793
  /** Aggressive chickens chase the player when closer than this. */
  const AttackRange: real := 30.0
  /** A chasing chicken strikes the player when closer than this. */
  const StrikeRange: real := 5.0
  /** Milliseconds a chicken waits after a strike before it may chase again. */
  const StrikeCooldown: real := 3000.0
  /** Wandering chickens turn back once beyond this fraction of the world size. */
  const WanderReach: real := 0.8

  /**
   * One chicken. `id` stands for the identity of the chicken's scene object,
   * which the source uses to find it again after its death animation.
   */
  datatype Chicken = Chicken(
    id: nat,
    alive: bool,
    aggressive: bool,
    attackCooldown: real,       // milliseconds
    moveSpeed: real,            // world units per frame
    direction: real,            // heading in radians
    changeDirectionTimer: real, // seconds
    x: real,
    z: real)

  /** Math.cos and Math.sin, which the model does not compute. */
  datatype Trig = Trig(cos: real -> real, sin: real -> real)

  /** The five Math.random() draws createChicken makes, each in [0, 1). */
  datatype SpawnDraw = SpawnDraw(angle: real, distance: real, speed: real, heading: real, temper: real)

  /**
   * What one frame supplies about one chicken: its distance to the camera,
   * the x and z parts of the unit vector from it toward the camera, and the
   * two Math.random() draws moveChickenNormally makes.
   */
  datatype Surroundings = Surroundings(distance: real, towardX: real, towardZ: real, turnDraw: real, headingDraw: real)

  function Abs(v: real): real { if v < 0.0 then -v else v }

  /** The state part of createChicken: a live chicken on a ring around the origin. */
  function Spawn(d: SpawnDraw, id: nat, worldSize: int, trig: Trig): (c: Chicken)
    ensures c.id == id && c.alive && c.attackCooldown == 0.0 && c.changeDirectionTimer == 0.0
    ensures c.aggressive <==> d.temper < 0.3
    ensures 0.0 <= d.speed < 1.0 ==> 0.03 <= c.moveSpeed < 0.07
    ensures 0.0 <= d.heading < 1.0 ==> 0.0 <= c.direction < 2.0 * Pi
  {
    var angle := d.angle * Pi * 2.0;
    var distance := SpawnDistance(d, worldSize);
    Chicken(id, true, d.temper < 0.3, 0.0, 0.03 + d.speed * 0.04, d.heading * Pi * 2.0, 0.0,
            trig.cos(angle) * distance, trig.sin(angle) * distance)
  }

  /** The radius of the spawn ring: 30 plus up to 0.7 of the world size. */
  function SpawnDistance(d: SpawnDraw, worldSize: int): (r: real)
    ensures 0.0 <= d.distance < 1.0 && worldSize > 0 ==> 30.0 <= r < worldSize as real * 0.7 + 30.0
  {
    d.distance * (worldSize as real * 0.7) + 30.0
  }

  /**
   * Whenever cos and sin agree at the spawn angle, a new chicken stands
   * exactly on the spawn ring.
   */
  lemma SpawnOnRing(d: SpawnDraw, id: nat, worldSize: int, trig: Trig)
    requires var a := d.angle * Pi * 2.0; trig.cos(a) * trig.cos(a) + trig.sin(a) * trig.sin(a) == 1.0
    ensures var c := Spawn(d, id, worldSize, trig);
            c.x * c.x + c.z * c.z == SpawnDistance(d, worldSize) * SpawnDistance(d, worldSize)
  {
  }

  /** The chickens createChickens appends, one per draw, numbered from `base`. */
  function Spawned(draws: seq<SpawnDraw>, base: nat, worldSize: int, trig: Trig): (cs: seq<Chicken>)
    ensures |cs| == |draws|
    decreases |draws|
  {
    if draws == [] then []
    else
      var n := |draws| - 1;
      Spawned(draws[..n], base, worldSize, trig) + [Spawn(draws[n], base + n, worldSize, trig)]
  }

  /** Spawning one more draw appends one more chicken. */
  lemma SpawnedSnoc(draws: seq<SpawnDraw>, i: nat, base: nat, worldSize: int, trig: Trig)
    requires i < |draws|
    ensures Spawned(draws[..i + 1], base, worldSize, trig) ==
              Spawned(draws[..i], base, worldSize, trig) + [Spawn(draws[i], base + i, worldSize, trig)]
  {
    assert draws[..i + 1][..i] == draws[..i];
  }

  /** The k-th chicken createChickens appends is the one spawned from the k-th draw. */
  lemma {:induction false} SpawnedAt(draws: seq<SpawnDraw>, base: nat, worldSize: int, trig: Trig)
    ensures forall k :: 0 <= k < |draws| ==>
              Spawned(draws, base, worldSize, trig)[k] == Spawn(draws[k], base + k, worldSize, trig)
    decreases |draws|
  {
    if draws != [] {
      var n := |draws| - 1;
      SpawnedAt(draws[..n], base, worldSize, trig);
      forall k | 0 <= k < n
        ensures Spawned(draws, base, worldSize, trig)[k] == Spawn(draws[k], base + k, worldSize, trig)
      {
        assert draws[..n][k] == draws[k];
      }
    }
  }

  /** A freshly spawned flock is all alive, with consecutive ids from `base`. */
  lemma {:induction false} SpawnedFlock(draws: seq<SpawnDraw>, base: nat, worldSize: int, trig: Trig)
    ensures var cs := Spawned(draws, base, worldSize, trig);
            |cs| == |draws| && AliveCount(cs) == |draws| &&
            forall k :: 0 <= k < |cs| ==> cs[k].id == base + k && cs[k].alive
    decreases |draws|
  {
    if draws != [] {
      var n := |draws| - 1;
      SpawnedFlock(draws[..n], base, worldSize, trig);
      var cs := Spawned(draws, base, worldSize, trig);
      assert cs[..n] == Spawned(draws[..n], base, worldSize, trig);
    }
  }

  /** The number of chickens still alive: what the win check counts. */
  function AliveCount(cs: seq<Chicken>): (n: nat)
    ensures n <= |cs|
    decreases |cs|
  {
    if cs == [] then 0
    else AliveCount(cs[..|cs| - 1]) + (if cs[|cs| - 1].alive then 1 else 0)
  }

  /** The number of alive aggressive chickens: the only ones that can strike. */
  function Attackers(cs: seq<Chicken>): (n: nat)
    ensures n <= AliveCount(cs)
    decreases |cs|
  {
    if cs == [] then 0
    else Attackers(cs[..|cs| - 1]) + (if cs[|cs| - 1].alive && cs[|cs| - 1].aggressive then 1 else 0)
  }

  /** No chicken is counted alive exactly when every chicken is dead. */
  lemma {:induction false} NoneAlive(cs: seq<Chicken>)
    ensures AliveCount(cs) == 0 <==> forall k :: 0 <= k < |cs| ==> !cs[k].alive
    decreases |cs|
  {
    if cs != [] {
      var n := |cs| - 1;
      NoneAlive(cs[..n]);
      assert forall k :: 0 <= k < n ==> cs[..n][k] == cs[k];
    }
  }

  /** The state part of killChicken on the i-th chicken. */
  function Killed(cs: seq<Chicken>, i: nat): (r: seq<Chicken>)
    requires i < |cs|
    ensures |r| == |cs| && !r[i].alive && r[i].id == cs[i].id
    ensures forall k :: 0 <= k < |cs| && k != i ==> r[k] == cs[k]
  {
    cs[i := cs[i].(alive := false)]
  }

  /** Killing a live chicken lowers the alive count by exactly one. */
  lemma {:induction false} KillCountsDown(cs: seq<Chicken>, i: nat)
    requires i < |cs| && cs[i].alive
    ensures AliveCount(Killed(cs, i)) == AliveCount(cs) - 1
    decreases |cs|
  {
    var n := |cs| - 1;
    if i == n {
      assert Killed(cs, i)[..n] == cs[..n];
    } else {
      assert Killed(cs, i)[..n] == Killed(cs[..n], i);
      KillCountsDown(cs[..n], i);
    }
  }

  /** The heading moveChickenNormally walks in: redrawn once the turn timer passes 3 to 7 seconds. */
  function Heading(c: Chicken, s: Surroundings): real
  {
    if Turns(c, s) then s.headingDraw * Pi * 2.0 else c.direction
  }

  predicate Turns(c: Chicken, s: Surroundings)
  {
    c.changeDirectionTimer > 3.0 + s.turnDraw * 4.0
  }

  /** Beyond the wander bound on x or on z. */
  predicate Strays(c: Chicken, worldSize: int)
  {
    var bound := worldSize as real * WanderReach;
    Abs(c.x) > bound || Abs(c.z) > bound
  }

  /**
   * moveChickenNormally: maybe pick a new heading, take one step along it,
   * and turn around (add pi to the heading) if the step left the wander
   * bound. The step itself is not undone.
   */
  function MoveNormally(c: Chicken, s: Surroundings, worldSize: int, trig: Trig): (r: Chicken)
    ensures r.id == c.id && r.alive == c.alive && r.aggressive == c.aggressive
    ensures r.moveSpeed == c.moveSpeed && r.attackCooldown == c.attackCooldown
    ensures r.changeDirectionTimer == if Turns(c, s) then 0.0 else c.changeDirectionTimer
    ensures r.x == c.x + trig.cos(Heading(c, s)) * c.moveSpeed
    ensures r.z == c.z + trig.sin(Heading(c, s)) * c.moveSpeed
    ensures r.direction == if Strays(r, worldSize) then Heading(c, s) + Pi else Heading(c, s)
  {
    var h := Heading(c, s);
    var c1 := c.(direction := h, changeDirectionTimer := if Turns(c, s) then 0.0 else c.changeDirectionTimer);
    var c2 := c1.(x := c1.x + trig.cos(h) * c1.moveSpeed,
                  z := c1.z + trig.sin(h) * c1.moveSpeed);
    if Strays(c2, worldSize) then c2.(direction := h + Pi) else c2
  }

  /** A live chicken's clocks after `delta` seconds: the turn timer counts up, the attack cooldown down. */
  function Aged(c: Chicken, delta: real): Chicken
  {
    c.(changeDirectionTimer := c.changeDirectionTimer + delta,
       attackCooldown := c.attackCooldown - delta * 1000.0)
  }

  /**
   * The chase rule: an alive aggressive chicken goes for the camera while the
   * attack window is open, the camera is within the attack range and its
   * cooldown has run out.
   */
  predicate Chases(c: Chicken, s: Surroundings, window: bool, delta: real)
  {
    c.alive && c.aggressive && window && s.distance < AttackRange && c.attackCooldown - delta * 1000.0 <= 0.0
  }

  /**
   * One chicken's share of updateChickens. Dead chickens are skipped. A live
   * one ages its turn timer and its attack cooldown; if it is aggressive, the
   * attack window is open, the camera is within the attack range and the
   * cooldown has run out, it moves toward the camera at twice its speed and,
   * within the strike range, strikes (the boolean) and restarts its cooldown;
   * otherwise it wanders.
   */
  function StepChicken(c: Chicken, s: Surroundings, window: bool, delta: real, worldSize: int, trig: Trig): (r: (Chicken, bool))
    ensures r.0.id == c.id && r.0.alive == c.alive && r.0.aggressive == c.aggressive && r.0.moveSpeed == c.moveSpeed
    ensures !c.alive ==> r == (c, false)
    ensures r.1 <==> Chases(c, s, window, delta) && s.distance < StrikeRange
    ensures r.1 ==> r.0.attackCooldown == StrikeCooldown
    ensures c.alive && !r.1 ==> r.0.attackCooldown == c.attackCooldown - delta * 1000.0
    ensures Chases(c, s, window, delta) ==>
              && r.0.x == c.x + s.towardX * (c.moveSpeed * 2.0)
              && r.0.z == c.z + s.towardZ * (c.moveSpeed * 2.0)
              && r.0.direction == c.direction
              && r.0.changeDirectionTimer == c.changeDirectionTimer + delta
    ensures c.alive && !Chases(c, s, window, delta) ==> r == (MoveNormally(Aged(c, delta), s, worldSize, trig), false)
  {
    if !c.alive then (c, false)
    else
      var c1 := Aged(c, delta);
      if Chases(c, s, window, delta) then
        var c2 := c1.(x := c1.x + s.towardX * (c1.moveSpeed * 2.0),
                      z := c1.z + s.towardZ * (c1.moveSpeed * 2.0));
        if s.distance < StrikeRange then (c2.(attackCooldown := StrikeCooldown), true) else (c2, false)
      else
        (MoveNormally(c1, s, worldSize, trig), false)
  }

  /**
   * The bounce brings a chicken back: if a wandering frame carried it out of
   * bounds and the next frame it wanders again without redrawing its heading,
   * it is back where it was before the excursion (given cos and sin of a half
   * turn). Ageing its clocks between the frames moves nothing.
   */
  lemma BounceReturns(c: Chicken, s1: Surroundings, s2: Surroundings, window1: bool, window2: bool,
                      delta1: real, delta2: real, worldSize: int, trig: Trig)
    requires c.alive && !Chases(c, s1, window1, delta1)
    requires Strays(StepChicken(c, s1, window1, delta1, worldSize, trig).0, worldSize)
    requires var r1 := StepChicken(c, s1, window1, delta1, worldSize, trig).0;
             !Chases(r1, s2, window2, delta2) && !Turns(Aged(r1, delta2), s2)
    requires var h := Heading(Aged(c, delta1), s1);
             trig.cos(h + Pi) == -trig.cos(h) && trig.sin(h + Pi) == -trig.sin(h)
    ensures var r1 := StepChicken(c, s1, window1, delta1, worldSize, trig).0;
            var back := StepChicken(r1, s2, window2, delta2, worldSize, trig).0;
            back.x == c.x && back.z == c.z
  {
  }

  /** The chicken loop of updateChickens: every chicken stepped, and the number of strikes. */
  function StepAll(cs: seq<Chicken>, around: seq<Surroundings>, window: bool, delta: real, worldSize: int, trig: Trig): (r: (seq<Chicken>, nat))
    requires |around| == |cs|
    ensures |r.0| == |cs| && r.1 <= |cs|
    decreases |cs|
  {
    if cs == [] then ([], 0)
    else
      var n := |cs| - 1;
      var front := StepAll(cs[..n], around[..n], window, delta, worldSize, trig);
      var last := StepChicken(cs[n], around[n], window, delta, worldSize, trig);
      (front.0 + [last.0], front.1 + if last.1 then 1 else 0)
  }

  /** Stepping one more chicken extends the result by that chicken's step. */
  lemma StepAllSnoc(cs: seq<Chicken>, around: seq<Surroundings>, i: nat, window: bool, delta: real, worldSize: int, trig: Trig)
    requires |around| == |cs| && i < |cs|
    ensures var front := StepAll(cs[..i], around[..i], window, delta, worldSize, trig);
            var last := StepChicken(cs[i], around[i], window, delta, worldSize, trig);
            StepAll(cs[..i + 1], around[..i + 1], window, delta, worldSize, trig) ==
              (front.0 + [last.0], front.1 + if last.1 then 1 else 0)
  {
    assert cs[..i + 1][..i] == cs[..i];
    assert around[..i + 1][..i] == around[..i];
  }

  /** The loop steps each chicken on its own: the k-th result is the k-th chicken stepped. */
  lemma {:induction false} StepAllAt(cs: seq<Chicken>, around: seq<Surroundings>, window: bool, delta: real, worldSize: int, trig: Trig)
    requires |around| == |cs|
    ensures var r := StepAll(cs, around, window, delta, worldSize, trig);
            |r.0| == |cs| &&
            forall k :: 0 <= k < |cs| ==> r.0[k] == StepChicken(cs[k], around[k], window, delta, worldSize, trig).0
    decreases |cs|
  {
    if cs != [] {
      var n := |cs| - 1;
      StepAllAt(cs[..n], around[..n], window, delta, worldSize, trig);
    }
  }

  /** Only alive aggressive chickens strike, and none while the attack window is closed. */
  lemma {:induction false} StepAllStrikes(cs: seq<Chicken>, around: seq<Surroundings>, window: bool, delta: real, worldSize: int, trig: Trig)
    requires |around| == |cs|
    ensures StepAll(cs, around, window, delta, worldSize, trig).1 <= if window then Attackers(cs) else 0
    decreases |cs|
  {
    if cs != [] {
      var n := |cs| - 1;
      StepAllStrikes(cs[..n], around[..n], window, delta, worldSize, trig);
    }
  }

  /** The AI never kills or revives a chicken, so the alive count is unchanged. */
  lemma {:induction false} StepAllKeepsAlive(cs: seq<Chicken>, around: seq<Surroundings>, window: bool, delta: real, worldSize: int, trig: Trig)
    requires |around| == |cs|
    ensures AliveCount(StepAll(cs, around, window, delta, worldSize, trig).0) == AliveCount(cs)
    decreases |cs|
  {
    if cs != [] {
      var n := |cs| - 1;
      StepAllKeepsAlive(cs[..n], around[..n], window, delta, worldSize, trig);
      StepAllAt(cs[..n], around[..n], window, delta, worldSize, trig);
      var r := StepAll(cs, around, window, delta, worldSize, trig);
      assert r.0[..n] == StepAll(cs[..n], around[..n], window, delta, worldSize, trig).0;
    }
  }

  /** One frame as seen by a single chicken. */
  datatype Tick = Tick(around: Surroundings, window: bool, delta: real)

  /** Seconds spanned by a run of frames. */
  function Elapsed(ticks: seq<Tick>): (t: real)
    ensures (forall k :: 0 <= k < |ticks| ==> ticks[k].delta >= 0.0) ==> t >= 0.0
    decreases |ticks|
  {
    if ticks == [] then 0.0 else ticks[0].delta + Elapsed(ticks[1..])
  }

  /** One chicken over a run of frames, and how often it struck. */
  function Replay(c: Chicken, ticks: seq<Tick>, worldSize: int, trig: Trig): (Chicken, nat)
    decreases |ticks|
  {
    if ticks == [] then (c, 0)
    else
      var step := StepChicken(c, ticks[0].around, ticks[0].window, ticks[0].delta, worldSize, trig);
      var rest := Replay(step.0, ticks[1..], worldSize, trig);
      (rest.0, rest.1 + if step.1 then 1 else 0)
  }

  /** A chicken does not strike while more cooldown remains than time passes. */
  lemma {:induction false} CooldownBlocksStrikes(c: Chicken, ticks: seq<Tick>, worldSize: int, trig: Trig)
    requires forall k :: 0 <= k < |ticks| ==> ticks[k].delta >= 0.0
    requires c.attackCooldown > Elapsed(ticks) * 1000.0
    ensures Replay(c, ticks, worldSize, trig).1 == 0
    decreases |ticks|
  {
    if ticks != [] {
      var t := ticks[0];
      var rest := ticks[1..];
      assert forall k :: 0 <= k < |rest| ==> rest[k].delta >= 0.0 by {
        forall k | 0 <= k < |rest| ensures rest[k].delta >= 0.0 { assert rest[k] == ticks[k + 1]; }
      }
      assert Elapsed(rest) >= 0.0;
      var step := StepChicken(c, t.around, t.window, t.delta, worldSize, trig);
      CooldownBlocksStrikes(step.0, rest, worldSize, trig);
    }
  }

  /** After a strike, the same chicken cannot strike again within three seconds. */
  lemma NoRepeatStrike(c: Chicken, s: Surroundings, window: bool, delta: real, after: Chicken, ticks: seq<Tick>, worldSize: int, trig: Trig)
    requires StepChicken(c, s, window, delta, worldSize, trig) == (after, true)
    requires forall k :: 0 <= k < |ticks| ==> ticks[k].delta >= 0.0
    requires Elapsed(ticks) < 3.0
    ensures Replay(after, ticks, worldSize, trig).1 == 0
  {
    CooldownBlocksStrikes(after, ticks, worldSize, trig);
  }

  /** Chicken ids strictly increase along the list (so they are distinct). */
  ghost predicate IncreasingIds(cs: seq<Chicken>)
  {
    forall j, k :: 0 <= j < k < |cs| ==> cs[j].id < cs[k].id
  }

  ghost predicate IdsBelow(cs: seq<Chicken>, bound: nat)
  {
    forall k :: 0 <= k < |cs| ==> cs[k].id < bound
  }

  /** A chicken numbered `bound` may follow a list whose ids all lie below it. */
  lemma AppendFresh(cs: seq<Chicken>, c: Chicken, bound: nat)
    requires IncreasingIds(cs) && IdsBelow(cs, bound) && c.id == bound
    ensures IncreasingIds(cs + [c]) && IdsBelow(cs + [c], bound + 1)
  {
  }

  /** Replacing a chicken by one with the same id keeps the ids in order. */
  lemma ReplaceKeepsIds(cs: seq<Chicken>, i: nat, c: Chicken, bound: nat)
    requires IncreasingIds(cs) && IdsBelow(cs, bound) && i < |cs| && c.id == cs[i].id
    ensures IncreasingIds(cs[i := c]) && IdsBelow(cs[i := c], bound)
  {
  }

  /** Overwriting the first chicken after a prefix. */
  lemma ReplaceAtSeam(front: seq<Chicken>, rest: seq<Chicken>, c: Chicken)
    requires rest != []
    ensures (front + rest)[|front| := c] == front + [c] + rest[1..]
  {
  }

  /** The list without the chicken that has the given id. */
  function Without(cs: seq<Chicken>, id: nat): (r: seq<Chicken>)
    ensures |r| <= |cs|
    ensures forall k :: 0 <= k < |r| ==> r[k].id != id && r[k] in cs
    ensures forall k :: 0 <= k < |cs| && cs[k].id != id ==> cs[k] in r
    decreases |cs|
  {
    if cs == [] then []
    else (if cs[0].id == id then [] else [cs[0]]) + Without(cs[1..], id)
  }

  /** Removing an id that is not there changes nothing. */
  lemma {:induction false} WithoutAbsent(cs: seq<Chicken>, id: nat)
    requires forall k :: 0 <= k < |cs| ==> cs[k].id != id
    ensures Without(cs, id) == cs
    decreases |cs|
  {
    if cs != [] {
      WithoutAbsent(cs[1..], id);
    }
  }

  /**
   * With distinct ids, splicing out the position indexOf finds is removing
   * that chicken by identity.
   */
  lemma {:induction false} SpliceIsWithout(cs: seq<Chicken>, k: nat)
    requires IncreasingIds(cs) && k < |cs|
    ensures cs[..k] + cs[k + 1..] == Without(cs, cs[k].id)
    decreases k
  {
    var id := cs[k].id;
    if k == 0 {
      WithoutAbsent(cs[1..], id);
    } else {
      assert IncreasingIds(cs[1..]);
      SpliceIsWithout(cs[1..], k - 1);
      assert cs[1..][k - 1] == cs[k];
      assert cs[..k] == [cs[0]] + cs[1..][..k - 1];
      assert cs[k + 1..] == cs[1..][k..];
    }
  }
}
