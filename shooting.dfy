/**
 * The rules of shoot in game.js: the gate a shot must pass, and which
 * chicken a shot kills given the ray's intersections.
 */
module Shooting {
  import opened Options
  import opened Chickens

  /** Milliseconds that must pass between two shots. */
  const ShotCooldown: int := 100

  /** A shot is refused within the cooldown, with no ammo, or while reloading. */
  predicate ShotAllowed(now: int, lastShotTime: int, ammo: int, isReloading: bool)
  {
    !(now - lastShotTime < ShotCooldown || ammo <= 0 || isReloading)
  }

  /** The chicken a hit part belongs to is one that the raycaster is offered: alive. */
  predicate Owns(owner: nat, cs: seq<Chicken>)
  {
    owner < |cs| && cs[owner].alive
  }

  /**
   * The raycaster's intersections with the alive chickens only, nearest
   * first: `hits` lists, nearest first, the owning chicken of every part the
   * ray crosses, and the source offers only alive chickens to the raycaster.
   */
  function Offered(hits: seq<nat>, cs: seq<Chicken>): (r: seq<nat>)
    ensures |r| <= |hits|
    ensures forall h :: h in r ==> h in hits && Owns(h, cs)
    ensures forall h :: h in hits && Owns(h, cs) ==> h in r
    decreases |hits|
  {
    if hits == [] then []
    else (if Owns(hits[0], cs) then [hits[0]] else []) + Offered(hits[1..], cs)
  }

  /** The chicken a shot kills: the owner of the first offered intersection. */
  function TargetOf(hits: seq<nat>, cs: seq<Chicken>): (r: Option<nat>)
    ensures r.Some? ==> r.value in hits && r.value < |cs| && cs[r.value].alive
    ensures r.None? <==> forall k :: 0 <= k < |hits| ==> !Owns(hits[k], cs)
  {
    var live := Offered(hits, cs);
    if live == [] then None
    else
      assert live[0] in live;
      Some(live[0])
  }

  /** The shot kills the nearest alive chicken on the ray, whatever dead ones lie before it. */
  lemma {:induction false} TargetIsFirstLivingHit(hits: seq<nat>, cs: seq<Chicken>, k: nat)
    requires k < |hits| && Owns(hits[k], cs)
    requires forall j :: 0 <= j < k ==> !Owns(hits[j], cs)
    ensures TargetOf(hits, cs) == Some(hits[k])
    decreases k
  {
    if k > 0 {
      TargetIsFirstLivingHit(hits[1..], cs, k - 1);
      assert Offered(hits, cs) == Offered(hits[1..], cs);
    }
  }
}
