/**
 * The world's spatial bounds: the settings clamps applied by showSettings
 * and the camera confinement at the end of updateMovement (game.js).
 */
module Arena {

  /** A point in world space (the camera position). */
  datatype Position = Position(x: real, y: real, z: real)

  const MinWorldSize: int := 300
  const MaxWorldSize: int := 1000
  const DefaultWorldSize: int := 500
  const MinSensitivity: real := 0.001
  const MaxSensitivity: real := 0.01
  const DefaultSensitivity: real := 0.002
  /** The camera may roam out to this fraction of the world size on x and z. */
  const CameraReach: real := 0.9
  /** The lowest eye height, before head bob is added. */
  const EyeHeight: real := 3.0

  function Max(a: real, b: real): real { if a >= b then a else b }
  function Min(a: real, b: real): real { if a <= b then a else b }

  /** `Math.max(lo, Math.min(hi, v))`. */
  function Clamp(lo: real, hi: real, v: real): (r: real)
    ensures lo <= hi ==> lo <= r <= hi
    ensures lo <= v <= hi ==> r == v
    ensures v < lo ==> r == lo
    ensures lo <= hi && hi < v ==> r == hi
  {
    Max(lo, Min(hi, v))
  }

  /** The world size accepted by the settings prompt, pulled into [300, 1000]. */
  function ClampWorldSize(n: int): (r: int)
    ensures MinWorldSize <= r <= MaxWorldSize
    ensures MinWorldSize <= n <= MaxWorldSize ==> r == n
    ensures n < MinWorldSize ==> r == MinWorldSize
    ensures MaxWorldSize < n ==> r == MaxWorldSize
  {
    if n < MinWorldSize then MinWorldSize else if n > MaxWorldSize then MaxWorldSize else n
  }

  /** The look sensitivity accepted by the settings prompt, pulled into [0.001, 0.01]. */
  function ClampSensitivity(v: real): (r: real)
    ensures MinSensitivity <= r <= MaxSensitivity
    ensures MinSensitivity <= v <= MaxSensitivity ==> r == v
    ensures v < MinSensitivity ==> r == MinSensitivity
    ensures MaxSensitivity < v ==> r == MaxSensitivity
  {
    Clamp(MinSensitivity, MaxSensitivity, v)
  }

  /** How far from the origin the camera may go on x and on z. */
  function CameraBound(worldSize: int): real
  {
    worldSize as real * CameraReach
  }

  ghost predicate InArena(p: Position, worldSize: int)
  {
    -CameraBound(worldSize) <= p.x <= CameraBound(worldSize) &&
    -CameraBound(worldSize) <= p.z <= CameraBound(worldSize)
  }

  function Translate(p: Position, d: Position): Position
  {
    Position(p.x + d.x, p.y + d.y, p.z + d.z)
  }

  /**
   * The end of updateMovement: the camera is lifted to at least the eye
   * height plus the head-bob offset `bob`, then x and z are clamped to the
   * camera bound, each independently.
   */
  function Confine(p: Position, worldSize: int, bob: real): (r: Position)
    ensures worldSize >= 0 ==> InArena(r, worldSize)
    ensures r.y >= p.y && r.y >= EyeHeight + bob
    ensures r.y == p.y || r.y == EyeHeight + bob
    ensures worldSize >= 0 && InArena(p, worldSize) ==> r.x == p.x && r.z == p.z
    ensures worldSize >= 0 ==> r.x == Clamp(-CameraBound(worldSize), CameraBound(worldSize), p.x)
    ensures worldSize >= 0 ==> r.z == Clamp(-CameraBound(worldSize), CameraBound(worldSize), p.z)
    ensures p.y >= EyeHeight + bob ==> r.y == p.y
  {
    var m := CameraBound(worldSize);
    Position(Clamp(-m, m, p.x), Max(p.y, EyeHeight + bob), Clamp(-m, m, p.z))
  }

  /** Confining an already confined camera changes nothing. */
  lemma ConfineIdempotent(p: Position, worldSize: int, bob: real)
    requires worldSize >= 0
    ensures Confine(Confine(p, worldSize, bob), worldSize, bob) == Confine(p, worldSize, bob)
  {
  }
}
