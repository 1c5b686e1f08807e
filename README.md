# Chicken Hunter 3D: the game rules

This project models the game-rules layer of the `ChickenHunter3D` class in
`game.js`, a first-person browser shooter built on Three.js.

The player walks a square arena and shoots chickens. The rules cover:

- A gun with a 30-round magazine. There is a 100 ms gap between shots and a timed reload.
- Each kill scores 15 points.
- The player has three lives.
- Aggressive chickens chase and strike the player when the periodic attack window opens.
- The game is won when no chicken is left alive and lost when the lives run out.

Everything around these rules is left out: scene building, rendering, the
DOM, audio and input wiring.

The model is written in Dafny and split into six modules:

- `Options` (`options.dfy`): the `Option` type, used for a settings answer that may be missing and for a shot that may hit nothing.
- `Arena` (`arena.dfy`): the settings clamps and the camera confinement at the end of `updateMovement`.
- `Chickens` (`chickens.dfy`): the chicken record and the pure rules for one chicken. These cover creation, wandering with the bounce at the wander bound, the chase-and-strike rule, and the stepping of the whole flock.
- `Shooting` (`shooting.dfy`): the shot gate and which chicken a shot kills.
- `Hunter` (`hunter.dfy`): the class `Game`.
  - Its fields are the ones the source keeps on `this`, plus two more. `nextId` is described under Chicken identity below. `gameOverScreen` records the outcome the game-over screen shows (game.js:1227-1243); the screen is hidden at game.js:168 and 1201.
  - Its methods change them in place, as the source's methods do.
  - `State()` takes a snapshot of all fields as a `GameState` value, and each method's postcondition gives the new snapshot in terms of the old one.
  - `Valid()` is the invariant every method keeps. It is the predicate `Sound` applied to the fields, and `Invariant` is the same predicate applied to a `GameState`:
    - ammo lies in [0, 30];
    - lives are at most 3;
    - the score is a non-negative multiple of 15;
    - the world size and the look sensitivity lie within the settings ranges;
    - chicken identities strictly increase along the list;
    - every chicken identity lies below `nextId`, so each new chicken's identity is fresh.
  - `updateChickens` is a loop over the flock. It is proved against `ChickenPhase`, which is defined turn by turn. The lemma `ChickenPhaseAllAtOnce` ties it to an all-at-once description built on `StepAll`.
- `Scenarios` (`scenarios.dfy`): client code that relies only on the contracts. It covers rapid fire and reload, three strikes, and shooting past a dead chicken.

How the model handles the source's inputs and environment:

- **Time.** Wall-clock time is the `now` argument of `Shoot`. Frame time is the `delta` argument, in seconds, of the update methods.
- **Random draws.** Every `Math.random()` draw is a field of an input record, `SpawnDraw` or `Surroundings`.
- **Trigonometry.** `Math.cos` and `Math.sin` are the two functions of a `Trig` value.
- **Geometry.** The distance from a chicken to the camera and the unit vector toward the camera come in as `Surroundings`. The raycaster's hit list comes in as `hits`, the owning chicken index of each part the ray crosses, nearest first.
- **Chicken identity.** The source finds a dead chicken again by object identity (`indexOf`). The model gives each chicken a numeric `id` drawn from the counter `nextId`.
- **Constants.** `maxLives`, `maxAmmo`, `shotCooldown`, `totalChickens` and `chickenAttackInterval` never change in the source. They are module constants here.
- **Deferred steps.** Work the source defers with `setTimeout` is a separate method, called later by the client:
  - The reload timer is `FinishReload`.
  - The auto-reload half a second after the last round is `StartReload`. `Shoot` signals it through `autoReload`.
  - The victory screen a second after the last kill is `ShowGameOver(true)`. `Shoot` signals it through `victory`.
  - The end of the death animation is `FinishDeathAnimation`.

Lives are not kept non-negative, because the source does not keep them so. Several chickens can strike in the same pass of the `forEach`, and `lives <= 0` only decides whether the game is over.

## Model

| member | source | states |
|---|---|---|
| Arena.Clamp | game.js:1039-1041 | `Math.max(lo, Math.min(hi, v))` lies in [lo, hi], is `v` inside the range, and is the nearer bound outside it |
| Arena.ClampWorldSize | game.js:203-206 | an accepted world size ends in [300, 1000]; inside that range it is kept, below it becomes 300, above it becomes 1000 |
| Arena.ClampSensitivity | game.js:198-201 | an accepted look sensitivity ends in [0.001, 0.01]; inside that range it is kept, below it becomes 0.001, above it becomes 0.01 |
| Arena.Confine | game.js:1034-1041 | after the boundary step the camera's x and z lie within ±0.9·worldSize, each clamped on its own axis to the nearer bound (`Clamp`) and untouched when inside; y is the larger of its old value and 3 plus the bob |
| Arena.ConfineIdempotent | game.js:1036-1041 | confining twice gives the same position as confining once |
| Chickens.Spawn | game.js:603-622 | a new chicken is alive with zero cooldown and turn timer; it is aggressive exactly when its draw is below 0.3; its speed lies in [0.03, 0.07) and its heading in [0, 2π) for draws in [0, 1) |
| Chickens.SpawnDistance | game.js:605 | the spawn radius lies in [30, 0.7·worldSize + 30) |
| Chickens.SpawnOnRing | game.js:604-610 | given cos² + sin² = 1 at the spawn angle, the chicken stands exactly on the circle of the spawn radius |
| Chickens.Spawned | game.js:524-528 | the chickens createChickens appends: one per draw |
| Chickens.SpawnedAt | game.js:524-528 | the k-th appended chicken is the one spawned from the k-th draw with identity base + k |
| Chickens.SpawnedFlock | game.js:524-528 | createChickens adds one chicken per draw, all alive, with consecutive identities |
| Chickens.AliveCount | game.js:909 | the number of alive chickens the win check counts, never more than the list's length |
| Chickens.NoneAlive | game.js:909 | the alive count used by the win check is zero exactly when every chicken is dead |
| Chickens.Killed | game.js:867 | killing marks the target dead and leaves every other chicken unchanged |
| Chickens.KillCountsDown | game.js:867 | killing a live chicken lowers the alive count by exactly one |
| Chickens.MoveNormally | game.js:1090-1112 | the heading is redrawn and the timer reset once the timer passes 3 + 4·draw; the chicken steps along its heading and its position is never clamped; the heading turns by π exactly when the step leaves ±0.8·worldSize on x or z |
| Chickens.BounceReturns | game.js:1051-1108 | when a wandering frame of `StepChicken` takes a chicken out of bounds, the next frame, if it wanders again without redrawing its heading, brings the chicken back to where it was |
| Chickens.StepChicken | game.js:1047-1082 | dead chickens are left as they are; a live chicken that `Chases` (aggressive, window open, within 30, decreased cooldown not positive) moves toward the camera by twice its speed, keeps its heading and ages its turn timer by delta; any other live chicken ages both clocks and then wanders by `MoveNormally`; a chicken strikes exactly when it chases from within 5, which sets its cooldown to 3000; otherwise a live chicken's cooldown drops by delta·1000 |
| Chickens.StepAll | game.js:1047-1082 | the whole forEach pass: every chicken stepped in order, and the number of strikes, at most one per chicken |
| Chickens.StepAllAt | game.js:1047-1082 | the loop updates each chicken on its own: the k-th result is the k-th chicken stepped |
| Chickens.StepAllStrikes | game.js:1055-1068 | strikes in one pass number at most the alive aggressive chickens, and none while the window is closed |
| Chickens.StepAllKeepsAlive | game.js:1047-1082 | the chicken AI neither kills nor revives: the alive count is unchanged |
| Chickens.CooldownBlocksStrikes | game.js:1052-1057 | a chicken does not strike while its remaining cooldown exceeds the time that passes |
| Chickens.NoRepeatStrike | game.js:1066-1069 | after a strike, the same chicken cannot strike again for three seconds |
| Chickens.Without | game.js:895-899 | the list with the chicken of one identity removed: no kept chicken has that identity, every kept chicken was in the list, and every other chicken is kept |
| Chickens.WithoutAbsent | game.js:895-899 | removing a chicken that is no longer in the list changes nothing |
| Chickens.SpliceIsWithout | game.js:895-899 | with increasing identities, as `Valid` keeps them, splicing out the index indexOf finds removes exactly that chicken |
| Shooting.ShotAllowed | game.js:810-812 | a shot is refused within 100 ms of the last one, with no ammo, or while reloading |
| Shooting.Offered | game.js:822-823 | the raycaster sees only parts of alive chickens: every kept hit is owned by an alive chicken, and every such hit is kept |
| Shooting.TargetOf | game.js:822-837 | a shot kills an alive chicken the ray crosses, or nothing exactly when the ray crosses no alive chicken |
| Shooting.TargetIsFirstLivingHit | game.js:826-837 | the shot kills the nearest alive chicken on the ray, whatever dead ones lie before it |
| Hunter.Damaged | game.js:1114-1138 | takeDamage removes exactly one life, ends the game exactly when the game was over or no lives remain, shows the defeat screen exactly when no lives remain, and changes nothing else |
| Hunter.Turn | game.js:1048-1078 | one forEach turn: the i-th chicken is replaced by its `StepChicken` step under the current attack window, a strike applies `Damaged`, and the flock keeps its size |
| Hunter.ChickenPhase | game.js:1044-1088 | a whole updateChickens: the timer advances, every chicken takes its `Turn` in order, and the timer restarts once past the interval; the flock keeps its size |
| Hunter.PhaseUpToIsStepped | game.js:1047-1082 | the forEach turn by turn computes the all-at-once description of the first i chickens |
| Hunter.ChickenPhaseAllAtOnce | game.js:1044-1088 | a whole updateChickens: the timer advances, the window opens past 8000, StepAll steps the flock, each strike costs a life, the defeat screen shows when one leaves no lives, and the timer resets exactly when the window was open |
| Hunter.ChickenPhaseBounds | game.js:1044-1088 | updateChickens changes only the chickens, lives, game-over flag, screen and timer; the timer ends at 0 or at its advanced value and never above 8000; lives never go up; a finished game stays finished; a game it ends is lost with no lives |
| Hunter.ChickenPhaseKeepsInvariant | game.js:1044-1088 | updateChickens keeps the game invariant |
| Hunter.ChickenPhaseSkipsDead | game.js:1048 | dead chickens keep their timers, cooldown and position, and no chicken dies or revives |
| Hunter.ChickenPhaseDamage | game.js:1055-1068 | lives lost in one frame number at most the alive aggressive chickens, and none while the attack window is closed |
| Hunter.Game.constructor | game.js:2-70 | a new game has score 0, 3 lives, 30 rounds, no flags set, world size 500, sensitivity 0.002, a zero attack timer, no chickens and the camera at (0, 8, 15) |
| Hunter.Game.CreateChickens | game.js:524-528 | the chickens spawned from the draws are appended in order, with fresh identities |
| Hunter.Game.CreateChicken | game.js:603-625 | one spawned chicken is pushed with the next identity |
| Hunter.Game.StartGame | game.js:103-138 | the session starts and twenty chickens are created |
| Hunter.Game.ShowMainMenu | game.js:140-169 | back to the menu: not started, not over, no chickens, stats reset, screen hidden |
| Hunter.Game.ResetStats | game.js:152-156 | score 0, full lives, full magazine, no reload, no pause |
| Hunter.Game.ShowSettings | game.js:197-207 | each present answer is clamped into its range; an absent one leaves the setting alone |
| Hunter.Game.Shoot | game.js:806-850 | a shot fires exactly when the gate allows it; a refused shot changes nothing; a fired shot sets lastShotTime and spends exactly one round; it kills the first alive chicken on the ray, scoring 15; victory is reported exactly when that kill leaves no chicken alive; auto-reload exactly when the magazine is now empty |
| Hunter.Game.KillChicken | game.js:866-914 | the target is marked dead, 15 points are scored, and the win is reported exactly when no chicken is left alive |
| Hunter.Game.IndexOfChicken | game.js:896 | the first position holding the identity, or -1 exactly when no chicken has it |
| Hunter.Game.FinishDeathAnimation | game.js:895-899 | the dead chicken is removed from the list if it is still there, and nothing else changes |
| Hunter.Game.StartReload | game.js:852-856 | a reload starts exactly when not already reloading and the magazine is not full, and then only the reloading flag changes |
| Hunter.Game.FinishReload | game.js:858-863 | the magazine is full and reloading ends |
| Hunter.Game.TakeDamage | game.js:1114-1138 | the new state is `Damaged` of the old one |
| Hunter.Game.ShowGameOver | game.js:1219-1244 | the game is over and the screen shows victory or defeat |
| Hunter.Game.TogglePause | game.js:1166-1174 | only the pause flag flips |
| Hunter.Game.Restart | game.js:1176-1209 | stats and flags reset, a fresh flock of twenty replaces the old one, the camera returns to (0, 5, 10), and the screen is hidden |
| Hunter.Game.UpdateMovement | game.js:997-1042 | the translated camera is confined to the arena and kept above the eye height plus the bob |
| Hunter.Game.UpdateChickens | game.js:1044-1088 | the new state is `ChickenPhase` of the old one, and the invariant holds |
| Hunter.Game.UpdateFlock | game.js:1047-1082 | the forEach gives the state after every chicken's turn, in order |
| Hunter.Game.UpdateChicken | game.js:1047-1082 | one turn: the chicken is replaced by its step, and a strike calls takeDamage |
| Hunter.Game.Animate | game.js:1257-1277 | nothing changes while paused, after game over or before the start; otherwise the camera moves (pointer locked only) and then the chickens update |

## Left out

- Scene construction, meshes, GLSL shaders, rendering, the DOM and UI updates except the outcome shown on the game-over screen, input wiring, pointer lock, audio, muzzle flash, the bullet trail and the death tween: these are browser and Three.js I/O with no rule content.
- Ray geometry (`THREE.Raycaster`): the hit list is an input.
- Camera velocity, damping, Euler angles and the joystick mapping in `updateMovement`: the frame's world-space displacement is an input (`step`), and so is the head-bob offset (`bob`).
- `distanceTo` and the normalised vector toward the camera in `updateChickens`: inputs per chicken.
- The chickens' vertical bobbing and their `y`, `health`, `originalY` and rotations. Of these, only `y` reaches the rules: the 3D `distanceTo` (game.js:1056) and the chase vector (game.js:1059-1063) use it. Both of those are inputs (`Surroundings`), so the model needs no `y`; the others are never read by the rules.
- `Math.random`, `Date.now` and `Math.cos`/`Math.sin`: inputs, as described above.
- Floating-point rounding: positions, timers and speeds are exact reals.
- `gameTime`, `gameStartTime` and `reloadTime`: the first two only feed the on-screen timers (the HUD timer that `updateUI` redraws every frame, and the game-over screen); the reload delay is replaced by the separate `FinishReload` step.
- `setTimeout` ordering: the deferred steps are separate methods, and the model does not say when the client calls them.
- `THREE.Clock.getDelta` is not modelled. After a pause, the first frame's `delta` covers the whole paused time. The model takes whatever `delta` it is given.
- The camera rotation reset in `restart`: orientation is not modelled.
- `toggleSettings`: it repeats the sensitivity clamp of `showSettings`.
- The string parsing of the settings prompt (`isNaN`, `parseFloat`, `parseInt`): `Some(value)` is the number `parseFloat` or `parseInt` returns, and a cancelled, empty or non-numeric answer is `None`. The source tests the answer with `isNaN`, which reads it as a whole number string, and then parses it with `parseFloat` (game.js:200) or `parseInt` (game.js:205). Some answers pass the test and still parse to NaN, which the clamp then stores. For the sensitivity that is an all-blank answer. For the world size it is an all-blank answer, or one such as ".5", "+.5", "-.5", "Infinity" or "-Infinity". A NaN world size also makes the camera clamp at game.js:1039-1041 produce NaN for x and z. The model has no NaN, so it does not cover these answers. For them, the source breaks the settings ranges of `Invariant`.
- Hunter.Game.Shoot: like the source's `shoot`, it does not check `gameOver`. Only the desktop click handler does (game.js:631). The mobile shoot button (game.js:801) does not, so a shot after the game is over is modelled exactly as `shoot` handles it.
- Hunter.Game.Restart: the camera is moved and the screen hidden before the new flock is created, while the source does these after. The steps touch disjoint fields, so the final state is the same as in the source's order.
