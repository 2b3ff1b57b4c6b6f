# Turret, bullet and destructible: a Dafny model

This project models the gameplay logic of a small Unity artillery scene:

- **AutomaticTurret** solves for a launch velocity that reaches the aimed point.
  It seeds a flight time from the distance, then scans flight times upward in fixed steps.
  For each trial time it takes the unique constant-acceleration velocity and accepts it once the velocity leaves at least `minUpPitchDeg` above the horizontal.
  Each frame it re-aims on a successful solve and, on the fire key, launches a bullet with a freshly solved velocity.
- **Bullet** ends exactly once.
  On its first collision it damages the Destructible it hit, pushes the rigidbodies around the impact when it is explosive, fragments when told to, and finishes (event, then destroy request).
  A delayed timer can fragment and finish it instead.
  Fragments are copies of the bullet that never fragment again.
- **Destructible** holds a health pool that damage lowers without clamping.
  Every hit that leaves health at or below zero enters the death branch, which either destroys the object or disables its collider and renderer.

Vectors are three exact reals (`Vectors.Vec3`).
The two measures that need a square root or an arc tangent are supplied by the host as a `Vectors.Geometry` and stay abstract:

- `Vector3.magnitude`;
- the launch pitch, `atan2(v.y, |flat v|)` in degrees.

Randomness (spread samples), physics queries (which colliders an explosion overlaps), input (the fire key) and `Physics.gravity` are parameters.

The modules are:

- `Wrappers`: `Option`.
- `Vectors`: the vector algebra.
- `Ballistics`: the solver.
  - `SolveBallisticGuaranteed` is the loop.
  - `Scan`/`BallisticSolution` is its recursive specification.
  - `ScanFacts`, `ScanPassedOver`, `SolveSuccess` and `SolveFailure` are what is proved about it.
- `Turret`: the `AutomaticTurret` class with `Fire` and `Update`.
- `Health`: the `Destructible` class.
- `Projectile`: the `Bullet` class.
  - Every observable side effect is appended to a `log` of `Effect`s.
  - The order of the effects is part of the contracts.
  - The class invariant `Bullet.Valid` states that the finished event and the destroy request happen exactly once, and only after the bullet finished.

Behaviour of the C# code the model keeps on purpose:

- The solver is given at most `maxSolveIterations` trials.
  With `maxSolveIterations <= 0` it fails at once with the zero vector and the seed time.
- On failure the reported time is the trial time after the last trial, which exceeds `maxFlightTime` when the scan stopped on that bound.
- The delayed-fragmentation timer does not check the one-shot `_finished` flag before fragmenting; only the `Finish` after it is guarded.
  The timer path also neither damages nor explodes.
- The death branch of `ApplyDamage` is not one-shot.
- `Update` dereferences the shoot point without a null check when a target is set.
  The model reports this as the outcome `MissingShootPoint`, which ends that frame without firing.

## Model

| member | source | states |
|---|---|---|
| Ballistics.Clamp | Assets/Scripts/AutomaticTurret.cs:111 | `Mathf.Clamp`: the result lies in `[lo, hi]` when `lo <= hi`, equals the value when it is already in range, and is always one of value, `lo`, `hi` |
| Ballistics.SeedFlightTime | Assets/Scripts/AutomaticTurret.cs:111 | the seed flight time lies in `[minFlightTime, maxFlightTime]` before any iteration, and is positive under positive timing |
| Ballistics.Candidate | Assets/Scripts/AutomaticTurret.cs:118 | the trial velocity `(d - ½·g·t²)/t` satisfies `v·t + ½·g·t² == d` exactly for every `t != 0` |
| Ballistics.CandidateIsUnique | Assets/Scripts/AutomaticTurret.cs:118 | a velocity covers `d` in time `t` if and only if it is the candidate |
| Ballistics.Trial | Assets/Scripts/AutomaticTurret.cs:129 | the k-th trial time `t0 + k·step` is never below the seed for a non-negative step |
| Ballistics.BallisticSolution | Assets/Scripts/AutomaticTurret.cs:105-135 | the solution to a target point never reports a time below the positive seed time, and a success always rises at least `minUpPitchDeg` |
| Ballistics.Scan | Assets/Scripts/AutomaticTurret.cs:116-131 | the remaining scan never returns a time below the current trial time, nor fewer trials than it has run, and a success it returns has pitch at least the minimum |
| Ballistics.ScanFacts | Assets/Scripts/AutomaticTurret.cs:116-134 | the loop body runs at most `maxSolveIterations` times. A success returns the candidate of its last trial time, with pitch at least the minimum. A failure returns the time after the last trial and its candidate, and stopped on the cap or past `maxFlightTime` |
| Ballistics.ScanPassedOver | Assets/Scripts/AutomaticTurret.cs:121-131 | every trial the scan passed over had a candidate pitch below the minimum, and every adjusted time it went on with was within `maxFlightTime` |
| Ballistics.SolveSuccess | Assets/Scripts/AutomaticTurret.cs:111-134 | on success `v` and `tFinal` come from the same trial: `v` reaches the aim point in `tFinal`, its pitch is at least `minUpPitchDeg`, and `minFlightTime <= tFinal <= maxFlightTime` |
| Ballistics.SolveFailure | Assets/Scripts/AutomaticTurret.cs:113-134 | on failure `tFinal` is the time after the last trial (possibly past `maxFlightTime`). With no iterations allowed the result is the zero vector and the seed; otherwise every trial it tried was rejected |
| Ballistics.SolveBallisticGuaranteed | Assets/Scripts/AutomaticTurret.cs:105-135 | the loop returns exactly the specified solution (flag, velocity, final time), and a returned success rises at least `minUpPitchDeg` |
| Turret.AimPoint | Assets/Scripts/AutomaticTurret.cs:38 | the aimed point is the target's position raised by `aimAboveHeight`, with the horizontal coordinates unchanged |
| Turret.VisualPitch | Assets/Scripts/AutomaticTurret.cs:54 | the pitch the pitch axis is driven to is never below `minUpPitchDeg` nor below the solved pitch, and is one of the two |
| Turret.Shot | Assets/Scripts/AutomaticTurret.cs:72-101 | a bullet is launched if and only if prefab, shoot point and target are set and the solve succeeds. It starts at the shoot point with the solved velocity, which rises at the minimum pitch and reaches the aim point |
| Turret.AutomaticTurret.constructor | Assets/Scripts/AutomaticTurret.cs:7-31 | a fresh turret keeps the target it was given in the inspector (possibly none) and remembers `Vector3.forward` as its last solved velocity |
| Turret.AutomaticTurret.SetTarget | Assets/Scripts/AutomaticTurret.cs:67-70 | the target becomes the given one |
| Turret.AutomaticTurret.Fire | Assets/Scripts/AutomaticTurret.cs:72-101 | returns nothing when a reference is missing or the solve fails, and otherwise the launch `Shot` describes |
| Turret.AutomaticTurret.Update | Assets/Scripts/AutomaticTurret.cs:33-65 | the last solved velocity changes only on a successful solve, and then to the solved one. The targeted pitch is never below the minimum. An unsolved frame leaves the aim alone. The fire key fires a freshly solved shot |
| Health.DeathEvents | Assets/Scripts/Destructible.cs:20-38 | the death branch runs if and only if health after the hit is at or below zero, once per hit, destroying exactly when `destroyOnDeath` |
| Health.TotalDamageGrows | Assets/Scripts/Destructible.cs:18 | with non-negative hits the total damage taken never decreases as hits land |
| Health.DeadStaysDead | Assets/Scripts/Destructible.cs:16-38 | in the death trail a run of `ApplyDamage` calls leaves, once non-negative hits have brought health to zero or below, every later hit adds exactly one death event |
| Health.Destructible.constructor | Assets/Scripts/Destructible.cs:11-14 | after Awake health is `maxHealth`; the settings and the enabled state of collider and renderer are the ones given |
| Health.Destructible.ApplyDamage | Assets/Scripts/Destructible.cs:16-39 | health drops by exactly `dmg` without clamping. At or below zero the object is either marked for destruction or loses the collider and renderer it has. Nothing changes above zero |
| Health.Destructible.ApplyHits | Assets/Scripts/Destructible.cs:16-39 | a sequence of `ApplyDamage` calls lowers health by the total damage and appends exactly the death trail of those hits, so `DeadStaysDead` applies to the object. Once any hit left health at or below zero, the object is marked for destruction or has lost the collider and renderer it has |
| Projectile.FragmentSettings | Assets/Scripts/Bullet.cs:91-97 | a fragment carries the parent's settings with `fragmentOnImpact == false` and `fragmentAfterSeconds == -1`, and nothing else changed |
| Projectile.FragmentSpeed | Assets/Scripts/Bullet.cs:80-82 | every fragment's speed is the magnitude of the rigidbody's velocity, or of `forward * 30` without a rigidbody, times `fragmentSpeedMultiplier` |
| Projectile.Fragmentation | Assets/Scripts/Bullet.cs:78-84 | no fragments when `fragments <= 0` or `fragmentSpeedMultiplier <= 0`, otherwise exactly `fragments` of them |
| Projectile.FragmentationFacts | Assets/Scripts/Bullet.cs:80-100 | each fragment starts at the origin, is turned by its own spread sample, and has speed equal to the magnitude of `baseVel` times `fragmentSpeedMultiplier` and fragment settings. Samples within the spread angle give fragments within it |
| Projectile.Impulses | Assets/Scripts/Bullet.cs:61-65 | there are at most as many impulses as overlapped colliders, each with the bullet's force, the impact point and the radius |
| Projectile.ImpulsesReachAttachedBodies | Assets/Scripts/Bullet.cs:61-65 | a rigidbody receives an impulse if and only if the overlap query returned a collider attached to it |
| Projectile.FinishAppend | Assets/Scripts/Bullet.cs:106-112 | the first Finish adds exactly one finished event and one destroy request to the counts |
| Projectile.FinishedMeansLogged | Assets/Scripts/Bullet.cs:106-112 | under the one-shot counts a bullet is finished if and only if its finished event was raised, and if and only if its destruction was requested |
| Projectile.ImpactEffects | Assets/Scripts/Bullet.cs:56-73 | a collision performs one damage if a Destructible was hit, the impulses only when the explosion is enabled, the fragments only on impact fragmentation, then exactly two finishing effects |
| Projectile.ImpactEffectsOrdered | Assets/Scripts/Bullet.cs:56-73 | a collision's effects come in the order damage, impulses, fragments, finished event, destroy request |
| Projectile.ImpactEffectsFinishLast | Assets/Scripts/Bullet.cs:68-73 | a collision ends with exactly the finished event then the destroy request, and nothing before them is either |
| Projectile.StrikeEffectsBeforeFinish | Assets/Scripts/Bullet.cs:56-71 | nothing a collision does before `Finish` is a finished event or a destroy request |
| Projectile.ImpactDamagesOnce | Assets/Scripts/Bullet.cs:56-57 | damage happens at most once, first, by the bullet's `damage`, and only when a Destructible was hit |
| Projectile.ImpactGates | Assets/Scripts/Bullet.cs:59-71 | impulses only when both `explosionRadius > 0` and `explosionForce > 0`; fragments only with `fragmentOnImpact` |
| Projectile.FragmentsDoNotCascade | Assets/Scripts/Bullet.cs:36-37 | a fragment never arms the delayed timer and its collisions spawn nothing |
| Projectile.QuietAppend | Assets/Scripts/Bullet.cs:56-71 | effects from before Finish add no finished event and no destroy request |
| Projectile.Bullet.constructor | Assets/Scripts/Bullet.cs:26-32 | a fresh bullet is unfinished, has no timer armed and has done nothing |
| Projectile.Bullet.Start | Assets/Scripts/Bullet.cs:34-38 | the delayed fragmentation is armed only when `fragmentAfterSeconds > 0` |
| Projectile.Bullet.Finish | Assets/Scripts/Bullet.cs:106-112 | idempotent: after the first call sets `finished`, later calls raise no event and request no second destroy. Keeps the one-shot invariant |
| Projectile.Bullet.DoFragmentation | Assets/Scripts/Bullet.cs:76-104 | the counted loop appends exactly the specified fragments, in sample order, and nothing else |
| Projectile.Bullet.Strike | Assets/Scripts/Bullet.cs:56-71 | damage, explosion and fragmentation append exactly their effects. The target's settings stay, and its health, death events, destroy request and enabled state follow `ApplyDamage` |
| Projectile.Bullet.DamageTarget | Assets/Scripts/Bullet.cs:56-57 | only a hit Destructible is damaged, by the bullet's damage at the impact point and normal, with the full outcome of `ApplyDamage` |
| Projectile.Bullet.Explode | Assets/Scripts/Bullet.cs:59-66 | the explosion loop appends exactly one impulse per overlapped collider with a rigidbody, in query order |
| Projectile.Bullet.OnCollisionEnter | Assets/Scripts/Bullet.cs:47-74 | nothing at all happens to a finished bullet or its target. Otherwise the effects are exactly the ordered collision effects at the impact point: the first contact's point and normal, or the bullet's position and backward direction without contacts. The target takes the bullet's damage once there with the whole outcome of `ApplyDamage` (death branch included), and the bullet ends finished. Keeps the one-shot invariant |
| Projectile.Bullet.FragmentTimerElapsed | Assets/Scripts/Bullet.cs:40-45 | the timer fragments whether or not the bullet already finished, then finishes it at most once. It fires only while armed and is spent afterwards, as the coroutine runs once |

## Left out

- IEEE single-precision rounding: all arithmetic is over exact reals.
- `Vector3.magnitude`, `Mathf.Atan2` and `Rad2Deg` are host-supplied functions in `Vectors.Geometry`.
  Their values are not modelled.
- Ballistics.SolveBallisticGuaranteed: requires `minFlightTime > 0`, `maxFlightTime > 0` and `timeAdjustStep >= 0`, because the model divides by the trial time over exact reals.
  The float code would divide by zero (or by a negative time) for other settings.
- Turret.AutomaticTurret.Fire and Turret.AutomaticTurret.Update: require the same timing condition, for the same reason.
- Ballistics.SolveBallisticGuaranteed: the displacement and flight-time facts of a success are proved in `SolveSuccess` about the specification the method is shown equal to, not restated in the method's own contract.
- The monotonicity of pitch in the flight time is not proved.
  It depends on gravity, which is an arbitrary vector, and the code does not rely on it.
- Turret.AutomaticTurret.Update: the rotations are not modelled.
  - The `Quaternion.Slerp` smoothing, `LookRotation` and `Euler` are left out; the model states only whether the yaw axis turns and which pitch the pitch axis is driven to.
  - The pitch is the solved velocity's own pitch, not the pitch measured in the yaw axis's current frame.
  - The two agree once the yaw axis faces the velocity's heading.
- Turret.AutomaticTurret.Update: both turret axes are assumed set.
  The C# code dereferences `turretAxisY` and `turretAxisX` without a null check (AutomaticTurret.cs:48, 51, 55); with one missing it throws after `_lastSolvedVelocity` was set, and that frame's `Fire` is skipped.
- Turret.Shot: the launch always carries the solved velocity.
  The C# code sets it only when the instantiated object has a Rigidbody (AutomaticTurret.cs:89-90).
  A prefab carrying `Bullet` always has one (its `RequireComponent`, Bullet.cs:5), but `Fire` also accepts a prefab without `Bullet` (AutomaticTurret.cs:94-95), which may lack it.
- Turret.AutomaticTurret.Fire: the warning logged when the solve fails (AutomaticTurret.cs:81) is left out.
- Turret.AutomaticTurret.Fire: the shoot point's rotation, the camera director's `Follow`, the `OnBulletFinished` subscription and the 30 s lifetime are left out.
- Projectile.Fragmentation: a fragment records the parent's forward direction and its spread sample, not the rotated direction `Quaternion.Euler(pitch, yaw, 0) * forward`.
  It also records its speed rather than the velocity vector.
- Projectile.Bullet.DoFragmentation: the fragment's rigidbody velocity is recorded unconditionally.
  The bullet requires a Rigidbody component, so a fragment always has one.
- `Random.Range` is replaced by spread samples given as inputs.
  Their bounds are a hypothesis of `FragmentationFacts`, not a modelled distribution.
- `Physics.OverlapSphere` is replaced by its result, given as input.
  `AddExplosionForce` falloff with distance is left out; only the impulse call per rigidbody is modelled.
- Impact and death visual effects, the layer mask, and `Destroy` lifetimes (10 s and 30 s) are left out.
- Coroutine timing and `WaitForSeconds` are left out.
- Projectile.Bullet.FragmentTimerElapsed: models the moment the delay has passed.
  In the engine, `Destroy` after an earlier Finish also stops the coroutine; the model does not track object lifetime, so the timer can still fire on a finished bullet.
- The reflection shims `GetRbVelocity`/`SetRbVelocity` become a plain velocity field.
- Health.Destructible.constructor: the enabled state of collider and renderer is a parameter, since Awake does not set it.
- `BulletCameraDirector` and `ClickToSelectTarget` are not part of this model.
