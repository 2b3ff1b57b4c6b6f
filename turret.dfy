/**
 * The AutomaticTurret behaviour around the solver: each tick it re-aims at
 * the target when a solve succeeds, and on the fire key it launches a bullet
 * with a freshly solved velocity, or nothing at all.
 */
module Turret {
  import opened Wrappers
  import opened Vectors
  import opened Ballistics

  /** A bullet instantiated at `position` whose rigidbody is given `velocity`. */
  datatype Launch = Launch(position: Vec3, velocity: Vec3)

  /**
   * What one Update does to the turret's aim. `MissingShootPoint` is the
   * null dereference of an unset shoot point, which ends that Update.
   * `Aimed` says whether the yaw axis turns and which pitch the pitch axis
   * turns toward.
   */
  datatype Aim = NoTarget | MissingShootPoint | Unsolved | Aimed(turnYaw: bool, pitchTargetDeg: real)

  /** `target.position + Vector3.up * aimAboveHeight` */
  function AimPoint(targetPosition: Vec3, aimAboveHeight: real): (p: Vec3)
    ensures p.x == targetPosition.x && p.z == targetPosition.z
    ensures p.y == targetPosition.y + aimAboveHeight
  {
    Add(targetPosition, Scale(aimAboveHeight, Up))
  }

  /** `Mathf.Max(minUpPitchDeg, pitchDeg)`: the pitch the pitch axis is driven to. */
  function VisualPitch(pitchDeg: real, minUpPitchDeg: real): (r: real)
    ensures r >= minUpPitchDeg && r >= pitchDeg
    ensures r == pitchDeg || r == minUpPitchDeg
  {
    if minUpPitchDeg >= pitchDeg then minUpPitchDeg else pitchDeg
  }

  /**
   * The outcome of Fire for the turret's references and tuning: nothing when
   * the prefab, the shoot point or the target is missing or when the solve
   * fails; otherwise a bullet at the shoot point with the solved velocity,
   * which rises at the minimum pitch and reaches the aim point.
   */
  function Shot(hasBulletPrefab: bool, shootPoint: Option<Vec3>, target: Option<Vec3>, aimAboveHeight: real,
                gravity: Vec3, tuning: SolverConfig, geo: Geometry): (r: Option<Launch>)
    requires PositiveTiming(tuning)
    ensures r.Some? <==>
      && hasBulletPrefab && shootPoint.Some? && target.Some?
      && BallisticSolution(shootPoint.value, AimPoint(target.value, aimAboveHeight), gravity, tuning, geo).ok
    ensures r.Some? ==>
      var s := BallisticSolution(r.value.position, AimPoint(target.value, aimAboveHeight), gravity, tuning, geo);
      && r.value.position == shootPoint.value
      && r.value.velocity == s.v
      && geo.pitchDeg(r.value.velocity) >= tuning.minUpPitchDeg
      && Displacement(r.value.velocity, gravity, s.t) == Sub(AimPoint(target.value, aimAboveHeight), shootPoint.value)
  {
    if !hasBulletPrefab || shootPoint.None? || target.None? then None
    else
      var p1 := AimPoint(target.value, aimAboveHeight);
      var s := BallisticSolution(shootPoint.value, p1, gravity, tuning, geo);
      if !s.ok then None
      else
        SolveSuccess(shootPoint.value, p1, gravity, tuning, geo);
        Some(Launch(shootPoint.value, s.v))
  }

  class AutomaticTurret {
    var target: Option<Vec3>
    var shootPoint: Option<Vec3>
    var hasBulletPrefab: bool
    var aimAboveHeight: real
    var tuning: SolverConfig
    var lastSolvedVelocity: Vec3
    /** Physics.gravity */
    const gravity: Vec3
    const geo: Geometry

    /** A turret with its inspector settings; the last solved velocity starts as Vector3.forward. */
    constructor (gravity: Vec3, geo: Geometry, tuning: SolverConfig, aimAboveHeight: real,
                 target: Option<Vec3>, shootPoint: Option<Vec3>, hasBulletPrefab: bool)
      ensures this.gravity == gravity && this.geo == geo && this.tuning == tuning
      ensures this.aimAboveHeight == aimAboveHeight && this.shootPoint == shootPoint
      ensures this.hasBulletPrefab == hasBulletPrefab
      ensures this.target == target && lastSolvedVelocity == Forward
    {
      this.gravity := gravity;
      this.geo := geo;
      this.tuning := tuning;
      this.aimAboveHeight := aimAboveHeight;
      this.shootPoint := shootPoint;
      this.hasBulletPrefab := hasBulletPrefab;
      this.target := target;
      lastSolvedVelocity := Forward;
    }

    method SetTarget(t: Option<Vec3>)
      modifies this`target
      ensures target == t
    {
      target := t;
    }

    /** AutomaticTurret.Fire: solves afresh and launches with that velocity, or returns null. */
    method Fire() returns (bullet: Option<Launch>)
      requires PositiveTiming(tuning)
      ensures bullet == Shot(hasBulletPrefab, shootPoint, target, aimAboveHeight, gravity, tuning, geo)
    {
      if !hasBulletPrefab || shootPoint.None? || target.None? {
        return None;
      }
      var p0 := shootPoint.value;
      var p1 := AimPoint(target.value, aimAboveHeight);
      var ok, v, solvedT := SolveBallisticGuaranteed(p0, p1, gravity, tuning, geo);
      if !ok {
        return None;
      }
      bullet := Some(Launch(p0, v));
    }

    /**
     * AutomaticTurret.Update: re-aims on a successful solve (remembering the
     * solved velocity), leaves everything as it was otherwise, then fires when
     * the fire key went down this frame.
     */
    method Update(fireKeyDown: bool) returns (aim: Aim, fired: Option<Launch>)
      requires PositiveTiming(tuning)
      modifies this`lastSolvedVelocity
      ensures target.None? ==> aim == NoTarget && lastSolvedVelocity == old(lastSolvedVelocity)
      ensures target.Some? && shootPoint.None? ==>
        aim == MissingShootPoint && lastSolvedVelocity == old(lastSolvedVelocity) && fired == None
      ensures target.Some? && shootPoint.Some? ==>
        var s := BallisticSolution(shootPoint.value, AimPoint(target.value, aimAboveHeight), gravity, tuning, geo);
        && (s.ok ==> lastSolvedVelocity == s.v
                     && aim == Aimed(FlatSqrMagnitude(s.v) > 0.0001, VisualPitch(geo.pitchDeg(s.v), tuning.minUpPitchDeg)))
        && (!s.ok ==> lastSolvedVelocity == old(lastSolvedVelocity) && aim == Unsolved)
      ensures lastSolvedVelocity != old(lastSolvedVelocity) ==> aim.Aimed?
      ensures aim.Aimed? ==> aim.pitchTargetDeg >= tuning.minUpPitchDeg
      ensures aim != MissingShootPoint ==>
        fired == if fireKeyDown then Shot(hasBulletPrefab, shootPoint, target, aimAboveHeight, gravity, tuning, geo) else None
    {
      aim := NoTarget;
      fired := None;
      if target.Some? {
        if shootPoint.None? {
          aim := MissingShootPoint;
          return;
        }
        var p0 := shootPoint.value;
        var p1 := AimPoint(target.value, aimAboveHeight);
        var ok, v, solvedT := SolveBallisticGuaranteed(p0, p1, gravity, tuning, geo);
        if ok {
          lastSolvedVelocity := v;
          var turnYaw := FlatSqrMagnitude(v) > 0.0001;
          var pitchDeg := VisualPitch(geo.pitchDeg(v), tuning.minUpPitchDeg);
          aim := Aimed(turnYaw, pitchDeg);
        } else {
          aim := Unsolved;
        }
      }
      if fireKeyDown {
        fired := Fire();
      }
    }
  }
}
