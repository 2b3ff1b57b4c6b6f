/**
 * The bounded ballistic solve of AutomaticTurret.SolveBallisticGuaranteed:
 * seed a flight time from the distance, then scan upward in fixed steps until
 * the unique constant-acceleration launch velocity for that time leaves at
 * least `minUpPitchDeg` above the horizontal.
 */
module Ballistics {
  import opened Vectors

  /** The turret's "Ballistic Time Tuning" fields and its minimum launch pitch. */
  datatype SolverConfig = SolverConfig(
    timePerMeter: real,
    minFlightTime: real,
    maxFlightTime: real,
    timeAdjustStep: real,
    minUpPitchDeg: real,
    maxSolveIterations: int)

  /**
   * Every trial flight time stays positive: the seed is positive whatever the
   * distance, and an adjustment never shrinks the trial time. The model needs
   * this because it divides by the trial time over exact reals.
   */
  predicate PositiveTiming(cfg: SolverConfig) {
    0.0 < cfg.minFlightTime && 0.0 < cfg.maxFlightTime && 0.0 <= cfg.timeAdjustStep
  }

  /** Mathf.Clamp: the lower bound wins when the value is below it, then the upper bound. */
  function Clamp(value: real, lo: real, hi: real): (r: real)
    ensures lo <= hi ==> lo <= r <= hi
    ensures lo <= value <= hi ==> r == value
    ensures r == lo || r == hi || r == value
  {
    if value < lo then lo else if value > hi then hi else value
  }

  /** The first trial flight time: `dist * timePerMeter` clamped into the allowed flight times. */
  function SeedFlightTime(cfg: SolverConfig, dist: real): (t: real)
    ensures cfg.minFlightTime <= cfg.maxFlightTime ==> cfg.minFlightTime <= t <= cfg.maxFlightTime
    ensures PositiveTiming(cfg) ==> t > 0.0
  {
    Clamp(dist * cfg.timePerMeter, cfg.minFlightTime, cfg.maxFlightTime)
  }

  /** Where a body launched with `v` is after `t` seconds under constant acceleration `g`. */
  function Displacement(v: Vec3, g: Vec3, t: real): Vec3 {
    Add(Scale(t, v), Scale(0.5 * t * t, g))
  }

  /** One trial's launch velocity, `(d - 0.5 * g * (t * t)) / t`: it covers `d` in exactly `t` seconds. */
  function Candidate(d: Vec3, g: Vec3, t: real): (v: Vec3)
    requires t != 0.0
    ensures Displacement(v, g, t) == d
  {
    var w := Sub(d, Scale(0.5 * (t * t), g));
    assert t * (w.x / t) == w.x && t * (w.y / t) == w.y && t * (w.z / t) == w.z;
    Div(w, t)
  }

  /** The candidate is the only velocity that covers `d` in time `t`. */
  lemma CandidateIsUnique(v: Vec3, d: Vec3, g: Vec3, t: real)
    requires t != 0.0
    ensures Displacement(v, g, t) == d <==> v == Candidate(d, g, t)
  {
    if Displacement(v, g, t) == d {
      var c := Candidate(d, g, t);
      var h := 0.5 * t * t;
      assert t * v.x + h * g.x == t * c.x + h * g.x;
      assert t * v.y + h * g.y == t * c.y + h * g.y;
      assert t * v.z + h * g.z == t * c.z + h * g.z;
      CancelFactor(t, v.x, c.x);
      CancelFactor(t, v.y, c.y);
      CancelFactor(t, v.z, c.z);
    }
  }

  lemma CancelFactor(t: real, a: real, b: real)
    requires t != 0.0 && t * a == t * b
    ensures a == b
  {
    assert t * (a - b) == 0.0;
  }

  /** The k-th trial flight time of a scan that starts at `t0`. */
  function Trial(t0: real, step: real, k: nat): (t: real)
    ensures step >= 0.0 ==> t >= t0
  {
    t0 + (k as real) * step
  }

  lemma TrialNext(t0: real, step: real, k: nat)
    ensures Trial(t0, step, k) + step == Trial(t0, step, k + 1)
  {
  }

  /**
   * What the solver returns: the success flag, the out-parameters `v` and
   * `tFinal`, and how many times the loop body ran (`trials`, which the
   * C# method does not return).
   */
  datatype Solution = Solution(ok: bool, v: Vec3, t: real, trials: nat)

  /**
   * The solver loop from iteration `i` on, with trial time `t` and last
   * velocity `v`: the loop stops at `maxSolveIterations`, on a velocity whose
   * pitch reaches `minUpPitchDeg`, or when the adjusted time exceeds
   * `maxFlightTime`.
   */
  function Scan(d: Vec3, g: Vec3, cfg: SolverConfig, pitch: Vec3 -> real, t: real, i: nat, v: Vec3): (r: Solution)
    requires t > 0.0 && cfg.timeAdjustStep >= 0.0
    ensures r.t >= t && r.trials >= i
    ensures r.ok ==> pitch(r.v) >= cfg.minUpPitchDeg
    decreases cfg.maxSolveIterations - i
  {
    if i >= cfg.maxSolveIterations then Solution(false, v, t, i)
    else
      var c := Candidate(d, g, t);
      if pitch(c) >= cfg.minUpPitchDeg then Solution(true, c, t, i + 1)
      else if t + cfg.timeAdjustStep > cfg.maxFlightTime then Solution(false, c, t + cfg.timeAdjustStep, i + 1)
      else Scan(d, g, cfg, pitch, t + cfg.timeAdjustStep, i + 1, c)
  }

  /** The whole solve from shooting point `p0` to aim point `p1` under gravity `g`. */
  function BallisticSolution(p0: Vec3, p1: Vec3, g: Vec3, cfg: SolverConfig, geo: Geometry): (r: Solution)
    requires PositiveTiming(cfg)
    ensures r.t >= Seed(p0, p1, cfg, geo) > 0.0
    ensures r.ok ==> geo.pitchDeg(r.v) >= cfg.minUpPitchDeg
  {
    Scan(Sub(p1, p0), g, cfg, geo.pitchDeg, Seed(p0, p1, cfg, geo), 0, Zero)
  }

  /** The seed of a solve from `p0` to `p1`. */
  function Seed(p0: Vec3, p1: Vec3, cfg: SolverConfig, geo: Geometry): real {
    SeedFlightTime(cfg, geo.magnitude(Sub(p1, p0)))
  }

  /**
   * What a scan that reached iteration `i` at trial time `Trial(t0, step, i)`
   * delivers: the iteration bound, the success guarantee, the trial grid, and
   * that no trial it passed over met the pitch bound.
   */
  lemma {:induction false} ScanFacts(d: Vec3, g: Vec3, cfg: SolverConfig, pitch: Vec3 -> real,
                                     t0: real, t: real, i: nat, v: Vec3)
    requires t0 > 0.0 && cfg.timeAdjustStep >= 0.0
    requires t == Trial(t0, cfg.timeAdjustStep, i)
    ensures var r := Scan(d, g, cfg, pitch, t, i, v);
      && i <= r.trials
      && (i < cfg.maxSolveIterations ==> i < r.trials <= cfg.maxSolveIterations)
      && (i >= cfg.maxSolveIterations ==> r == Solution(false, v, t, i))
      && (r.ok ==> i < r.trials
                   && r.t == Trial(t0, cfg.timeAdjustStep, r.trials - 1)
                   && r.v == Candidate(d, g, r.t)
                   && pitch(r.v) >= cfg.minUpPitchDeg)
      && (!r.ok ==> r.t == Trial(t0, cfg.timeAdjustStep, r.trials))
      && (!r.ok && i < r.trials ==>
            && r.v == Candidate(d, g, Trial(t0, cfg.timeAdjustStep, r.trials - 1))
            && (r.trials == cfg.maxSolveIterations || r.t > cfg.maxFlightTime))
    decreases cfg.maxSolveIterations - i
  {
    var step := cfg.timeAdjustStep;
    if i < cfg.maxSolveIterations {
      var c := Candidate(d, g, t);
      if pitch(c) < cfg.minUpPitchDeg && t + step <= cfg.maxFlightTime {
        TrialNext(t0, step, i);
        ScanFacts(d, g, cfg, pitch, t0, t + step, i + 1, c);
        var r := Scan(d, g, cfg, pitch, t + step, i + 1, c);
        if r.trials == i + 1 {
          assert r.v == c && c == Candidate(d, g, Trial(t0, step, r.trials - 1));
        }
      } else if pitch(c) < cfg.minUpPitchDeg {
        TrialNext(t0, step, i);
      }
    }
  }

  /**
   * The trials a scan passed over: each one's candidate stays below the pitch
   * bound, and each adjusted time it went on with was within `maxFlightTime`.
   */
  lemma {:induction false} ScanPassedOver(d: Vec3, g: Vec3, cfg: SolverConfig, pitch: Vec3 -> real,
                                          t0: real, t: real, i: nat, v: Vec3)
    requires t0 > 0.0 && cfg.timeAdjustStep >= 0.0
    requires t == Trial(t0, cfg.timeAdjustStep, i)
    ensures var r := Scan(d, g, cfg, pitch, t, i, v);
      && (forall k: nat | i <= k < r.trials && (k + 1 < r.trials || !r.ok) ::
            pitch(Candidate(d, g, Trial(t0, cfg.timeAdjustStep, k))) < cfg.minUpPitchDeg)
      && (forall k: nat | i < k < r.trials :: Trial(t0, cfg.timeAdjustStep, k) <= cfg.maxFlightTime)
    decreases cfg.maxSolveIterations - i
  {
    var step := cfg.timeAdjustStep;
    if i < cfg.maxSolveIterations {
      var c := Candidate(d, g, t);
      if pitch(c) < cfg.minUpPitchDeg && t + step <= cfg.maxFlightTime {
        TrialNext(t0, step, i);
        ScanPassedOver(d, g, cfg, pitch, t0, t + step, i + 1, c);
      } else if pitch(c) < cfg.minUpPitchDeg {
        TrialNext(t0, step, i);
      }
    }
  }

  /**
   * A successful solve returns the velocity of its last trial: it reaches the
   * aim point in the returned flight time, leaves at the minimum pitch, and
   * that flight time lies within the allowed flight times.
   */
  lemma SolveSuccess(p0: Vec3, p1: Vec3, g: Vec3, cfg: SolverConfig, geo: Geometry)
    requires PositiveTiming(cfg)
    requires BallisticSolution(p0, p1, g, cfg, geo).ok
    ensures var r := BallisticSolution(p0, p1, g, cfg, geo);
      && geo.pitchDeg(r.v) >= cfg.minUpPitchDeg
      && Displacement(r.v, g, r.t) == Sub(p1, p0)
      && r.v == Candidate(Sub(p1, p0), g, r.t)
      && 1 <= r.trials <= cfg.maxSolveIterations
      && r.t == Trial(Seed(p0, p1, cfg, geo), cfg.timeAdjustStep, r.trials - 1)
      && (cfg.minFlightTime <= cfg.maxFlightTime ==> cfg.minFlightTime <= r.t <= cfg.maxFlightTime)
  {
    var d := Sub(p1, p0);
    var seed := Seed(p0, p1, cfg, geo);
    var r := BallisticSolution(p0, p1, g, cfg, geo);
    assert r == Scan(d, g, cfg, geo.pitchDeg, seed, 0, Zero);
    ScanFacts(d, g, cfg, geo.pitchDeg, seed, seed, 0, Zero);
    ScanPassedOver(d, g, cfg, geo.pitchDeg, seed, seed, 0, Zero);
    assert r.v == Candidate(d, g, r.t) && geo.pitchDeg(r.v) >= cfg.minUpPitchDeg;
    assert r.t == Trial(seed, cfg.timeAdjustStep, r.trials - 1);
    if cfg.minFlightTime <= cfg.maxFlightTime {
      assert seed <= r.t;
      if r.trials > 1 {
        assert r.t <= cfg.maxFlightTime;
      } else {
        assert r.t == seed;
      }
    }
  }

  /**
   * A failed solve tried every trial time from the seed in steps of
   * `timeAdjustStep` and found none that rises enough; it stopped on the
   * iteration cap or on an adjusted time past `maxFlightTime`, and reports
   * the time after its last trial. With no iterations allowed it fails at
   * once with the zero vector and the seed.
   */
  lemma SolveFailure(p0: Vec3, p1: Vec3, g: Vec3, cfg: SolverConfig, geo: Geometry)
    requires PositiveTiming(cfg)
    requires !BallisticSolution(p0, p1, g, cfg, geo).ok
    ensures var r := BallisticSolution(p0, p1, g, cfg, geo);
      var seed := Seed(p0, p1, cfg, geo);
      && r.t == Trial(seed, cfg.timeAdjustStep, r.trials)
      && (cfg.maxSolveIterations <= 0 ==> r.trials == 0 && r.v == Zero && r.t == seed)
      && (cfg.maxSolveIterations > 0 ==>
            && 1 <= r.trials <= cfg.maxSolveIterations
            && r.v == Candidate(Sub(p1, p0), g, Trial(seed, cfg.timeAdjustStep, r.trials - 1))
            && (r.trials == cfg.maxSolveIterations || r.t > cfg.maxFlightTime))
      && (forall k: nat | k < r.trials ::
            geo.pitchDeg(Candidate(Sub(p1, p0), g, Trial(seed, cfg.timeAdjustStep, k))) < cfg.minUpPitchDeg)
  {
    var seed := Seed(p0, p1, cfg, geo);
    ScanFacts(Sub(p1, p0), g, cfg, geo.pitchDeg, seed, seed, 0, Zero);
    ScanPassedOver(Sub(p1, p0), g, cfg, geo.pitchDeg, seed, seed, 0, Zero);
  }

  /** AutomaticTurret.SolveBallisticGuaranteed, with gravity and the host's measures as inputs. */
  method SolveBallisticGuaranteed(p0: Vec3, p1: Vec3, g: Vec3, cfg: SolverConfig, geo: Geometry)
    returns (ok: bool, v: Vec3, tFinal: real)
    requires PositiveTiming(cfg)
    ensures var r := BallisticSolution(p0, p1, g, cfg, geo);
      ok == r.ok && v == r.v && tFinal == r.t
    ensures ok ==> geo.pitchDeg(v) >= cfg.minUpPitchDeg
  {
    var d := Sub(p1, p0);
    var dist := geo.magnitude(d);
    var t := SeedFlightTime(cfg, dist);
    v := Zero;
    ok := false;
    var i := 0;
    while i < cfg.maxSolveIterations
      invariant t > 0.0 && !ok
      invariant Scan(d, g, cfg, geo.pitchDeg, t, i, v) == BallisticSolution(p0, p1, g, cfg, geo)
      decreases cfg.maxSolveIterations - i
    {
      v := Candidate(d, g, t);
      if geo.pitchDeg(v) >= cfg.minUpPitchDeg {
        ok := true;
        break;
      }
      t := t + cfg.timeAdjustStep;
      if t > cfg.maxFlightTime {
        break;
      }
      i := i + 1;
    }
    tFinal := t;
  }
}
