/**
 * Bullet: a projectile that ends exactly once. On its first collision it
 * damages what it hit, pushes the rigidbodies around the impact when it is
 * explosive, fragments when told to, and finishes; a delayed timer can
 * fragment and finish it instead. Fragments are copies of the bullet that
 * never fragment again.
 */
module Projectile {
  import opened Wrappers
  import opened Vectors
  import Health

  /** The bullet's inspector fields. */
  datatype Settings = Settings(
    damage: real,
    explosionForce: real,
    explosionRadius: real,
    fragmentOnImpact: bool,
    fragments: int,
    fragmentSpreadAngle: real,
    fragmentSpeedMultiplier: real,
    fragmentAfterSeconds: real)

  /** One fragment's random yaw and pitch offsets, in degrees. */
  datatype Spread = Spread(yawDeg: real, pitchDeg: real)

  /**
   * A spawned fragment: a copy of the bullet placed at `origin`, heading along
   * `forward` turned by `spread`, given `speed`, with its own settings.
   */
  datatype Fragment = Fragment(origin: Vec3, forward: Vec3, spread: Spread, speed: real, settings: Settings)

  datatype ContactPoint = ContactPoint(point: Vec3, normal: Vec3)

  /** The bullet's observable side effects, in the order it performs them. */
  datatype Effect =
    | Damaged(amount: real)
    | Impulse(body: nat, force: real, center: Vec3, radius: real)
    | Spawned(fragment: Fragment)
    | FinishedRaised
    | DestroyRequested

  /** Start arms the delayed fragmentation only for a positive delay. */
  predicate TimerGate(s: Settings) {
    s.fragmentAfterSeconds > 0.0
  }

  predicate ExplosionGate(s: Settings) {
    s.explosionRadius > 0.0 && s.explosionForce > 0.0
  }

  predicate FragmentGate(s: Settings) {
    s.fragments > 0 && s.fragmentSpeedMultiplier > 0.0
  }

  /** `a` lies between `-spread` and `spread`, as Random.Range(-spread, spread) returns. */
  predicate InSpread(a: real, spread: real) {
    -spread <= a <= spread || spread <= a <= -spread
  }

  predicate SpreadWithin(sp: Spread, spread: real) {
    InSpread(sp.yawDeg, spread) && InSpread(sp.pitchDeg, spread)
  }

  /** The settings a fragment carries: the parent's, with both ways to fragment switched off. */
  function FragmentSettings(s: Settings): (c: Settings)
    ensures !c.fragmentOnImpact && c.fragmentAfterSeconds == -1.0 && !TimerGate(c)
    ensures c.damage == s.damage && c.explosionForce == s.explosionForce && c.explosionRadius == s.explosionRadius
    ensures c.fragments == s.fragments && c.fragmentSpreadAngle == s.fragmentSpreadAngle
    ensures c.fragmentSpeedMultiplier == s.fragmentSpeedMultiplier
  {
    s.(fragmentOnImpact := false, fragmentAfterSeconds := -1.0)
  }

  /** The velocity fragment speeds derive from: the rigidbody's, or `forward * 30` without one. */
  function BaseVelocity(hasRigidbody: bool, velocity: Vec3, forward: Vec3): Vec3 {
    if hasRigidbody then velocity else Scale(30.0, forward)
  }

  /** The fragments DoFragmentation spawns, one per random spread sample. */
  function Fragmentation(s: Settings, baseVel: Vec3, origin: Vec3, forward: Vec3, samples: seq<Spread>,
                         magnitude: Vec3 -> real): (r: seq<Fragment>)
    requires FragmentGate(s) ==> s.fragments <= |samples|
    ensures FragmentGate(s) ==> |r| == s.fragments
    ensures !FragmentGate(s) ==> r == []
  {
    if !FragmentGate(s) then []
    else
      var speed := magnitude(baseVel) * s.fragmentSpeedMultiplier;
      seq(s.fragments, i requires 0 <= i < s.fragments =>
        Fragment(origin, forward, samples[i], speed, FragmentSettings(s)))
  }

  /**
   * Every fragment starts at `origin` heading along `forward`, turned by its
   * own spread sample, at the base speed times the multiplier, and carries
   * the parent's settings with fragmentation switched off; spread samples
   * within the spread angle give fragments within it.
   */
  lemma FragmentationFacts(s: Settings, baseVel: Vec3, origin: Vec3, forward: Vec3, samples: seq<Spread>,
                           magnitude: Vec3 -> real)
    requires FragmentGate(s) ==> s.fragments <= |samples|
    ensures var r := Fragmentation(s, baseVel, origin, forward, samples, magnitude);
      && (forall i :: 0 <= i < |r| ==> r[i].spread == samples[i])
      && (forall f <- r ::
            && f.origin == origin && f.forward == forward
            && f.speed == magnitude(baseVel) * s.fragmentSpeedMultiplier
            && f.settings == FragmentSettings(s))
      && ((forall sp <- samples :: SpreadWithin(sp, s.fragmentSpreadAngle)) ==>
            forall f <- r :: SpreadWithin(f.spread, s.fragmentSpreadAngle))
  {
    var r := Fragmentation(s, baseVel, origin, forward, samples, magnitude);
    forall i | 0 <= i < |r|
      ensures r[i].spread == samples[i] && r[i].origin == origin && r[i].forward == forward
      ensures r[i].speed == magnitude(baseVel) * s.fragmentSpeedMultiplier && r[i].settings == FragmentSettings(s)
    {
    }
    assert forall f <- r :: exists i :: 0 <= i < |r| && f == r[i];
    if forall sp <- samples :: SpreadWithin(sp, s.fragmentSpreadAngle) {
      forall f <- r ensures SpreadWithin(f.spread, s.fragmentSpreadAngle) {
        var i :| 0 <= i < |r| && f == r[i];
        assert samples[i] in samples;
      }
    }
  }

  /**
   * The speed every fragment of a bullet gets: the magnitude of its
   * rigidbody's velocity, or of `forward * 30` without a rigidbody, times
   * the speed multiplier.
   */
  lemma FragmentSpeed(s: Settings, hasRigidbody: bool, velocity: Vec3, origin: Vec3, forward: Vec3,
                      samples: seq<Spread>, magnitude: Vec3 -> real)
    requires FragmentGate(s) ==> s.fragments <= |samples|
    ensures forall f <- Fragmentation(s, BaseVelocity(hasRigidbody, velocity, forward), origin, forward, samples, magnitude) ::
      f.speed == (if hasRigidbody then magnitude(velocity) else magnitude(Scale(30.0, forward))) * s.fragmentSpeedMultiplier
  {
    FragmentationFacts(s, BaseVelocity(hasRigidbody, velocity, forward), origin, forward, samples, magnitude);
  }

  /** One spawn effect per fragment, in order. */
  function Spawns(fs: seq<Fragment>): seq<Effect> {
    seq(|fs|, i requires 0 <= i < |fs| => Spawned(fs[i]))
  }

  /**
   * One explosion impulse per overlapping collider that has an attached
   * rigidbody (`None` marks a collider without one), in the order the
   * overlap query returned them.
   */
  function Impulses(overlap: seq<Option<nat>>, force: real, center: Vec3, radius: real): (r: seq<Effect>)
    ensures |r| <= |overlap|
    ensures forall e <- r :: e.Impulse? && e.force == force && e.center == center && e.radius == radius
  {
    if overlap == [] then []
    else
      var last := overlap[|overlap| - 1];
      Impulses(overlap[..|overlap| - 1], force, center, radius)
        + (if last.Some? then [Impulse(last.value, force, center, radius)] else [])
  }

  /** Exactly the rigidbodies the overlap query found receive an impulse. */
  lemma {:induction false} ImpulsesReachAttachedBodies(overlap: seq<Option<nat>>, force: real, center: Vec3,
                                                       radius: real, b: nat)
    ensures Some(b) in overlap <==> Impulse(b, force, center, radius) in Impulses(overlap, force, center, radius)
  {
    if overlap != [] {
      var front := overlap[..|overlap| - 1];
      assert overlap == front + [overlap[|overlap| - 1]];
      ImpulsesReachAttachedBodies(front, force, center, radius, b);
    }
  }

  /** What Finish adds: the finished event and the destroy request, the first time only. */
  function FinishEffects(finished: bool): seq<Effect> {
    if finished then [] else [FinishedRaised, DestroyRequested]
  }

  /**
   * The effects of a collision on an unfinished bullet, given whether it hit
   * a Destructible, the impact point, the overlap query's result and the
   * fragments DoFragmentation would spawn.
   */
  function DamagePart(s: Settings, hitsDestructible: bool): seq<Effect> {
    if hitsDestructible then [Damaged(s.damage)] else []
  }

  function ImpulsePart(s: Settings, point: Vec3, overlap: seq<Option<nat>>): seq<Effect> {
    if ExplosionGate(s) then Impulses(overlap, s.explosionForce, point, s.explosionRadius) else []
  }

  function SpawnPart(s: Settings, fragments: seq<Fragment>): seq<Effect> {
    if s.fragmentOnImpact then Spawns(fragments) else []
  }

  function StrikeEffects(s: Settings, hitsDestructible: bool, point: Vec3, overlap: seq<Option<nat>>,
                         fragments: seq<Fragment>): seq<Effect>
  {
    DamagePart(s, hitsDestructible) + ImpulsePart(s, point, overlap) + SpawnPart(s, fragments)
  }

  function ImpactEffects(s: Settings, hitsDestructible: bool, point: Vec3, overlap: seq<Option<nat>>,
                         fragments: seq<Fragment>): (r: seq<Effect>)
    ensures |r| == (if hitsDestructible then 1 else 0)
      + (if ExplosionGate(s) then |Impulses(overlap, s.explosionForce, point, s.explosionRadius)| else 0)
      + (if s.fragmentOnImpact then |fragments| else 0) + 2
  {
    StrikeEffects(s, hitsDestructible, point, overlap, fragments) + FinishEffects(false)
  }

  /** The stage an effect belongs to; a collision's effects never go back to an earlier stage. */
  function Stage(e: Effect): nat {
    match e
    case Damaged(_) => 0
    case Impulse(_, _, _, _) => 1
    case Spawned(_) => 2
    case FinishedRaised => 3
    case DestroyRequested => 4
  }

  predicate InStageOrder(es: seq<Effect>) {
    forall i, j :: 0 <= i < j < |es| ==> Stage(es[i]) <= Stage(es[j])
  }

  /** A collision's effects come in the order damage, impulses, fragments, finished event, destroy request. */
  lemma ImpactEffectsOrdered(s: Settings, hitsDestructible: bool, point: Vec3, overlap: seq<Option<nat>>,
                             fragments: seq<Fragment>)
    ensures InStageOrder(ImpactEffects(s, hitsDestructible, point, overlap, fragments))
  {
    var a := DamagePart(s, hitsDestructible);
    var b := ImpulsePart(s, point, overlap);
    var c := SpawnPart(s, fragments);
    assert forall e <- b :: Stage(e) == 1;
    assert forall e <- c :: Stage(e) == 2;
    StagesInOrder(a, b, c);
  }

  /** Damage, then impulses, then spawns, then Finish's two effects: in stage order. */
  lemma StagesInOrder(a: seq<Effect>, b: seq<Effect>, c: seq<Effect>)
    requires forall e <- a :: Stage(e) == 0
    requires forall e <- b :: Stage(e) == 1
    requires forall e <- c :: Stage(e) == 2
    ensures InStageOrder(a + b + c + FinishEffects(false))
  {
    UniformInStageOrder(a, 0);
    AppendStage(a, b, 1);
    AppendStage(a + b, c, 2);
    ConcatInStageOrder(a + b + c, FinishEffects(false), 3);
  }

  /** Appending effects of one stage `k` to ordered effects of stages up to `k` keeps the order. */
  lemma AppendStage(x: seq<Effect>, y: seq<Effect>, k: nat)
    requires InStageOrder(x) && forall e <- x :: Stage(e) <= k
    requires forall e <- y :: Stage(e) == k
    ensures InStageOrder(x + y) && forall e <- x + y :: Stage(e) <= k
  {
    UniformInStageOrder(y, k);
    ConcatInStageOrder(x, y, k);
  }

  /** A collision ends with one finished event followed by one destroy request, and only then. */
  lemma ImpactEffectsFinishLast(s: Settings, hitsDestructible: bool, point: Vec3, overlap: seq<Option<nat>>,
                                fragments: seq<Fragment>)
    ensures var r := ImpactEffects(s, hitsDestructible, point, overlap, fragments);
      && |r| >= 2 && r[|r| - 2] == FinishedRaised && r[|r| - 1] == DestroyRequested
      && (forall i :: 0 <= i < |r| - 2 ==> Stage(r[i]) <= 2)
  {
    var front := StrikeEffects(s, hitsDestructible, point, overlap, fragments);
    var r := front + FinishEffects(false);
    StrikeEffectsBeforeFinish(s, hitsDestructible, point, overlap, fragments);
    assert forall i :: 0 <= i < |front| ==> r[i] == front[i] && r[i] in front;
  }

  /** Nothing a collision does before Finish is a finished event or a destroy request. */
  lemma StrikeEffectsBeforeFinish(s: Settings, hitsDestructible: bool, point: Vec3, overlap: seq<Option<nat>>,
                                  fragments: seq<Fragment>)
    ensures forall e <- StrikeEffects(s, hitsDestructible, point, overlap, fragments) :: Stage(e) <= 2
  {
    var b := ImpulsePart(s, point, overlap);
    var c := SpawnPart(s, fragments);
    assert forall e <- b :: Stage(e) == 1;
    assert forall e <- c :: Stage(e) == 2;
  }

  /** How often `e` occurs in `log`. */
  function Occurrences(log: seq<Effect>, e: Effect): nat {
    if log == [] then 0
    else Occurrences(log[..|log| - 1], e) + (if log[|log| - 1] == e then 1 else 0)
  }

  lemma {:induction false} OccurrencesAppend(a: seq<Effect>, b: seq<Effect>, e: Effect)
    ensures Occurrences(a + b, e) == Occurrences(a, e) + Occurrences(b, e)
    decreases |b|
  {
    if b != [] {
      var front := b[..|b| - 1];
      assert (a + b)[..|a + b| - 1] == a + front;
      assert (a + b)[|a + b| - 1] == b[|b| - 1];
      OccurrencesAppend(a, front, e);
    } else {
      assert a + b == a;
    }
  }

  lemma {:induction false} OccurrencesAbsent(es: seq<Effect>, e: Effect)
    requires e !in es
    ensures Occurrences(es, e) == 0
    decreases |es|
  {
    if es != [] {
      var front := es[..|es| - 1];
      assert forall x <- front :: x in es;
      OccurrencesAbsent(front, e);
    }
  }

  /** `e` occurs in `es` exactly when it is counted there. */
  lemma {:induction false} OccurrencesIn(es: seq<Effect>, e: Effect)
    ensures Occurrences(es, e) > 0 <==> e in es
    decreases |es|
  {
    if es != [] {
      var front := es[..|es| - 1];
      assert es == front + [es[|es| - 1]];
      OccurrencesIn(front, e);
    }
  }

  /**
   * Under the one-shot count of a bullet, finishing is the same as having
   * raised the finished event, and the same as having requested destruction.
   */
  lemma FinishedMeansLogged(log: seq<Effect>, finished: bool)
    requires FinishCounts(log) == if finished then (1, 1) else (0, 0)
    ensures finished <==> FinishedRaised in log
    ensures finished <==> DestroyRequested in log
  {
    OccurrencesIn(log, FinishedRaised);
    OccurrencesIn(log, DestroyRequested);
  }

  /** How often the finished event and the destroy request occur in `log`. */
  function FinishCounts(log: seq<Effect>): (nat, nat) {
    (Occurrences(log, FinishedRaised), Occurrences(log, DestroyRequested))
  }

  /** Appending effects from the stages before Finish leaves both counts as they were. */
  lemma QuietAppend(log: seq<Effect>, es: seq<Effect>)
    requires forall e <- es :: Stage(e) <= 2
    ensures FinishCounts(log + es) == FinishCounts(log)
  {
    OccurrencesAbsent(es, FinishedRaised);
    OccurrencesAbsent(es, DestroyRequested);
    OccurrencesAppend(log, es, FinishedRaised);
    OccurrencesAppend(log, es, DestroyRequested);
  }

  /** Finish's own effects add one finished event and one destroy request. */
  lemma FinishAppend(log: seq<Effect>)
    ensures FinishCounts(log + FinishEffects(false)) == (FinishCounts(log).0 + 1, FinishCounts(log).1 + 1)
  {
    var f := FinishEffects(false);
    assert f[..1] == [FinishedRaised] && [FinishedRaised][..0] == [];
    OccurrencesAppend(log, f, FinishedRaised);
    OccurrencesAppend(log, f, DestroyRequested);
  }

  /** A collision damages at most once: first, by the bullet's damage, and only when it hit a Destructible. */
  lemma ImpactDamagesOnce(s: Settings, hitsDestructible: bool, point: Vec3, overlap: seq<Option<nat>>,
                          fragments: seq<Fragment>)
    ensures var r := ImpactEffects(s, hitsDestructible, point, overlap, fragments);
      && |r| >= 2
      && (r[0].Damaged? <==> hitsDestructible)
      && (forall e <- r :: e.Damaged? ==> e.amount == s.damage)
      && (forall i :: 1 <= i < |r| ==> !r[i].Damaged?)
  {
    var b := ImpulsePart(s, point, overlap);
    var c := SpawnPart(s, fragments);
    assert forall e <- b :: e.Impulse?;
    assert forall e <- c :: e.Spawned?;
    DamageLeads(DamagePart(s, hitsDestructible), b, c, s.damage);
  }

  /** An optional single damage effect, then impulses, spawns and Finish's effects: damage can only come first. */
  lemma DamageLeads(a: seq<Effect>, b: seq<Effect>, c: seq<Effect>, amount: real)
    requires a == [] || a == [Damaged(amount)]
    requires forall e <- b :: e.Impulse?
    requires forall e <- c :: e.Spawned?
    ensures var r := a + b + c + FinishEffects(false);
      && |r| >= 2
      && (r[0].Damaged? <==> a != [])
      && (forall e <- r :: e.Damaged? ==> e.amount == amount)
      && (forall i :: 1 <= i < |r| ==> !r[i].Damaged?)
  {
    var rest := b + c + FinishEffects(false);
    var r := a + b + c + FinishEffects(false);
    assert r == a + rest;
    assert forall e <- rest :: !e.Damaged?;
    forall i | 1 <= i < |r| ensures !r[i].Damaged? {
      if a != [] {
        assert r[i] == rest[i - 1] && r[i] in rest;
      } else {
        assert r[i] == rest[i] && r[i] in rest;
      }
    }
    assert !rest[0].Damaged? by {
      assert rest[0] in rest;
    }
  }

  /** A collision pushes bodies only when explosive and spawns fragments only when it fragments on impact. */
  lemma ImpactGates(s: Settings, hitsDestructible: bool, point: Vec3, overlap: seq<Option<nat>>,
                    fragments: seq<Fragment>)
    ensures var r := ImpactEffects(s, hitsDestructible, point, overlap, fragments);
      && (forall e <- r :: e.Impulse? ==> ExplosionGate(s))
      && (forall e <- r :: e.Spawned? ==> s.fragmentOnImpact)
  {
  }

  lemma UniformInStageOrder(es: seq<Effect>, k: nat)
    requires forall e <- es :: Stage(e) == k
    ensures InStageOrder(es)
  {
    forall i, j | 0 <= i < j < |es|
      ensures Stage(es[i]) <= Stage(es[j])
    {
      assert es[i] in es && es[j] in es;
    }
  }

  lemma ConcatInStageOrder(x: seq<Effect>, y: seq<Effect>, k: nat)
    requires InStageOrder(x) && InStageOrder(y)
    requires forall e <- x :: Stage(e) <= k
    requires forall e <- y :: k <= Stage(e)
    ensures InStageOrder(x + y)
  {
    var z := x + y;
    forall i, j | 0 <= i < j < |z|
      ensures Stage(z[i]) <= Stage(z[j])
    {
      if j < |x| {
        assert z[i] == x[i] && z[j] == x[j];
      } else if i >= |x| {
        assert z[i] == y[i - |x|] && z[j] == y[j - |x|];
      } else {
        assert z[i] == x[i] && z[j] == y[j - |x|];
        assert z[i] in x && z[j] in y;
      }
    }
  }

  /**
   * Fragments end the cascade: a fragment never arms the delayed timer, and
   * its own collisions spawn nothing.
   */
  lemma FragmentsDoNotCascade(f: Fragment, hitsDestructible: bool, point: Vec3, overlap: seq<Option<nat>>,
                              fragments: seq<Fragment>, s: Settings, baseVel: Vec3, origin: Vec3, forward: Vec3,
                              samples: seq<Spread>, magnitude: Vec3 -> real)
    requires FragmentGate(s) ==> s.fragments <= |samples|
    requires f in Fragmentation(s, baseVel, origin, forward, samples, magnitude)
    ensures !TimerGate(f.settings)
    ensures forall e <- ImpactEffects(f.settings, hitsDestructible, point, overlap, fragments) :: !e.Spawned?
  {
    FragmentationFacts(s, baseVel, origin, forward, samples, magnitude);
    ImpactGates(f.settings, hitsDestructible, point, overlap, fragments);
  }

  /** The impact point and normal: the first contact's, or the bullet's position and backward direction. */
  function ImpactPoint(contacts: seq<ContactPoint>, position: Vec3): Vec3 {
    if |contacts| > 0 then contacts[0].point else position
  }

  function ImpactNormal(contacts: seq<ContactPoint>, forward: Vec3): Vec3 {
    if |contacts| > 0 then contacts[0].normal else Neg(forward)
  }

  lemma AppendAssoc(a: seq<Effect>, b: seq<Effect>, c: seq<Effect>)
    ensures a + b + c == a + (b + c)
  {
  }

  class Bullet {
    var settings: Settings
    /** `_rb != null` */
    var hasRigidbody: bool
    /** The rigidbody's linear velocity. */
    var velocity: Vec3
    var position: Vec3
    var forward: Vec3
    var finished: bool
    /** The FragmentTimer coroutine has been started and has not run yet. */
    var timerArmed: bool
    /** Every effect this bullet has performed, in order. */
    var log: seq<Effect>
    /** Vector3.magnitude */
    const magnitude: Vec3 -> real

    /**
     * The one-shot finish: the finished event and the destroy request have
     * each happened exactly once if the bullet finished, and never before.
     */
    ghost predicate Valid()
      reads this
    {
      FinishCounts(log) == if finished then (1, 1) else (0, 0)
    }

    /** A bullet with its inspector settings and transform, after Awake looked up its rigidbody. */
    constructor (settings: Settings, hasRigidbody: bool, velocity: Vec3, position: Vec3, forward: Vec3,
                 magnitude: Vec3 -> real)
      ensures this.settings == settings && this.hasRigidbody == hasRigidbody && this.velocity == velocity
      ensures this.position == position && this.forward == forward && this.magnitude == magnitude
      ensures !finished && !timerArmed && log == []
      ensures Valid()
    {
      this.settings := settings;
      this.hasRigidbody := hasRigidbody;
      this.velocity := velocity;
      this.position := position;
      this.forward := forward;
      this.magnitude := magnitude;
      finished := false;
      timerArmed := false;
      log := [];
    }

    /** Bullet.Start: arms the delayed fragmentation only for a positive delay. */
    method Start()
      modifies this`timerArmed
      ensures timerArmed == (old(timerArmed) || TimerGate(settings))
    {
      if settings.fragmentAfterSeconds > 0.0 {
        timerArmed := true;
      }
    }

    /** Bullet.Finish: raises the finished event and requests destruction, once. */
    method Finish()
      requires Valid()
      modifies this`finished, this`log
      ensures Valid()
      ensures finished
      ensures log == old(log) + FinishEffects(old(finished))
    {
      if finished {
        return;
      }
      finished := true;
      log := log + [FinishedRaised];
      log := log + [DestroyRequested];
      assert log == old(log) + FinishEffects(false);
      FinishAppend(old(log));
    }

    /**
     * Bullet.DoFragmentation: nothing without a positive count and speed
     * multiplier; otherwise exactly `fragments` copies of this bullet that
     * never fragment, each turned by its own spread sample and given the
     * base speed times the multiplier.
     */
    method DoFragmentation(origin: Vec3, fwd: Vec3, samples: seq<Spread>)
      requires FragmentGate(settings) ==> settings.fragments <= |samples|
      modifies this`log
      ensures log == old(log)
        + Spawns(Fragmentation(settings, BaseVelocity(hasRigidbody, velocity, fwd), origin, fwd, samples, magnitude))
      ensures FinishCounts(log) == FinishCounts(old(log))
    {
      if settings.fragments <= 0 || settings.fragmentSpeedMultiplier <= 0.0 {
        return;
      }
      var baseVel := if hasRigidbody then velocity else Scale(30.0, fwd);
      var speed := magnitude(baseVel) * settings.fragmentSpeedMultiplier;
      ghost var frags := Fragmentation(settings, baseVel, origin, fwd, samples, magnitude);
      FragmentationFacts(settings, baseVel, origin, fwd, samples, magnitude);
      var i := 0;
      while i < settings.fragments
        invariant 0 <= i <= settings.fragments
        invariant log == old(log) + Spawns(frags[..i])
      {
        var yaw := samples[i].yawDeg;
        var pitch := samples[i].pitchDeg;
        var child := settings.(fragmentOnImpact := false, fragmentAfterSeconds := -1.0);
        var frag := Fragment(origin, fwd, Spread(yaw, pitch), speed, child);
        assert frag == frags[i];
        assert Spawns(frags[..i + 1]) == Spawns(frags[..i]) + [Spawned(frag)];
        log := log + [Spawned(frag)];
        i := i + 1;
      }
      assert frags[..i] == frags;
      assert forall e <- Spawns(frags) :: Stage(e) == 2;
      QuietAppend(old(log), Spawns(frags));
    }

    /**
     * Bullet.OnCollisionEnter: no effect at all on a finished bullet;
     * otherwise damage to the Destructible hit (if any), the explosion gate
     * and its impulses, fragmentation when on impact, then Finish.
     */
    method OnCollisionEnter(contacts: seq<ContactPoint>, target: Health.Destructible?,
                            overlap: seq<Option<nat>>, samples: seq<Spread>)
      requires Valid()
      requires settings.fragmentOnImpact && FragmentGate(settings) ==> settings.fragments <= |samples|
      modifies this`log, this`finished, target
      ensures Valid()
      ensures old(finished) ==> log == old(log) && finished
      ensures old(finished) && target != null ==> unchanged(target)
      ensures !old(finished) ==>
        var point := ImpactPoint(contacts, position);
        && finished
        && log == old(log) + ImpactEffects(settings, target != null, point, overlap,
             if settings.fragmentOnImpact
             then Fragmentation(settings, BaseVelocity(hasRigidbody, velocity, forward), point, forward, samples, magnitude)
             else [])
      ensures !old(finished) && target != null ==>
        && target.maxHealth == old(target.maxHealth) && target.destroyOnDeath == old(target.destroyOnDeath)
        && target.hasDeathVfx == old(target.hasDeathVfx)
        && target.hasCollider == old(target.hasCollider) && target.hasRenderer == old(target.hasRenderer)
        && target.health == old(target.health) - settings.damage
        && target.log == old(target.log) + Health.DeathEvents(target.health, target.destroyOnDeath, target.hasDeathVfx,
             ImpactPoint(contacts, position), ImpactNormal(contacts, forward))
        && target.destroyRequested == (old(target.destroyRequested) || (target.health <= 0.0 && target.destroyOnDeath))
        && target.colliderEnabled
           == (old(target.colliderEnabled) && !(target.health <= 0.0 && !target.destroyOnDeath && target.hasCollider))
        && target.rendererEnabled
           == (old(target.rendererEnabled) && !(target.health <= 0.0 && !target.destroyOnDeath && target.hasRenderer))
    {
      if finished {
        return;
      }
      var point := if |contacts| > 0 then contacts[0].point else position;
      var normal := if |contacts| > 0 then contacts[0].normal else Neg(forward);
      ghost var frags := if settings.fragmentOnImpact
        then Fragmentation(settings, BaseVelocity(hasRigidbody, velocity, forward), point, forward, samples, magnitude)
        else [];
      Strike(target, point, normal, overlap, samples);
      Finish();
      AppendAssoc(old(log), StrikeEffects(settings, target != null, point, overlap, frags), FinishEffects(false));
    }

    /** Everything OnCollisionEnter does before Finish: damage, the explosion, fragmentation on impact. */
    method Strike(target: Health.Destructible?, point: Vec3, normal: Vec3, overlap: seq<Option<nat>>,
                  samples: seq<Spread>)
      requires settings.fragmentOnImpact && FragmentGate(settings) ==> settings.fragments <= |samples|
      modifies this`log, target
      ensures log == old(log) + StrikeEffects(settings, target != null, point, overlap,
        if settings.fragmentOnImpact
        then Fragmentation(settings, BaseVelocity(hasRigidbody, velocity, forward), point, forward, samples, magnitude)
        else [])
      ensures target != null ==>
        && target.maxHealth == old(target.maxHealth) && target.destroyOnDeath == old(target.destroyOnDeath)
        && target.hasDeathVfx == old(target.hasDeathVfx)
        && target.hasCollider == old(target.hasCollider) && target.hasRenderer == old(target.hasRenderer)
        && target.health == old(target.health) - settings.damage
        && target.log == old(target.log) + Health.DeathEvents(target.health, target.destroyOnDeath, target.hasDeathVfx,
             point, normal)
        && target.destroyRequested == (old(target.destroyRequested) || (target.health <= 0.0 && target.destroyOnDeath))
        && target.colliderEnabled
           == (old(target.colliderEnabled) && !(target.health <= 0.0 && !target.destroyOnDeath && target.hasCollider))
        && target.rendererEnabled
           == (old(target.rendererEnabled) && !(target.health <= 0.0 && !target.destroyOnDeath && target.hasRenderer))
      ensures FinishCounts(log) == FinishCounts(old(log))
    {
      ghost var frags := if settings.fragmentOnImpact
        then Fragmentation(settings, BaseVelocity(hasRigidbody, velocity, forward), point, forward, samples, magnitude)
        else [];
      DamageTarget(target, point, normal);
      ghost var afterDamage := log;
      assert afterDamage == old(log) + DamagePart(settings, target != null);
      if settings.explosionRadius > 0.0 && settings.explosionForce > 0.0 {
        Explode(point, overlap);
      }
      ghost var afterBlast := log;
      assert afterBlast == afterDamage + ImpulsePart(settings, point, overlap);
      if settings.fragmentOnImpact {
        DoFragmentation(point, forward, samples);
      }
      assert log == afterBlast + SpawnPart(settings, frags);
      AppendAssoc(old(log), DamagePart(settings, target != null), ImpulsePart(settings, point, overlap));
      AppendAssoc(old(log), DamagePart(settings, target != null) + ImpulsePart(settings, point, overlap),
                  SpawnPart(settings, frags));
      StrikeEffectsBeforeFinish(settings, target != null, point, overlap, frags);
      QuietAppend(old(log), StrikeEffects(settings, target != null, point, overlap, frags));
    }

    /** The damage step of OnCollisionEnter: the Destructible hit, if any, takes the bullet's damage. */
    method DamageTarget(target: Health.Destructible?, point: Vec3, normal: Vec3)
      modifies this`log, target
      ensures log == old(log) + DamagePart(settings, target != null)
      ensures target != null ==>
        && target.maxHealth == old(target.maxHealth) && target.destroyOnDeath == old(target.destroyOnDeath)
        && target.hasDeathVfx == old(target.hasDeathVfx)
        && target.hasCollider == old(target.hasCollider) && target.hasRenderer == old(target.hasRenderer)
        && target.health == old(target.health) - settings.damage
        && target.log == old(target.log) + Health.DeathEvents(target.health, target.destroyOnDeath, target.hasDeathVfx,
             point, normal)
        && target.destroyRequested == (old(target.destroyRequested) || (target.health <= 0.0 && target.destroyOnDeath))
        && target.colliderEnabled
           == (old(target.colliderEnabled) && !(target.health <= 0.0 && !target.destroyOnDeath && target.hasCollider))
        && target.rendererEnabled
           == (old(target.rendererEnabled) && !(target.health <= 0.0 && !target.destroyOnDeath && target.hasRenderer))
    {
      if target != null {
        log := log + [Damaged(settings.damage)];
        target.ApplyDamage(settings.damage, point, normal);
      }
    }

    /** The explosion loop of OnCollisionEnter: one impulse per overlapping collider with a rigidbody. */
    method Explode(point: Vec3, overlap: seq<Option<nat>>)
      modifies this`log
      ensures log == old(log) + Impulses(overlap, settings.explosionForce, point, settings.explosionRadius)
    {
      var i := 0;
      while i < |overlap|
        invariant 0 <= i <= |overlap|
        invariant log == old(log) + Impulses(overlap[..i], settings.explosionForce, point, settings.explosionRadius)
      {
        assert overlap[..i + 1][..i] == overlap[..i];
        if overlap[i].Some? {
          log := log + [Impulse(overlap[i].value, settings.explosionForce, point, settings.explosionRadius)];
        }
        i := i + 1;
      }
      assert overlap[..i] == overlap;
    }

    /**
     * The FragmentTimer coroutine once its delay has passed: it fragments at
     * the bullet's position without looking at `finished`, so a bullet that
     * already finished still spawns; only the Finish after it is guarded.
     * The coroutine runs once, so the timer is spent afterwards.
     */
    method FragmentTimerElapsed(samples: seq<Spread>)
      requires Valid() && timerArmed
      requires FragmentGate(settings) ==> settings.fragments <= |samples|
      modifies this`log, this`finished, this`timerArmed
      ensures Valid()
      ensures finished && !timerArmed
      ensures log == old(log)
        + Spawns(Fragmentation(settings, BaseVelocity(hasRigidbody, velocity, forward), position, forward, samples, magnitude))
        + FinishEffects(old(finished))
    {
      timerArmed := false;
      DoFragmentation(position, forward, samples);
      Finish();
    }
  }
}
