/**
 * Destructible: a health pool that damage lowers without clamping, and a
 * death branch, entered on every hit that leaves health at or below zero,
 * that either destroys the object or disables its collider and renderer.
 */
module Health {
  import opened Vectors

  datatype DeathMode = Destroy | Disable

  /** One entry into the death branch: where it was hit, whether a death effect was spawned, and what happened. */
  datatype DeathEvent = DeathEvent(point: Vec3, normal: Vec3, vfx: bool, mode: DeathMode)

  /** The death-branch entries one ApplyDamage makes when it leaves health at `health`. */
  function DeathEvents(health: real, destroyOnDeath: bool, hasDeathVfx: bool, point: Vec3, normal: Vec3)
    : (r: seq<DeathEvent>)
    ensures |r| <= 1
    ensures r != [] <==> health <= 0.0
    ensures forall e <- r :: (e.mode == Destroy <==> destroyOnDeath) && e.vfx == hasDeathVfx
  {
    if health <= 0.0 then
      [DeathEvent(point, normal, hasDeathVfx, if destroyOnDeath then Destroy else Disable)]
    else []
  }

  /** One call of ApplyDamage: the damage and where the hit landed. */
  datatype Hit = Hit(dmg: real, point: Vec3, normal: Vec3)

  /** The damage a run of hits deals in total. */
  function TotalDamage(hits: seq<Hit>): real {
    if hits == [] then 0.0 else TotalDamage(hits[..|hits| - 1]) + hits[|hits| - 1].dmg
  }

  predicate NonNegative(hits: seq<Hit>) {
    forall i :: 0 <= i < |hits| ==> hits[i].dmg >= 0.0
  }

  /**
   * The death-branch entries of a run of hits on an object that started the
   * run at `health0`: hit `i` contributes the entry of the health it leaves.
   */
  function DeathTrail(health0: real, hits: seq<Hit>, destroyOnDeath: bool, hasDeathVfx: bool): seq<DeathEvent> {
    if hits == [] then []
    else
      var last := hits[|hits| - 1];
      DeathTrail(health0, hits[..|hits| - 1], destroyOnDeath, hasDeathVfx)
        + DeathEvents(health0 - TotalDamage(hits), destroyOnDeath, hasDeathVfx, last.point, last.normal)
  }

  /** Landing hit `i` after the first `i` hits adds its damage and the death entry of the health it leaves. */
  lemma DeathTrailStep(health0: real, hits: seq<Hit>, i: nat, destroyOnDeath: bool, hasDeathVfx: bool)
    requires i < |hits|
    ensures TotalDamage(hits[..i + 1]) == TotalDamage(hits[..i]) + hits[i].dmg
    ensures DeathTrail(health0, hits[..i + 1], destroyOnDeath, hasDeathVfx)
      == DeathTrail(health0, hits[..i], destroyOnDeath, hasDeathVfx)
         + DeathEvents(health0 - TotalDamage(hits[..i]) - hits[i].dmg, destroyOnDeath, hasDeathVfx,
                       hits[i].point, hits[i].normal)
  {
    assert hits[..i + 1][..i] == hits[..i];
  }

  /** With non-negative hits, the total damage never shrinks as more hits land. */
  lemma {:induction false} TotalDamageGrows(hits: seq<Hit>, j: nat, k: nat)
    requires NonNegative(hits) && j <= k <= |hits|
    ensures TotalDamage(hits[..j]) <= TotalDamage(hits[..k])
    decreases k - j
  {
    if j < k {
      TotalDamageGrows(hits, j, k - 1);
      assert hits[..k][..k - 1] == hits[..k - 1];
    }
  }

  /**
   * Once the `j`-th of a run of non-negative hits has left health at or
   * below zero, that hit and every later one enter the death branch: the
   * first `k` hits leave exactly `k - j + 1` more entries than the first
   * `j - 1`.
   */
  lemma {:induction false} DeadStaysDead(health0: real, hits: seq<Hit>, destroyOnDeath: bool, hasDeathVfx: bool,
                                         j: nat, k: nat)
    requires NonNegative(hits) && 1 <= j <= k <= |hits|
    requires health0 - TotalDamage(hits[..j]) <= 0.0
    ensures |DeathTrail(health0, hits[..k], destroyOnDeath, hasDeathVfx)|
         == |DeathTrail(health0, hits[..j - 1], destroyOnDeath, hasDeathVfx)| + (k - j + 1)
    decreases k - j
  {
    var h := hits[..k];
    assert h[..k - 1] == hits[..k - 1];
    TotalDamageGrows(hits, j, k);
    assert |DeathEvents(health0 - TotalDamage(h), destroyOnDeath, hasDeathVfx, h[k - 1].point, h[k - 1].normal)| == 1;
    if j < k {
      DeadStaysDead(health0, hits, destroyOnDeath, hasDeathVfx, j, k - 1);
    }
  }

  class Destructible {
    var maxHealth: real
    var destroyOnDeath: bool
    var hasDeathVfx: bool
    var hasCollider: bool
    var colliderEnabled: bool
    var hasRenderer: bool
    var rendererEnabled: bool
    /** Destroy(gameObject) has been requested. */
    var destroyRequested: bool
    var health: real
    /** Every entry into the death branch so far, in order. */
    var log: seq<DeathEvent>

    /**
     * The inspector settings and the components' own enabled state, followed
     * by Awake, which fills health up to `maxHealth` and touches nothing else.
     */
    constructor (maxHealth: real, destroyOnDeath: bool, hasDeathVfx: bool, hasCollider: bool, hasRenderer: bool,
                 colliderEnabled: bool, rendererEnabled: bool)
      ensures this.maxHealth == maxHealth && this.destroyOnDeath == destroyOnDeath
      ensures this.hasDeathVfx == hasDeathVfx && this.hasCollider == hasCollider && this.hasRenderer == hasRenderer
      ensures this.colliderEnabled == colliderEnabled && this.rendererEnabled == rendererEnabled
      ensures health == maxHealth
      ensures !destroyRequested && log == []
    {
      this.maxHealth := maxHealth;
      this.destroyOnDeath := destroyOnDeath;
      this.hasDeathVfx := hasDeathVfx;
      this.hasCollider := hasCollider;
      this.hasRenderer := hasRenderer;
      this.colliderEnabled := colliderEnabled;
      this.rendererEnabled := rendererEnabled;
      destroyRequested := false;
      health := maxHealth;
      log := [];
    }

    /**
     * Destructible.ApplyDamage: health drops by exactly `dmg` (it may go
     * negative); at or below zero the death branch runs again, however often
     * it ran before, and either requests destruction or disables the
     * collider and the renderer that exist.
     */
    method ApplyDamage(dmg: real, hitPoint: Vec3, hitNormal: Vec3)
      modifies this`health, this`log, this`destroyRequested, this`colliderEnabled, this`rendererEnabled
      ensures health == old(health) - dmg
      ensures log == old(log) + DeathEvents(health, destroyOnDeath, hasDeathVfx, hitPoint, hitNormal)
      ensures destroyRequested == (old(destroyRequested) || (health <= 0.0 && destroyOnDeath))
      ensures colliderEnabled == (old(colliderEnabled) && !(health <= 0.0 && !destroyOnDeath && hasCollider))
      ensures rendererEnabled == (old(rendererEnabled) && !(health <= 0.0 && !destroyOnDeath && hasRenderer))
    {
      health := health - dmg;
      if health <= 0.0 {
        var mode := if destroyOnDeath then Destroy else Disable;
        log := log + [DeathEvent(hitPoint, hitNormal, hasDeathVfx, mode)];
        if destroyOnDeath {
          destroyRequested := true;
        } else {
          if hasCollider {
            colliderEnabled := false;
          }
          if hasRenderer {
            rendererEnabled := false;
          }
        }
      }
    }

    /**
     * A run of hits, each one a call of ApplyDamage, as successive bullets
     * deliver them: health ends lowered by the total damage, and the death
     * branch has run once for every hit that left health at or below zero,
     * destroying or disabling the object as ApplyDamage does.
     */
    /**
     * The state of this object after `done` landed on it, starting from the
     * given health, log, destroy request and enabled state.
     */
    ghost predicate HitsLanded(health0: real, log0: seq<DeathEvent>, destroy0: bool, collider0: bool, renderer0: bool,
                               done: seq<Hit>)
      reads this
    {
      var trail := DeathTrail(health0, done, destroyOnDeath, hasDeathVfx);
      && health == health0 - TotalDamage(done)
      && log == log0 + trail
      && destroyRequested == (destroy0 || (trail != [] && destroyOnDeath))
      && colliderEnabled == (collider0 && !(trail != [] && !destroyOnDeath && hasCollider))
      && rendererEnabled == (renderer0 && !(trail != [] && !destroyOnDeath && hasRenderer))
    }

    /** One step of ApplyHits: hit `i` lands after the first `i`. */
    method ApplyNextHit(ghost health0: real, ghost log0: seq<DeathEvent>, ghost destroy0: bool, ghost collider0: bool,
                        ghost renderer0: bool, hits: seq<Hit>, i: nat)
      requires i < |hits|
      requires HitsLanded(health0, log0, destroy0, collider0, renderer0, hits[..i])
      modifies this`health, this`log, this`destroyRequested, this`colliderEnabled, this`rendererEnabled
      ensures HitsLanded(health0, log0, destroy0, collider0, renderer0, hits[..i + 1])
    {
      DeathTrailStep(health0, hits, i, destroyOnDeath, hasDeathVfx);
      ApplyDamage(hits[i].dmg, hits[i].point, hits[i].normal);
    }

    method ApplyHits(hits: seq<Hit>)
      modifies this`health, this`log, this`destroyRequested, this`colliderEnabled, this`rendererEnabled
      ensures health == old(health) - TotalDamage(hits)
      ensures log == old(log) + DeathTrail(old(health), hits, destroyOnDeath, hasDeathVfx)
      ensures var died := DeathTrail(old(health), hits, destroyOnDeath, hasDeathVfx) != [];
        && destroyRequested == (old(destroyRequested) || (died && destroyOnDeath))
        && colliderEnabled == (old(colliderEnabled) && !(died && !destroyOnDeath && hasCollider))
        && rendererEnabled == (old(rendererEnabled) && !(died && !destroyOnDeath && hasRenderer))
    {
      var i := 0;
      while i < |hits|
        invariant 0 <= i <= |hits|
        invariant HitsLanded(old(health), old(log), old(destroyRequested), old(colliderEnabled), old(rendererEnabled),
                             hits[..i])
      {
        ApplyNextHit(old(health), old(log), old(destroyRequested), old(colliderEnabled), old(rendererEnabled), hits, i);
        i := i + 1;
      }
      assert hits[..i] == hits;
    }
  }
}
