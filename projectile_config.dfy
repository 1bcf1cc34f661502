/**
 * The per-type projectile configuration: an immutable record shared by every
 * projectile of one type, and the enumeration of projectile effects.
 */
module ProjectileConfig {
  import opened Deterministic

  /** What a projectile does to what it hits; opaque to the projectile system. */
  datatype ProjectileEffectType = Fire | Freeze | KillEnemiesAndSoftKnockbackPlayers

  /** A particle-effect tag carried by the "projectile destroyed" event. */
  datatype ParticleEffect = None | Particle(id: nat)

  /** A sound-effect tag; only the default shoot sound is named. */
  datatype SoundEffect = PowerupFireballShoot | Sound(id: nat)

  /** One projectile type's configuration. */
  datatype ProjectileAsset = ProjectileAsset(
    effect: ProjectileEffectType,
    bounce: bool,
    ricochet: bool,
    strict45Bounce: bool,
    speed: FP,
    bounceStrength: FP,
    ricochetDamping: FP,
    gravity: FPVector2,
    lifetimeFrames: byte,          // 0 means no lifetime limit
    destroyOnSecondBounce: bool,
    destroyOnHit: bool,
    lockTo45Degrees: bool,
    inheritShooterVelocity: bool,
    hasCollision: bool,
    doesntEffectBlueShell: bool,
    destroyParticleEffect: ParticleEffect,
    shootSound: SoundEffect)

  /**
   * The asset as created with no field set explicitly: the declared
   * initialisers, and C#'s zero value for every field without one.
   */
  function DefaultProjectileAsset(): (a: ProjectileAsset)
    ensures a.bounce && !a.ricochet && !a.strict45Bounce
    ensures a.ricochetDamping == EightyFivePercent
    ensures a.lifetimeFrames == 0
    ensures a.destroyOnHit && !a.destroyOnSecondBounce
    ensures a.lockTo45Degrees
    ensures a.destroyParticleEffect == None
    ensures a.effect == Fire && a.speed == 0.0 && a.bounceStrength == 0.0
    ensures a.gravity == FPVector2(0.0, 0.0)
    ensures a.hasCollision && a.doesntEffectBlueShell && !a.inheritShooterVelocity
    ensures a.shootSound == PowerupFireballShoot
  {
    ProjectileAsset(
      effect := Fire,
      bounce := true,
      ricochet := false,
      strict45Bounce := false,
      speed := 0.0,
      bounceStrength := 0.0,
      ricochetDamping := EightyFivePercent,
      gravity := FPVector2(0.0, 0.0),
      lifetimeFrames := 0,
      destroyOnSecondBounce := false,
      destroyOnHit := true,
      lockTo45Degrees := true,
      inheritShooterVelocity := false,
      hasCollision := true,
      doesntEffectBlueShell := true,
      destroyParticleEffect := None,
      shootSound := PowerupFireballShoot)
  }

  /** The underlying value of an effect type (C# numbers an enum's members from 0). */
  function EffectOrdinal(e: ProjectileEffectType): (n: nat)
    ensures n < 3
  {
    match e
    case Fire => 0
    case Freeze => 1
    case KillEnemiesAndSoftKnockbackPlayers => 2
  }

  /** The effect type with a given underlying value. */
  function EffectFromOrdinal(n: nat): (e: ProjectileEffectType)
    requires n < 3
    ensures EffectOrdinal(e) == n
  {
    if n == 0 then Fire else if n == 1 then Freeze else KillEnemiesAndSoftKnockbackPlayers
  }

  /** Every effect type is one of exactly three, numbered 0, 1 and 2. */
  lemma EffectOrdinalRoundTrip(e: ProjectileEffectType)
    ensures EffectFromOrdinal(EffectOrdinal(e)) == e
    ensures e == Fire || e == Freeze || e == KillEnemiesAndSoftKnockbackPlayers
  {
  }

  /** Distinct effect types have distinct underlying values. */
  lemma EffectOrdinalInjective(e1: ProjectileEffectType, e2: ProjectileEffectType)
    ensures EffectOrdinal(e1) == EffectOrdinal(e2) <==> e1 == e2
  {
  }

  /** The default damping lies in the range (0, 1] the configuration is meant to keep. */
  lemma DefaultRicochetDampingInRange()
    ensures 0.0 < DefaultProjectileAsset().ricochetDamping <= 1.0
  {
  }
}
