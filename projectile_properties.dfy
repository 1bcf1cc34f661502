/**
 * Properties of the projectile state machine: what one tick does in each of
 * its cases, what each collision policy guarantees, what a hit does, and,
 * over many ticks or hits, that a lifetime expires on schedule, that a
 * projectile is destroyed at most once, and that a chain of kicks ends.
 */
module ProjectileProperties {
  import opened Deterministic
  import opened ProjectileConfig
  import opened ProjectileSystem

  // ---------------------------------------------------------------------
  // Lifetime and the spawn-embedding check
  // ---------------------------------------------------------------------

  /** The age counter moves only while a lifetime is set, by one, and never past 255. */
  lemma AgeChangesOnlyWithLifetime(s: Snapshot, entity: EntityRef, shape: Shape, asset: ProjectileAsset,
                                   stage: VersusStageData, ext: Externals)
    ensures var r := Tick(s, entity, shape, asset, stage, ext);
            && (asset.lifetimeFrames == 0 ==> r.projectile.combo == s.projectile.combo)
            && (s.projectile.combo == ByteMaxValue ==> r.projectile.combo == ByteMaxValue)
            && (!BelowStage(s, shape, stage) && asset.lifetimeFrames > 0 && s.projectile.combo < ByteMaxValue ==>
                  r.projectile.combo as int == s.projectile.combo as int + 1)
  {
  }

  /** The one-shot spawn check, when it runs and finds the box clear, latches the flag. */
  lemma SpawnCheckLatches(s: Snapshot, entity: EntityRef, shape: Shape, asset: ProjectileAsset,
                          stage: VersusStageData, ext: Externals)
    requires !BelowStage(s, shape, stage)
    requires !Expired(Age(s.projectile.combo, asset.lifetimeFrames), asset.lifetimeFrames)
    requires SpawnCheckRuns(s) && !ext.boxInGround(s.position, shape)
    ensures Tick(s, entity, shape, asset, stage, ext).projectile.checkedCollision
  {
  }

  /** With collision disabled or the latch already set, the spawn check does not run and the latch keeps its value. */
  lemma SpawnCheckSkipped(s: Snapshot, entity: EntityRef, shape: Shape, asset: ProjectileAsset,
                          stage: VersusStageData, ext: Externals)
    requires !SpawnCheckRuns(s)
    ensures Tick(s, entity, shape, asset, stage, ext).projectile.checkedCollision == s.projectile.checkedCollision
  {
  }

  // ---------------------------------------------------------------------
  // The velocity reassertion
  // ---------------------------------------------------------------------

  /**
   * A tick that gets past the despawn checks ends with horizontal velocity
   * Speed times the facing, and under the 45-degree lock with the fall-speed
   * cap at -Speed, even when the tile collision destroyed the entity.
   */
  lemma VelocityReasserted(s: Snapshot, entity: EntityRef, shape: Shape, asset: ProjectileAsset,
                           stage: VersusStageData, ext: Externals)
    requires ReachesTileCollision(s, shape, asset, stage, ext)
    ensures var r := Tick(s, entity, shape, asset, stage, ext);
            && r.body.velocity.x == r.projectile.speed * Direction(r.projectile.facingRight)
            && (asset.lockTo45Degrees ==> r.body.terminalVelocity == -r.projectile.speed)
            && (!asset.lockTo45Degrees ==> r.body.terminalVelocity == s.body.terminalVelocity)
  {
  }

  /** A tick stopped by a despawn check writes no velocity and no other physics field. */
  lemma DespawnWritesNoPhysics(s: Snapshot, entity: EntityRef, shape: Shape, asset: ProjectileAsset,
                               stage: VersusStageData, ext: Externals)
    requires !ReachesTileCollision(s, shape, asset, stage, ext)
    ensures var r := Tick(s, entity, shape, asset, stage, ext);
            r.body == s.body && !r.alive && |r.events| == |s.events| + 1
  {
  }

  // ---------------------------------------------------------------------
  // Strict-45 policy
  // ---------------------------------------------------------------------

  /** The state the strict-45 policy applies to: collision on, policy selected, box clear of ground. */
  predicate Strict45Applies(s: Snapshot, shape: Shape, asset: ProjectileAsset, ext: Externals)
  {
    !s.body.disableCollision && asset.strict45Bounce && !ext.boxInGround(s.position, shape)
  }

  /** Strict-45 ground contact: upward at |Speed|, bounced, ground contact consumed. */
  lemma Strict45Ground(s: Snapshot, entity: EntityRef, shape: Shape, asset: ProjectileAsset, ext: Externals)
    requires Strict45Applies(s, shape, asset, ext) && s.body.isTouchingGround
    ensures var r := TileCollision(s, entity, shape, asset, ext);
            r.body.velocity.y == Abs(s.projectile.speed) && r.projectile.hasBounced && !r.body.isTouchingGround
  {
  }

  /** Strict-45 ceiling contact (without ground contact): downward at |Speed|, bounce flag cleared. */
  lemma Strict45Ceiling(s: Snapshot, entity: EntityRef, shape: Shape, asset: ProjectileAsset, ext: Externals)
    requires Strict45Applies(s, shape, asset, ext) && !s.body.isTouchingGround && s.body.isTouchingCeiling
    ensures var r := TileCollision(s, entity, shape, asset, ext);
            r.body.velocity.y == -Abs(s.projectile.speed) && !r.projectile.hasBounced
  {
  }

  /** Strict-45 side flip alone: the facing turns and the vertical direction follows the bounce flag. */
  lemma Strict45SideFlip(s: Snapshot, entity: EntityRef, shape: Shape, asset: ProjectileAsset, ext: Externals)
    requires Strict45Applies(s, shape, asset, ext) && !s.body.isTouchingGround && !s.body.isTouchingCeiling
    requires (s.body.isTouchingLeftWall && !s.projectile.facingRight) || (s.body.isTouchingRightWall && s.projectile.facingRight)
    ensures var r := TileCollision(s, entity, shape, asset, ext);
            && r.projectile.facingRight == !s.projectile.facingRight
            && r.body.velocity.y == (if s.projectile.hasBounced then Abs(s.projectile.speed) else -Abs(s.projectile.speed))
            && r.projectile.hasBounced == s.projectile.hasBounced
  {
  }

  /**
   * The strict-45 policy never ricochets, never damps, never runs the
   * hard-collision destroy or the bounce: Speed, life and events are
   * untouched, whatever the other policy flags say.
   */
  lemma Strict45Isolated(s: Snapshot, entity: EntityRef, shape: Shape, asset: ProjectileAsset, ext: Externals)
    requires Strict45Applies(s, shape, asset, ext)
    ensures var r := TileCollision(s, entity, shape, asset, ext);
            && r.projectile.speed == s.projectile.speed && r.alive == s.alive && r.events == s.events
            && r == TileCollision(s, entity, shape, asset.(ricochet := !asset.ricochet, bounce := !asset.bounce,
                                                           destroyOnSecondBounce := !asset.destroyOnSecondBounce), ext)
  {
  }

  /** Under strict-45, any ground, ceiling or side interaction leaves the vertical speed at |Speed|. */
  lemma Strict45VerticalSpeed(s: Snapshot, entity: EntityRef, shape: Shape, asset: ProjectileAsset, ext: Externals)
    requires Strict45Applies(s, shape, asset, ext)
    requires s.body.isTouchingGround || s.body.isTouchingCeiling || s.body.isTouchingLeftWall || s.body.isTouchingRightWall
    requires !s.body.isTouchingGround && !s.body.isTouchingCeiling ==>
               (s.body.isTouchingLeftWall && !s.projectile.facingRight) || (s.body.isTouchingRightWall && s.projectile.facingRight)
    ensures var r := TileCollision(s, entity, shape, asset, ext);
            Abs(r.body.velocity.y) == Abs(r.projectile.speed)
  {
  }

  /** Under strict-45 the per-tick embedding test is not gated by the latch: an embedded box is destroyed. */
  lemma Strict45Embedded(s: Snapshot, entity: EntityRef, shape: Shape, asset: ProjectileAsset, ext: Externals)
    requires !s.body.disableCollision && asset.strict45Bounce && ext.boxInGround(s.position, shape)
    ensures TileCollision(s, entity, shape, asset, ext) == Destroyed(s, entity, asset.destroyParticleEffect)
  {
  }

  // ---------------------------------------------------------------------
  // Ricochet policy
  // ---------------------------------------------------------------------

  /** True when the wall contact faces the direction of horizontal travel. */
  predicate WallHitInTravel(s: Snapshot)
  {
    (s.body.isTouchingLeftWall && s.body.velocity.x < 0.0) || (s.body.isTouchingRightWall && s.body.velocity.x > 0.0)
  }

  /** Ricochet damps Speed exactly once on a wall hit in the direction of travel, and not otherwise. */
  lemma RicochetDampsOnce(s: Snapshot, asset: ProjectileAsset)
    ensures Ricochet(s, asset).projectile.speed ==
            if WallHitInTravel(s) then s.projectile.speed * asset.ricochetDamping else s.projectile.speed
  {
  }

  /** After a ricochet wall hit, the projectile faces away from that wall; otherwise its facing is kept. */
  lemma RicochetFacesAway(s: Snapshot, asset: ProjectileAsset)
    ensures var r := Ricochet(s, asset);
            && (s.body.isTouchingLeftWall && s.body.velocity.x < 0.0 ==> r.projectile.facingRight)
            && (!(s.body.isTouchingLeftWall && s.body.velocity.x < 0.0) && s.body.isTouchingRightWall && s.body.velocity.x > 0.0 ==>
                  !r.projectile.facingRight)
            && (!WallHitInTravel(s) ==> r.projectile.facingRight == s.projectile.facingRight)
  {
  }

  /** A ricochet ceiling hit while rising sends the projectile down at the damped vertical speed. */
  lemma RicochetCeiling(s: Snapshot, asset: ProjectileAsset)
    ensures var r := Ricochet(s, asset);
            if s.body.isTouchingCeiling && s.body.velocity.y > 0.0
            then r.body.velocity.y == -Abs(s.body.velocity.y) * asset.ricochetDamping &&
                 (0.0 <= asset.ricochetDamping ==> r.body.velocity.y <= 0.0)
            else r.body.velocity.y == s.body.velocity.y
  {
  }

  /** With a damping in (0, 1], a ricochet never raises a non-negative Speed nor makes it negative. */
  lemma RicochetSpeedNonIncreasing(s: Snapshot, asset: ProjectileAsset)
    requires 0.0 < asset.ricochetDamping <= 1.0 && 0.0 <= s.projectile.speed
    ensures 0.0 <= Ricochet(s, asset).projectile.speed <= s.projectile.speed
  {
    var sp, d := s.projectile.speed, asset.ricochetDamping;
    assert sp * d <= sp * 1.0 by {
      assert sp * (1.0 - d) >= 0.0;
    }
  }

  /** With a damping in (0, 1], no tick raises a non-negative Speed or makes it negative. */
  lemma TickSpeedNonIncreasing(s: Snapshot, entity: EntityRef, shape: Shape, asset: ProjectileAsset,
                               stage: VersusStageData, ext: Externals)
    requires 0.0 < asset.ricochetDamping <= 1.0 && 0.0 <= s.projectile.speed
    ensures 0.0 <= Tick(s, entity, shape, asset, stage, ext).projectile.speed <= s.projectile.speed
  {
    if ReachesTileCollision(s, shape, asset, stage, ext) {
      TickReaches(s, entity, shape, asset, stage, ext);
      RicochetSpeedNonIncreasing(Prepared(s, asset), asset);
    }
  }

  /** Over any number of ticks, a non-negative Speed stays non-negative and never rises. */
  lemma {:induction false} RunSpeedNonIncreasing(s: Snapshot, n: nat, entity: EntityRef, shape: Shape,
                                                 asset: ProjectileAsset, stage: VersusStageData, ext: Externals)
    requires 0.0 < asset.ricochetDamping <= 1.0 && 0.0 <= s.projectile.speed
    ensures 0.0 <= Run(s, n, entity, shape, asset, stage, ext).projectile.speed <= s.projectile.speed
    decreases n
  {
    if n > 0 && s.alive {
      var t := Tick(s, entity, shape, asset, stage, ext);
      TickSpeedNonIncreasing(s, entity, shape, asset, stage, ext);
      RunSpeedNonIncreasing(t, n - 1, entity, shape, asset, stage, ext);
    }
  }

  /** Under ricochet, wall and ceiling contacts alone never destroy: with no ground contact and a clear box the entity survives. */
  lemma RicochetWallsNeverDestroy(s: Snapshot, entity: EntityRef, shape: Shape, asset: ProjectileAsset, ext: Externals)
    requires !s.body.disableCollision && !asset.strict45Bounce && asset.ricochet
    requires !s.body.isTouchingGround && !ext.boxInGround(s.position, shape)
    ensures var r := TileCollision(s, entity, shape, asset, ext);
            r.alive == s.alive && r.events == s.events && r == Ricochet(s, asset)
  {
  }

  // ---------------------------------------------------------------------
  // Plain bounce-or-destroy
  // ---------------------------------------------------------------------

  /** Without strict-45 and with collision on, the tile collision destroys exactly when one of the hard conditions holds. */
  lemma HardCollisionDestroys(s: Snapshot, entity: EntityRef, shape: Shape, asset: ProjectileAsset, ext: Externals)
    requires !s.body.disableCollision && !asset.strict45Bounce
    ensures var r := TileCollision(s, entity, shape, asset, ext);
            var b := s.body;
            (|r.events| == |s.events| + 1) <==>
              || ((b.isTouchingLeftWall || b.isTouchingRightWall || b.isTouchingCeiling) && !asset.ricochet)
              || (b.isTouchingGround && !asset.bounce)
              || (b.isTouchingGround && s.projectile.hasBounced && asset.destroyOnSecondBounce)
              || ext.boxInGround(s.position, shape)
  {
  }

  /** The slope boost is zero when the slope's sign matches the facing, and the scaled |sine| otherwise. */
  lemma BounceBoostRule(s: Snapshot, asset: ProjectileAsset, ext: Externals)
    ensures (s.body.floorAngle > 0.0) == s.projectile.facingRight ==> BounceBoost(s, asset, ext) == 0.0
    ensures (s.body.floorAngle > 0.0) != s.projectile.facingRight ==>
              BounceBoost(s, asset, ext) == asset.bounceStrength * Abs(ext.sinDegrees(s.body.floorAngle)) * FiveQuarters
    ensures 0.0 <= asset.bounceStrength ==> 0.0 <= BounceBoost(s, asset, ext)
  {
  }

  /** A surviving ground contact with bounce enabled bounces: lift, ground contact consumed, bounced. */
  lemma PlainBounce(s: Snapshot, entity: EntityRef, shape: Shape, asset: ProjectileAsset, ext: Externals)
    requires !s.body.disableCollision && !asset.strict45Bounce && s.body.isTouchingGround && asset.bounce
    requires !HardCollision(s, shape, asset, ext)
    ensures var r := TileCollision(s, entity, shape, asset, ext);
            && r.alive == s.alive && r.events == s.events
            && r.body.velocity.y == asset.bounceStrength + BounceBoost(r, asset, ext)
            && !r.body.isTouchingGround && r.projectile.hasBounced
  {
  }

  /** The bounce is outside the collision guard: with collision disabled, a ground contact still bounces, even under strict-45. */
  lemma BounceWithCollisionDisabled(s: Snapshot, entity: EntityRef, shape: Shape, asset: ProjectileAsset, ext: Externals)
    requires s.body.disableCollision
    ensures var r := TileCollision(s, entity, shape, asset, ext);
            && r.alive == s.alive && r.events == s.events
            && (s.body.isTouchingGround && asset.bounce ==>
                  r.body.velocity.y == asset.bounceStrength + BounceBoost(s, asset, ext) &&
                  !r.body.isTouchingGround && r.projectile.hasBounced)
            && (!(s.body.isTouchingGround && asset.bounce) ==> r == s)
  {
  }

  /** With bounce and ricochet off (and no strict-45), any ground contact destroys. */
  lemma NoBounceGroundDestroys(s: Snapshot, entity: EntityRef, shape: Shape, asset: ProjectileAsset, ext: Externals)
    requires !s.body.disableCollision && !asset.strict45Bounce && !asset.bounce && s.body.isTouchingGround
    ensures var r := TileCollision(s, entity, shape, asset, ext);
            !r.alive && r.events == s.events + [ProjectileDestroyed(entity, asset.destroyParticleEffect, s.position)]
  {
  }

  // ---------------------------------------------------------------------
  // Hitting an entity
  // ---------------------------------------------------------------------

  /** With DestroyOnHit the hit destroys and does nothing else. */
  lemma HitDestroys(s: Snapshot, entity: EntityRef, hitEntity: EntityRef, asset: ProjectileAsset)
    requires asset.destroyOnHit
    ensures HitReaction(s, entity, hitEntity, asset) == Destroyed(s, entity, asset.destroyParticleEffect)
  {
  }

  /** Without DestroyOnHit but with Bounce, a hit damps, kicks, and destroys exactly when Speed falls below 1. */
  lemma HitKicks(s: Snapshot, entity: EntityRef, hitEntity: EntityRef, asset: ProjectileAsset)
    requires !asset.destroyOnHit && asset.bounce
    ensures var r := HitReaction(s, entity, hitEntity, asset);
            && r.projectile.speed == s.projectile.speed * EightyFivePercent
            && r.body.gravity == s.body.gravity.Scale(EightyFivePercent)
            && r.body.velocity.y == r.projectile.speed
            && r.events[|s.events|] == EnemyKicked(hitEntity, false)
            && (r.projectile.speed < 1.0 ==>
                  !r.alive && r.events == s.events + [EnemyKicked(hitEntity, false),
                                                      ProjectileDestroyed(entity, asset.destroyParticleEffect, s.position)])
            && (r.projectile.speed >= 1.0 ==> r.alive == s.alive && r.events == s.events + [EnemyKicked(hitEntity, false)])
  {
  }

  // ---------------------------------------------------------------------
  // Many ticks
  // ---------------------------------------------------------------------

  /** `n` ticks of one entity, as the frame loop runs them: none after its destruction. */
  function Run(s: Snapshot, n: nat, entity: EntityRef, shape: Shape, asset: ProjectileAsset,
               stage: VersusStageData, ext: Externals): (r: Snapshot)
    ensures s.events <= r.events && |r.events| <= |s.events| + 1
    ensures (|r.events| == |s.events| + 1) <==> (s.alive && !r.alive)
    ensures r.position == s.position
    ensures s.projectile.combo <= r.projectile.combo
    ensures s.projectile.checkedCollision ==> r.projectile.checkedCollision
    decreases n
  {
    if n == 0 || !s.alive then s
    else Run(Tick(s, entity, shape, asset, stage, ext), n - 1, entity, shape, asset, stage, ext)
  }

  /** In bounds, clear of ground, touching nothing. */
  predicate Undisturbed(s: Snapshot, shape: Shape, stage: VersusStageData, ext: Externals)
  {
    && !BelowStage(s, shape, stage) && !ext.boxInGround(s.position, shape)
    && !s.body.isTouchingLeftWall && !s.body.isTouchingRightWall
    && !s.body.isTouchingCeiling && !s.body.isTouchingGround
  }

  /**
   * An undisturbed tick before the lifetime is reached ages the projectile,
   * latches the spawn check if it ran, and reasserts the velocity; nothing
   * else moves, nothing is emitted.
   */
  lemma UndisturbedTick(s: Snapshot, entity: EntityRef, shape: Shape, asset: ProjectileAsset,
                        stage: VersusStageData, ext: Externals)
    requires Undisturbed(s, shape, stage, ext) && asset.lifetimeFrames > 0
    requires s.projectile.combo as int + 1 < asset.lifetimeFrames as int
    ensures var r := Tick(s, entity, shape, asset, stage, ext);
            && Undisturbed(r, shape, stage, ext) && r.alive == s.alive && r.events == s.events
            && r.projectile.combo as int == s.projectile.combo as int + 1
            && r.projectile == s.projectile.(combo := r.projectile.combo,
                                             checkedCollision := s.projectile.checkedCollision || !s.body.disableCollision)
            && r.body == s.body.(velocity := s.body.velocity.(x := s.projectile.speed * Direction(s.projectile.facingRight)),
                                 terminalVelocity := if asset.lockTo45Degrees then -s.projectile.speed
                                                     else s.body.terminalVelocity)
  {
  }

  /**
   * An undisturbed projectile with a lifetime set is destroyed by the tick
   * on which its counter reaches the lifetime, with the configured particle,
   * and not a tick earlier.
   */
  lemma {:induction false} LifetimeExpiresOnSchedule(s: Snapshot, entity: EntityRef, shape: Shape, asset: ProjectileAsset,
                                                     stage: VersusStageData, ext: Externals)
    requires s.alive && Undisturbed(s, shape, stage, ext)
    requires 0 < asset.lifetimeFrames && s.projectile.combo < asset.lifetimeFrames
    ensures var n := (asset.lifetimeFrames - s.projectile.combo) as nat;
            && Run(s, n - 1, entity, shape, asset, stage, ext).alive
            && Run(s, n, entity, shape, asset, stage, ext).events ==
                 s.events + [ProjectileDestroyed(entity, asset.destroyParticleEffect, s.position)]
            && !Run(s, n, entity, shape, asset, stage, ext).alive
    decreases asset.lifetimeFrames - s.projectile.combo
  {
    var n := (asset.lifetimeFrames - s.projectile.combo) as nat;
    var t := Tick(s, entity, shape, asset, stage, ext);
    if n == 1 {
      TickExpired(s, entity, shape, asset, stage, ext);
      assert Run(s, 1, entity, shape, asset, stage, ext) == Run(t, 0, entity, shape, asset, stage, ext);
    } else {
      UndisturbedTick(s, entity, shape, asset, stage, ext);
      LifetimeExpiresOnSchedule(t, entity, shape, asset, stage, ext);
      assert Run(s, n - 1, entity, shape, asset, stage, ext) == Run(t, n - 2, entity, shape, asset, stage, ext);
      assert Run(s, n, entity, shape, asset, stage, ext) == Run(t, n - 1, entity, shape, asset, stage, ext);
    }
  }

  /** A fresh undisturbed projectile with lifetime L survives L - 1 ticks and is destroyed on tick L. */
  lemma LifetimeScenario(s: Snapshot, entity: EntityRef, shape: Shape, asset: ProjectileAsset,
                         stage: VersusStageData, ext: Externals)
    requires s.alive && Undisturbed(s, shape, stage, ext) && s.projectile.combo == 0 && asset.lifetimeFrames > 0
    ensures Run(s, asset.lifetimeFrames as nat - 1, entity, shape, asset, stage, ext).alive
    ensures !Run(s, asset.lifetimeFrames as nat, entity, shape, asset, stage, ext).alive
    ensures Run(s, asset.lifetimeFrames as nat, entity, shape, asset, stage, ext).events[|s.events|] ==
            ProjectileDestroyed(entity, asset.destroyParticleEffect, s.position)
  {
    LifetimeExpiresOnSchedule(s, entity, shape, asset, stage, ext);
  }

  // ---------------------------------------------------------------------
  // Many hits
  // ---------------------------------------------------------------------

  /** `n` hits against one projectile, none after its destruction. */
  function Hits(s: Snapshot, n: nat, entity: EntityRef, hitEntity: EntityRef, asset: ProjectileAsset): (r: Snapshot)
    ensures s.events <= r.events
    ensures !s.alive ==> r == s
    ensures r.position == s.position
    ensures forall i | |s.events| <= i < |r.events| - 1 :: r.events[i] == EnemyKicked(hitEntity, false)
    ensures r.alive == s.alive ==> forall i | |s.events| <= i < |r.events| :: r.events[i] == EnemyKicked(hitEntity, false)
    ensures s.alive && !r.alive ==>
              |r.events| > |s.events| &&
              r.events[|r.events| - 1] == ProjectileDestroyed(entity, asset.destroyParticleEffect, s.position)
    decreases n
  {
    if n == 0 || !s.alive then s
    else Hits(HitReaction(s, entity, hitEntity, asset), n - 1, entity, hitEntity, asset)
  }

  /** b to the power n. */
  function Pow(b: real, n: nat): real
  {
    if n == 0 then 1.0 else b * Pow(b, n - 1)
  }

  /** 0.85^n lies in [0, 1] and is at most 1 / (1 + 0.15 n). */
  lemma {:induction false} DampingDecay(n: nat)
    ensures 0.0 <= Pow(EightyFivePercent, n) <= 1.0
    ensures Pow(EightyFivePercent, n) * (1.0 + 0.15 * n as real) <= 1.0
  {
    if n > 0 {
      DampingDecay(n - 1);
      var p := Pow(EightyFivePercent, n - 1);
      var m := (n - 1) as real;
      assert Pow(EightyFivePercent, n) == 0.85 * p;
      calc {
        0.85 * p * (1.0 + 0.15 * n as real);
        == 0.85 * (p * (1.0 + 0.15 * m)) + 0.85 * 0.15 * p;
        <= 0.85 * 1.0 + 0.85 * 0.15 * p;
        <= 0.85 + 0.1275;
        <= 1.0;
      }
    }
  }

  /** While a bouncing, non-destroy-on-hit projectile survives its hits, its Speed is the initial one damped once per hit, and at least 1. */
  lemma {:induction false} HitsDampGeometrically(s: Snapshot, n: nat, entity: EntityRef, hitEntity: EntityRef,
                                                 asset: ProjectileAsset)
    requires !asset.destroyOnHit && asset.bounce
    ensures var r := Hits(s, n, entity, hitEntity, asset);
            r.alive ==> r.projectile.speed == s.projectile.speed * Pow(EightyFivePercent, n) &&
                        (n > 0 ==> 1.0 <= r.projectile.speed)
    decreases n
  {
    if n > 0 && s.alive {
      var t := HitReaction(s, entity, hitEntity, asset);
      HitsDampGeometrically(t, n - 1, entity, hitEntity, asset);
      var r := Hits(t, n - 1, entity, hitEntity, asset);
      if r.alive {
        assert t.alive;
        assert t.projectile.speed >= 1.0;
        calc {
          r.projectile.speed;
          == t.projectile.speed * Pow(EightyFivePercent, n - 1);
          == s.projectile.speed * EightyFivePercent * Pow(EightyFivePercent, n - 1);
          == s.projectile.speed * Pow(EightyFivePercent, n);
        }
      }
    }
  }

  /** A number of hits after which a projectile of the given Speed cannot survive. */
  function HitBound(speed: FP): (n: nat)
    ensures 0 < n && speed < 1.0 + 0.15 * n as real
  {
    if speed < 1.0 then 1 else 7 * (speed.Floor + 1)
  }

  /** Scaling by a positive factor keeps a strict order. */
  lemma ProductBelow(a: real, b: real, p: real)
    requires a < b && 0.0 < p
    ensures a * p < b * p
  {
  }

  /** A speed below k, scaled by a factor p >= 0 with p * k <= 1, ends below 1. */
  lemma DampedBelowOne(speed: real, p: real, k: real)
    requires speed < k && 0.0 <= p && p * k <= 1.0
    ensures speed * p < 1.0
  {
    if p > 0.0 {
      ProductBelow(speed, k, p);
      var x, y := speed * p, k * p;
      assert x < y;
      assert y == p * k;
      assert y <= 1.0;
      assert x < 1.0;
    }
  }

  /**
   * A survivor's Speed is the initial Speed (below k) scaled by p, where
   * p >= 0 and p * k <= 1, and is at least 1: impossible.
   */
  lemma NoSlowSurvivor(alive: bool, survivorSpeed: real, speed: real, p: real, k: real)
    requires alive ==> survivorSpeed == speed * p && 1.0 <= survivorSpeed
    requires speed < k && 0.0 <= p && p * k <= 1.0
    ensures !alive
  {
    DampedBelowOne(speed, p, k);
  }

  /** A chain of kicks ends: after HitBound(Speed) hits the projectile has been destroyed. */
  lemma HitChainTerminates(s: Snapshot, entity: EntityRef, hitEntity: EntityRef, asset: ProjectileAsset)
    requires !asset.destroyOnHit && asset.bounce
    ensures !Hits(s, HitBound(s.projectile.speed), entity, hitEntity, asset).alive
  {
    var n := HitBound(s.projectile.speed);
    var r := Hits(s, n, entity, hitEntity, asset);
    HitsDampGeometrically(s, n, entity, hitEntity, asset);
    DampingDecay(n);
    NoSlowSurvivor(r.alive, r.projectile.speed, s.projectile.speed, Pow(EightyFivePercent, n), 1.0 + 0.15 * n as real);
  }

  // ---------------------------------------------------------------------
  // Scenarios
  // ---------------------------------------------------------------------

  /** A left-moving ricochet projectile at Speed 10 with damping 0.85 hits the left wall: it turns right at Speed 8.5. */
  lemma RicochetScenario(s: Snapshot, asset: ProjectileAsset)
    requires s.projectile.speed == 10.0 && asset.ricochetDamping == 0.85
    requires s.body.isTouchingLeftWall && s.body.velocity.x < 0.0
    ensures Ricochet(s, asset).projectile.facingRight && Ricochet(s, asset).projectile.speed == 8.5
  {
  }

  /** A strict-45 projectile at Speed 5 touching ground goes up at 5; touching the ceiling on the next tick it goes down at 5. */
  lemma Strict45Scenario(s: Snapshot, entity: EntityRef, shape: Shape, asset: ProjectileAsset, ext: Externals)
    requires Strict45Applies(s, shape, asset, ext) && s.projectile.speed == 5.0 && s.body.isTouchingGround
    ensures var r := TileCollision(s, entity, shape, asset, ext);
            var r' := TileCollision(r.(body := r.body.(isTouchingCeiling := true)), entity, shape, asset, ext);
            && r.body.velocity.y == 5.0 && r.projectile.hasBounced
            && r'.body.velocity.y == -5.0 && !r'.projectile.hasBounced
  {
  }

  /** Kicks at Speed 1.2: the first leaves Speed 1.02 and the projectile alive; the second takes it below 1 and destroys it. */
  lemma KickChainScenario(s: Snapshot, entity: EntityRef, hitEntity: EntityRef, asset: ProjectileAsset)
    requires !asset.destroyOnHit && asset.bounce && s.alive && s.projectile.speed == 1.2
    ensures var r := HitReaction(s, entity, hitEntity, asset);
            var r' := HitReaction(r, entity, hitEntity, asset);
            && r.alive && r.projectile.speed == 1.02
            && !r'.alive && r'.projectile.speed == 0.867
  {
  }

  /**
   * The default configuration selects the plain bounce policy that bounces
   * on every ground contact (the second included), is destroyed by a wall or the ceiling,
   * and is destroyed by any entity hit.
   */
  lemma DefaultAssetBehaviour(s: Snapshot, entity: EntityRef, hitEntity: EntityRef, shape: Shape, ext: Externals)
    requires !s.body.disableCollision && !ext.boxInGround(s.position, shape)
    ensures var a := DefaultProjectileAsset();
            && (s.body.isTouchingGround && !s.body.isTouchingLeftWall && !s.body.isTouchingRightWall && !s.body.isTouchingCeiling ==>
                  TileCollision(s, entity, shape, a, ext).alive == s.alive &&
                  TileCollision(s, entity, shape, a, ext).projectile.hasBounced)
            && (s.body.isTouchingLeftWall || s.body.isTouchingRightWall || s.body.isTouchingCeiling ==>
                  !TileCollision(s, entity, shape, a, ext).alive)
            && HitReaction(s, entity, hitEntity, a) == Destroyed(s, entity, None)
  {
  }
}
