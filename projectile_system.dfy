/**
 * The per-tick projectile state machine: the bounds despawn, the lifetime
 * counter, the one-shot spawn-embedding check, the three tile-collision
 * policies, the horizontal-velocity reassertion, destruction, and the
 * reaction to hitting an entity.
 *
 * Each operation is given twice: as a pure function on a Snapshot of the
 * entity's components (the specification, about which the properties are
 * proved), and as a method of ProjectileEntity that updates the fields in
 * place, step by step, with the source's early returns, and is proved to
 * end in the state the function describes.
 */
module ProjectileSystem {
  import opened Deterministic
  import opened ProjectileConfig

  /** An entity reference. */
  type EntityRef = nat

  /** The collider's box: its centre offset from the position and its half-size. */
  datatype Shape = Shape(centroid: FPVector2, extents: FPVector2)

  /** The stage data the system reads: the bottom-left corner of the world. */
  datatype VersusStageData = VersusStageData(stageWorldMin: FPVector2)

  /**
   * The queries the system makes of code outside it: whether a box at a
   * position is embedded in solid ground, and the sine of an angle given in
   * degrees.
   */
  datatype Externals = Externals(boxInGround: (FPVector2, Shape) -> bool, sinDegrees: FP -> FP)

  /** The events this system emits into the frame's event stream. */
  datatype FrameEvent =
    | ProjectileDestroyed(entity: EntityRef, particle: ParticleEffect, position: FPVector2)
    | EnemyKicked(hitEntity: EntityRef, lethal: bool)

  /** The projectile component. `combo` is used as the age counter. */
  datatype Projectile = Projectile(
    speed: FP,
    facingRight: bool,
    combo: byte,
    hasBounced: bool,
    checkedCollision: bool)

  /** The physics-object component: motion, collision switch, and the contacts found by collision detection. */
  datatype PhysicsObject = PhysicsObject(
    velocity: FPVector2,
    gravity: FPVector2,
    terminalVelocity: FP,
    disableCollision: bool,
    isTouchingLeftWall: bool,
    isTouchingRightWall: bool,
    isTouchingCeiling: bool,
    isTouchingGround: bool,
    floorAngle: FP)

  /**
   * Everything the system reads or writes about one entity: its projectile
   * and physics-object components, its position, whether it still exists,
   * and the events emitted so far.
   */
  datatype Snapshot = Snapshot(
    projectile: Projectile,
    body: PhysicsObject,
    position: FPVector2,
    alive: bool,
    events: seq<FrameEvent>)

  /** +1 when facing right, -1 when facing left. */
  function Direction(facingRight: bool): (d: FP)
    ensures d == 1.0 || d == -1.0
    ensures d > 0.0 <==> facingRight
  {
    if facingRight then 1.0 else -1.0
  }

  /** The despawn test of the world bounds: the collider's centre plus its half-height is below the stage. */
  predicate BelowStage(s: Snapshot, shape: Shape, stage: VersusStageData)
  {
    s.position.y + shape.centroid.y + shape.extents.y < stage.stageWorldMin.y
  }

  /** The age counter after one tick: it rises by one while a lifetime is set, saturating at 255. */
  function Age(combo: byte, lifetimeFrames: byte): (r: byte)
    ensures combo <= r && r as int <= combo as int + 1
    ensures r == combo <==> (lifetimeFrames == 0 || combo == ByteMaxValue)
  {
    if lifetimeFrames > 0 && combo < ByteMaxValue then combo + 1 else combo
  }

  /** The lifetime test: a lifetime is set and the (already aged) counter has reached it. */
  predicate Expired(combo: byte, lifetimeFrames: byte)
  {
    lifetimeFrames > 0 && combo >= lifetimeFrames
  }

  /** The event a destruction emits, and the entity's removal. */
  function Destroyed(s: Snapshot, entity: EntityRef, particle: ParticleEffect): Snapshot
  {
    s.(events := s.events + [ProjectileDestroyed(entity, particle, s.position)], alive := false)
  }

  /** The strict-45 policy: a diagonal path whose vertical speed is always |Speed|. */
  function Strict45(s: Snapshot, entity: EntityRef, shape: Shape, asset: ProjectileAsset, ext: Externals): (r: Snapshot)
    ensures r.position == s.position
    ensures r.events == s.events || r.events == s.events + [ProjectileDestroyed(entity, asset.destroyParticleEffect, s.position)]
    ensures r.events == s.events ==> r.alive == s.alive
    ensures r.events != s.events ==> !r.alive
    ensures r.projectile == s.projectile.(facingRight := r.projectile.facingRight, hasBounced := r.projectile.hasBounced)
    ensures r.body == s.body.(velocity := s.body.velocity.(y := r.body.velocity.y), isTouchingGround := r.body.isTouchingGround)
  {
    if ext.boxInGround(s.position, shape) then
      Destroyed(s, entity, asset.destroyParticleEffect)
    else
      var p, b := s.projectile, s.body;
      var flip := (b.isTouchingLeftWall && !p.facingRight) || (b.isTouchingRightWall && p.facingRight);
      var p' := p.(facingRight := if flip then !p.facingRight else p.facingRight);
      var v := Abs(p.speed);
      if b.isTouchingGround then
        s.(projectile := p'.(hasBounced := true),
           body := b.(velocity := b.velocity.(y := v), isTouchingGround := false))
      else if b.isTouchingCeiling then
        s.(projectile := p'.(hasBounced := false), body := b.(velocity := b.velocity.(y := -v)))
      else if flip then
        s.(projectile := p', body := b.(velocity := b.velocity.(y := if p.hasBounced then v else -v)))
      else
        s.(projectile := p')
  }

  /** The ricochet policy: a wall hit in the direction of travel turns the projectile round and damps its speed; a ceiling hit while rising sends it down, damped. */
  function Ricochet(s: Snapshot, asset: ProjectileAsset): (r: Snapshot)
    ensures r.position == s.position && r.alive == s.alive && r.events == s.events
    ensures r.projectile == s.projectile.(speed := r.projectile.speed, facingRight := r.projectile.facingRight)
    ensures r.body == s.body.(velocity := s.body.velocity.(y := r.body.velocity.y))
  {
    var p, b := s.projectile, s.body;
    var p' :=
      if b.isTouchingLeftWall && b.velocity.x < 0.0 then
        p.(facingRight := true, speed := p.speed * asset.ricochetDamping)
      else if b.isTouchingRightWall && b.velocity.x > 0.0 then
        p.(facingRight := false, speed := p.speed * asset.ricochetDamping)
      else
        p;
    var b' :=
      if b.isTouchingCeiling && b.velocity.y > 0.0 then
        b.(velocity := b.velocity.(y := -Abs(b.velocity.y) * asset.ricochetDamping))
      else
        b;
    s.(projectile := p', body := b')
  }

  /** The hard-collision test of the non-strict policies. */
  predicate HardCollision(s: Snapshot, shape: Shape, asset: ProjectileAsset, ext: Externals)
  {
    var b := s.body;
    || ((b.isTouchingLeftWall || b.isTouchingRightWall || b.isTouchingCeiling) && !asset.ricochet)
    || (b.isTouchingGround && (!asset.bounce || (s.projectile.hasBounced && asset.destroyOnSecondBounce)))
    || ext.boxInGround(s.position, shape)
  }

  /** The extra lift of a bounce off a slope; none when the slope rises the way the projectile faces. */
  function BounceBoost(s: Snapshot, asset: ProjectileAsset, ext: Externals): FP
  {
    if (s.body.floorAngle > 0.0) == s.projectile.facingRight then 0.0
    else asset.bounceStrength * Abs(ext.sinDegrees(s.body.floorAngle)) * FiveQuarters
  }

  /** The ground bounce. */
  function Bounce(s: Snapshot, asset: ProjectileAsset, ext: Externals): (r: Snapshot)
    ensures r.position == s.position && r.alive == s.alive && r.events == s.events
    ensures r.projectile == s.projectile.(hasBounced := r.projectile.hasBounced)
    ensures r.body == s.body.(velocity := s.body.velocity.(y := r.body.velocity.y), isTouchingGround := r.body.isTouchingGround)
  {
    if s.body.isTouchingGround && asset.bounce then
      s.(body := s.body.(velocity := s.body.velocity.(y := asset.bounceStrength + BounceBoost(s, asset, ext)),
                         isTouchingGround := false),
         projectile := s.projectile.(hasBounced := true))
    else
      s
  }

  /** The tile-collision response: strict-45, or ricochet followed by the hard-collision test, then the bounce. */
  function TileCollision(s: Snapshot, entity: EntityRef, shape: Shape, asset: ProjectileAsset, ext: Externals): (r: Snapshot)
    ensures s.events <= r.events && |r.events| <= |s.events| + 1
    ensures |r.events| == |s.events| ==> r.alive == s.alive
    ensures |r.events| == |s.events| + 1 ==>
              !r.alive && r.events[|s.events|] == ProjectileDestroyed(entity, asset.destroyParticleEffect, s.position)
    ensures r.position == s.position
    ensures r.projectile.combo == s.projectile.combo && r.projectile.checkedCollision == s.projectile.checkedCollision
    ensures r.body == s.body.(velocity := r.body.velocity, isTouchingGround := r.body.isTouchingGround)
    ensures r.body.velocity.x == s.body.velocity.x
    ensures r.projectile.speed != s.projectile.speed ==> asset.ricochet && !asset.strict45Bounce && !s.body.disableCollision
    ensures asset.ricochet && !asset.strict45Bounce && !s.body.disableCollision ==>
              r.projectile.speed == Ricochet(s, asset).projectile.speed
  {
    if !s.body.disableCollision then
      if asset.strict45Bounce then
        Strict45(s, entity, shape, asset, ext)
      else
        var t := if asset.ricochet then Ricochet(s, asset) else s;
        if HardCollision(t, shape, asset, ext) then
          Destroyed(t, entity, asset.destroyParticleEffect)
        else
          Bounce(t, asset, ext)
    else
      Bounce(s, asset, ext)
  }

  /** The per-tick reassertion of horizontal velocity and, with the 45-degree lock, of the fall-speed cap. */
  function Reassert(s: Snapshot, asset: ProjectileAsset): Snapshot
  {
    var speed := s.projectile.speed;
    s.(body := s.body.(velocity := s.body.velocity.(x := speed * Direction(s.projectile.facingRight)),
                       terminalVelocity := if asset.lockTo45Degrees then -speed else s.body.terminalVelocity))
  }

  /** The counter after aging. */
  function Aged(s: Snapshot, asset: ProjectileAsset): Snapshot
  {
    s.(projectile := s.projectile.(combo := Age(s.projectile.combo, asset.lifetimeFrames)))
  }

  /** True when the one-shot spawn-embedding check runs this tick. */
  predicate SpawnCheckRuns(s: Snapshot)
  {
    !s.body.disableCollision && !s.projectile.checkedCollision
  }

  /** The state handed to the tile collision: aged, with the spawn check latched if it ran. */
  function Prepared(s: Snapshot, asset: ProjectileAsset): Snapshot
  {
    var aged := Aged(s, asset);
    if SpawnCheckRuns(s) then aged.(projectile := aged.projectile.(checkedCollision := true)) else aged
  }

  /** True when a tick gets past the three despawn checks to the tile collision and the velocity reassertion. */
  predicate ReachesTileCollision(s: Snapshot, shape: Shape, asset: ProjectileAsset, stage: VersusStageData, ext: Externals)
  {
    && !BelowStage(s, shape, stage)
    && !Expired(Age(s.projectile.combo, asset.lifetimeFrames), asset.lifetimeFrames)
    && !(SpawnCheckRuns(s) && ext.boxInGround(s.position, shape))
  }

  /** One tick of the projectile. */
  function Tick(s: Snapshot, entity: EntityRef, shape: Shape, asset: ProjectileAsset,
                stage: VersusStageData, ext: Externals): (r: Snapshot)
    ensures s.events <= r.events && |r.events| <= |s.events| + 1
    ensures |r.events| == |s.events| ==> r.alive == s.alive
    ensures |r.events| == |s.events| + 1 ==>
              !r.alive && r.events[|s.events|].ProjectileDestroyed? &&
              r.events[|s.events|].entity == entity && r.events[|s.events|].position == s.position
    ensures r.position == s.position
    ensures s.projectile.combo <= r.projectile.combo && r.projectile.combo as int <= s.projectile.combo as int + 1
    ensures r.projectile.combo != s.projectile.combo ==> asset.lifetimeFrames > 0 && s.projectile.combo < ByteMaxValue
    ensures s.projectile.checkedCollision ==> r.projectile.checkedCollision
  {
    if BelowStage(s, shape, stage) then
      Destroyed(s, entity, ParticleEffect.None)
    else
      var aged := Aged(s, asset);
      if Expired(aged.projectile.combo, asset.lifetimeFrames) then
        Destroyed(aged, entity, asset.destroyParticleEffect)
      else if SpawnCheckRuns(aged) && ext.boxInGround(aged.position, shape) then
        Destroyed(aged, entity, asset.destroyParticleEffect)
      else
        Reassert(TileCollision(Prepared(s, asset), entity, shape, asset, ext), asset)
  }

  /** A projectile whose box is below the stage is destroyed with no particle, and nothing else changes: no aging, no velocity write. */
  lemma TickBelowStage(s: Snapshot, entity: EntityRef, shape: Shape, asset: ProjectileAsset,
                       stage: VersusStageData, ext: Externals)
    requires BelowStage(s, shape, stage)
    ensures Tick(s, entity, shape, asset, stage, ext) ==
            s.(alive := false, events := s.events + [ProjectileDestroyed(entity, ParticleEffect.None, s.position)])
  {
  }

  /** Once the aged counter reaches a set lifetime, the tick destroys with the configured particle and changes nothing but the counter. */
  lemma TickExpired(s: Snapshot, entity: EntityRef, shape: Shape, asset: ProjectileAsset,
                    stage: VersusStageData, ext: Externals)
    requires !BelowStage(s, shape, stage)
    requires Expired(Age(s.projectile.combo, asset.lifetimeFrames), asset.lifetimeFrames)
    ensures Tick(s, entity, shape, asset, stage, ext) == Destroyed(Aged(s, asset), entity, asset.destroyParticleEffect)
  {
  }

  /** A projectile found embedded by the one-shot spawn check is destroyed with the configured particle, its latch still clear. */
  lemma TickSpawnEmbedded(s: Snapshot, entity: EntityRef, shape: Shape, asset: ProjectileAsset,
                          stage: VersusStageData, ext: Externals)
    requires !BelowStage(s, shape, stage)
    requires !Expired(Age(s.projectile.combo, asset.lifetimeFrames), asset.lifetimeFrames)
    requires SpawnCheckRuns(s) && ext.boxInGround(s.position, shape)
    ensures Tick(s, entity, shape, asset, stage, ext) == Destroyed(Aged(s, asset), entity, asset.destroyParticleEffect)
    ensures !Tick(s, entity, shape, asset, stage, ext).projectile.checkedCollision
  {
  }

  /** A tick that passes the despawn checks runs the tile collision on the aged, latched state and then reasserts the velocity. */
  lemma TickReaches(s: Snapshot, entity: EntityRef, shape: Shape, asset: ProjectileAsset,
                    stage: VersusStageData, ext: Externals)
    requires ReachesTileCollision(s, shape, asset, stage, ext)
    ensures Tick(s, entity, shape, asset, stage, ext) ==
            Reassert(TileCollision(Prepared(s, asset), entity, shape, asset, ext), asset)
  {
  }

  /** The reaction to an entity hit: destroy, or damp and kick (and destroy once slow). */
  function HitReaction(s: Snapshot, entity: EntityRef, hitEntity: EntityRef, asset: ProjectileAsset): (r: Snapshot)
    ensures s.events <= r.events && |r.events| <= |s.events| + 2
    ensures forall i | |s.events| <= i < |r.events| - 1 :: r.events[i] == EnemyKicked(hitEntity, false)
    ensures |r.events| > |s.events| ==>
              r.events[|r.events| - 1] == EnemyKicked(hitEntity, false) ||
              (!r.alive && r.events[|r.events| - 1] == ProjectileDestroyed(entity, asset.destroyParticleEffect, s.position))
    ensures r.position == s.position
    ensures r.projectile == s.projectile.(speed := r.projectile.speed)
    ensures !asset.destroyOnHit && !asset.bounce ==> r == s
    ensures !asset.destroyOnHit && asset.bounce && 0.0 < s.projectile.speed ==> r.projectile.speed < s.projectile.speed
    ensures r.alive ==> forall i | |s.events| <= i < |r.events| :: r.events[i] == EnemyKicked(hitEntity, false)
    ensures s.alive && !r.alive ==>
              |r.events| > |s.events| &&
              r.events[|r.events| - 1] == ProjectileDestroyed(entity, asset.destroyParticleEffect, s.position)
  {
    if asset.destroyOnHit then
      Destroyed(s, entity, asset.destroyParticleEffect)
    else if asset.bounce then
      var speed := s.projectile.speed * EightyFivePercent;
      var t := s.(projectile := s.projectile.(speed := speed),
                  body := s.body.(gravity := s.body.gravity.Scale(EightyFivePercent),
                                  velocity := s.body.velocity.(y := speed)),
                  events := s.events + [EnemyKicked(hitEntity, false)]);
      if speed < 1.0 then Destroyed(t, entity, asset.destroyParticleEffect) else t
    else
      s
  }

  /**
   * One projectile entity as the system sees it: its projectile and
   * physics-object components and its position, updated in place, with
   * whether it still exists and the events emitted about it.
   */
  class ProjectileEntity {
    const entity: EntityRef
    const shape: Shape
    var projectile: Projectile
    var physicsObject: PhysicsObject
    var position: FPVector2
    var alive: bool
    var events: seq<FrameEvent>

    /** The current value of every field. */
    function State(): Snapshot
      reads this
    {
      Snapshot(projectile, physicsObject, position, alive, events)
    }

    /** An entity whose components hold the given values. */
    constructor (entity: EntityRef, shape: Shape, init: Snapshot)
      ensures this.entity == entity && this.shape == shape && State() == init
    {
      this.entity, this.shape := entity, shape;
      projectile, physicsObject, position := init.projectile, init.body, init.position;
      alive, events := init.alive, init.events;
    }

    /** Emits the destroyed event with the current position, then removes the entity. */
    method Destroy(particle: ParticleEffect)
      modifies this
      ensures events == old(events) + [ProjectileDestroyed(entity, particle, old(position))]
      ensures !alive
      ensures State() == Destroyed(old(State()), entity, particle)
    {
      var p := position;
      events := events + [ProjectileDestroyed(entity, particle, p)];
      alive := false;
    }

    /** One tick; the system updates only entities that still exist. */
    method Update(asset: ProjectileAsset, stage: VersusStageData, ext: Externals)
      requires alive
      modifies this
      ensures State() == Tick(old(State()), entity, shape, asset, stage, ext)
    {
      ghost var s0 := State();
      if position.y + shape.centroid.y + shape.extents.y < stage.stageWorldMin.y {
        TickBelowStage(s0, entity, shape, asset, stage, ext);
        Destroy(ParticleEffect.None);
        return;
      }

      if asset.lifetimeFrames > 0 {
        if projectile.combo < ByteMaxValue {
          projectile := projectile.(combo := projectile.combo + 1);
        }
        if projectile.combo >= asset.lifetimeFrames {
          TickExpired(s0, entity, shape, asset, stage, ext);
          Destroy(asset.destroyParticleEffect);
          return;
        }
      }
      assert State() == Aged(s0, asset);

      if !physicsObject.disableCollision && !projectile.checkedCollision {
        if ext.boxInGround(position, shape) {
          TickSpawnEmbedded(s0, entity, shape, asset, stage, ext);
          Destroy(asset.destroyParticleEffect);
          return;
        }
        projectile := projectile.(checkedCollision := true);
      }
      assert State() == Prepared(s0, asset);
      TickReaches(s0, entity, shape, asset, stage, ext);

      HandleTileCollision(asset, ext);
      ReassertVelocity(asset);
    }

    /** The closing step of a tick: horizontal velocity from Speed and facing, and the fall-speed cap under the 45-degree lock. */
    method ReassertVelocity(asset: ProjectileAsset)
      modifies this
      ensures State() == Reassert(old(State()), asset)
    {
      physicsObject := physicsObject.(velocity := physicsObject.velocity.(x := projectile.speed * Direction(projectile.facingRight)));

      if asset.lockTo45Degrees {
        physicsObject := physicsObject.(terminalVelocity := -projectile.speed);
      }
    }

    /** The tile-collision response. */
    method HandleTileCollision(asset: ProjectileAsset, ext: Externals)
      modifies this
      ensures State() == TileCollision(old(State()), entity, shape, asset, ext)
    {
      ghost var s0 := State();
      var touchingLeft := physicsObject.isTouchingLeftWall;
      var touchingRight := physicsObject.isTouchingRightWall;
      var touchingCeiling := physicsObject.isTouchingCeiling;
      var touchingGround := physicsObject.isTouchingGround;

      if !physicsObject.disableCollision {
        if asset.strict45Bounce {
          Strict45Bounce(asset, ext);
          return;
        }

        if asset.ricochet {
          RicochetOffWalls(asset);
        }
        ghost var s1 := State();
        assert s1 == if asset.ricochet then Ricochet(s0, asset) else s0;

        if || ((touchingLeft || touchingRight || touchingCeiling) && !asset.ricochet)
           || (touchingGround && (!asset.bounce || (projectile.hasBounced && asset.destroyOnSecondBounce)))
           || ext.boxInGround(position, shape)
        {
          assert HardCollision(s1, shape, asset, ext);
          Destroy(asset.destroyParticleEffect);
          return;
        }
        assert !HardCollision(s1, shape, asset, ext);
      }

      if touchingGround && asset.bounce {
        var boost := asset.bounceStrength * Abs(ext.sinDegrees(physicsObject.floorAngle)) * FiveQuarters;
        if (physicsObject.floorAngle > 0.0) == projectile.facingRight {
          boost := 0.0;
        }
        assert boost == BounceBoost(State(), asset, ext);

        physicsObject := physicsObject.(velocity := physicsObject.velocity.(y := asset.bounceStrength + boost));
        physicsObject := physicsObject.(isTouchingGround := false);
        projectile := projectile.(hasBounced := true);
      }
    }

    /** The strict-45 branch of the tile-collision response (the part that returns early). */
    method Strict45Bounce(asset: ProjectileAsset, ext: Externals)
      modifies this
      ensures State() == Strict45(old(State()), entity, shape, asset, ext)
    {
      var touchingLeft := physicsObject.isTouchingLeftWall;
      var touchingRight := physicsObject.isTouchingRightWall;
      var touchingCeiling := physicsObject.isTouchingCeiling;
      var touchingGround := physicsObject.isTouchingGround;

      if ext.boxInGround(position, shape) {
        Destroy(asset.destroyParticleEffect);
        return;
      }

      var collided := false;
      if (touchingLeft && !projectile.facingRight) || (touchingRight && projectile.facingRight) {
        projectile := projectile.(facingRight := !projectile.facingRight);
        collided := true;
      }

      var verticalSpeed := Abs(projectile.speed);
      if touchingGround {
        projectile := projectile.(hasBounced := true);
        physicsObject := physicsObject.(velocity := physicsObject.velocity.(y := verticalSpeed));
        physicsObject := physicsObject.(isTouchingGround := false);
        collided := true;
      } else if touchingCeiling {
        projectile := projectile.(hasBounced := false);
        physicsObject := physicsObject.(velocity := physicsObject.velocity.(y := -verticalSpeed));
        collided := true;
      } else if collided {
        physicsObject := physicsObject.(velocity := physicsObject.velocity.(
          y := if projectile.hasBounced then verticalSpeed else -verticalSpeed));
      }
    }

    /** The ricochet step of the tile-collision response. */
    method RicochetOffWalls(asset: ProjectileAsset)
      modifies this
      ensures State() == Ricochet(old(State()), asset)
    {
      if physicsObject.isTouchingLeftWall && physicsObject.velocity.x < 0.0 {
        projectile := projectile.(facingRight := true);
        projectile := projectile.(speed := projectile.speed * asset.ricochetDamping);
      } else if physicsObject.isTouchingRightWall && physicsObject.velocity.x > 0.0 {
        projectile := projectile.(facingRight := false);
        projectile := projectile.(speed := projectile.speed * asset.ricochetDamping);
      }

      if physicsObject.isTouchingCeiling && physicsObject.velocity.y > 0.0 {
        physicsObject := physicsObject.(velocity := physicsObject.velocity.(
          y := -Abs(physicsObject.velocity.y) * asset.ricochetDamping));
      }
    }

    /** The reaction to this projectile touching `hitEntity`; only a live projectile is reported hitting anything. */
    method OnProjectileHitEntity(hitEntity: EntityRef, asset: ProjectileAsset)
      requires alive
      modifies this
      ensures State() == HitReaction(old(State()), entity, hitEntity, asset)
    {
      if asset.destroyOnHit {
        Destroy(asset.destroyParticleEffect);
      } else if asset.bounce {
        projectile := projectile.(speed := projectile.speed * EightyFivePercent);
        physicsObject := physicsObject.(gravity := physicsObject.gravity.Scale(EightyFivePercent));
        physicsObject := physicsObject.(velocity := physicsObject.velocity.(y := projectile.speed));

        events := events + [EnemyKicked(hitEntity, false)];
        if projectile.speed < 1.0 {
          Destroy(asset.destroyParticleEffect);
        }
      }
    }
  }
}
