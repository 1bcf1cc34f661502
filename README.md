# Projectile state machine

This project models the projectile system of a lockstep platformer's
simulation: the per-tick update of a thrown or shot projectile, the
reaction when it hits another entity, and the immutable per-type
configuration it reads. A tick runs these steps in order:

1. Despawn when the box is below the stage.
2. Advance a saturating age counter, and despawn when a lifetime is set and reached.
3. Run a one-shot "spawned inside solid" check.
4. Apply one of three tile-collision policies: strict-45 bounce, ricochet, or plain bounce-or-destroy.
5. Reassert the horizontal velocity from the stored speed and facing.

Destruction appends a "projectile destroyed" event that carries the current
position, then removes the entity.

## Layout

- `deterministic.dfy` (module `Deterministic`) holds the arithmetic
  vocabulary:
  - fixed-point numbers, written as `real`;
  - `FPVector2`;
  - C#'s `byte`;
  - `Abs`;
  - the constants 0.85 and 1.25.
- `projectile_config.dfy` (module `ProjectileConfig`) holds the
  `ProjectileAsset` record, its default values, and the
  `ProjectileEffectType` enumeration.
- `projectile_system.dfy` (module `ProjectileSystem`) has two layers:
  - A value `Snapshot` of everything the system touches for one entity:
    the `Projectile` component, the `PhysicsObject` component, the
    position, an `alive` flag, and the event log. Pure functions give the
    state after each step (`Tick`, `TileCollision`, `Strict45`,
    `Ricochet`, `Bounce`, `HitReaction`).
  - The class `ProjectileEntity`, whose methods update the components in
    place. They follow the source and its early returns. Each method is
    proved to end in the state its function describes.
- `projectile_properties.dfy` (module `ProjectileProperties`) holds the
  lemmas:
  - behaviour per case and per policy;
  - the destruction event;
  - the hit reaction;
  - over many ticks (`Run`), that a lifetime expires exactly on schedule
    and that an entity is destroyed at most once;
  - over many hits (`Hits`), that a chain of kicks always ends.

The external queries are fields of an `Externals` value: "is this box
embedded in solid ground" and the sine of an angle in degrees. The stage
bounds are a `VersusStageData` value. The asset lookup is replaced by
passing the asset to each operation.

Details of the code that the model keeps:

- The bounds test adds the box's half-height to the centroid. It does not
  subtract it.
- The ricochet turn tests the sign of the horizontal velocity, not the
  facing.
- The ground bounce lies outside the "collision enabled" guard. With
  collision disabled, a ground contact still bounces, even when strict-45
  is configured.
- A tile collision that destroys the entity returns only from the
  collision step. The tick then still writes the horizontal velocity and,
  under the 45-degree lock, the fall-speed cap, on the components of the
  removed entity.

## Model

| member | source | states |
|---|---|---|
| `ProjectileConfig.DefaultProjectileAsset` | Assets/QuantumUser/Simulation/NSMB/Entity/Projectile/ProjectileAsset.cs:5-24 | the default asset has Bounce on, Ricochet and Strict45Bounce off, RicochetDamping 0.85, no lifetime limit, DestroyOnHit on, DestroyOnSecondBounce off, LockTo45Degrees on, no destroy particle, and C#'s zero value for each field without an initialiser: Fire, zero Speed and BounceStrength, zero Gravity, no lifetime limit |
| `ProjectileConfig.EffectOrdinal` | Assets/QuantumUser/Simulation/NSMB/Entity/Projectile/ProjectileAsset.cs:26-30 | every effect type has an underlying value below 3 |
| `ProjectileConfig.EffectFromOrdinal` | Assets/QuantumUser/Simulation/NSMB/Entity/Projectile/ProjectileAsset.cs:26-30 | each value 0, 1, 2 names an effect type whose underlying value it is |
| `ProjectileConfig.EffectOrdinalRoundTrip` | Assets/QuantumUser/Simulation/NSMB/Entity/Projectile/ProjectileAsset.cs:26-30 | the enumeration has exactly the three members Fire, Freeze and KillEnemiesAndSoftKnockbackPlayers, and value and member convert both ways |
| `ProjectileConfig.EffectOrdinalInjective` | Assets/QuantumUser/Simulation/NSMB/Entity/Projectile/ProjectileAsset.cs:26-30 | distinct effect types have distinct values |
| `ProjectileConfig.DefaultRicochetDampingInRange` | Assets/QuantumUser/Simulation/NSMB/Entity/Projectile/ProjectileAsset.cs:12 | the default damping lies in (0, 1] |
| `ProjectileSystem.Age` | Assets/QuantumUser/Simulation/NSMB/Entity/Projectile/ProjectileSystem.cs:27-30 | the counter rises by at most one per tick; it stays put exactly when no lifetime is set or it is already 255, so it never wraps |
| `ProjectileSystem.Strict45` | Assets/QuantumUser/Simulation/NSMB/Entity/Projectile/ProjectileSystem.cs:65-92 | strict-45 is either a destruction with the configured particle at the current position, or it changes only facing, bounce flag, vertical velocity and the ground contact |
| `ProjectileSystem.Ricochet` | Assets/QuantumUser/Simulation/NSMB/Entity/Projectile/ProjectileSystem.cs:95-107 | ricochet never destroys or emits, and changes only Speed, facing and vertical velocity |
| `ProjectileSystem.Bounce` | Assets/QuantumUser/Simulation/NSMB/Entity/Projectile/ProjectileSystem.cs:120-129 | the bounce never destroys or emits, and changes only the bounce flag, vertical velocity and the ground contact |
| `ProjectileSystem.TileCollision` | Assets/QuantumUser/Simulation/NSMB/Entity/Projectile/ProjectileSystem.cs:55-130 | the tile collision appends at most one event, the configured destroyed event at the current position, exactly when it destroys; it never moves the entity, never touches age, latch, gravity, fall cap, horizontal velocity or wall and ceiling contacts, and changes Speed only under an active ricochet, where the new Speed is exactly the ricochet step's |
| `ProjectileSystem.Tick` | Assets/QuantumUser/Simulation/NSMB/Entity/Projectile/ProjectileSystem.cs:13-53 | a tick appends at most one event, a destroyed event for this entity at its position, exactly when it destroys; the counter rises by at most one and only under a lifetime; a set spawn latch stays set |
| `ProjectileSystem.TickBelowStage` | Assets/QuantumUser/Simulation/NSMB/Entity/Projectile/ProjectileSystem.cs:17-20 | below the stage, the tick destroys with no particle and changes nothing else: no aging, no velocity write |
| `ProjectileSystem.TickExpired` | Assets/QuantumUser/Simulation/NSMB/Entity/Projectile/ProjectileSystem.cs:27-34 | once the aged counter reaches a set lifetime, the tick destroys with the configured particle, with only the counter changed |
| `ProjectileSystem.TickSpawnEmbedded` | Assets/QuantumUser/Simulation/NSMB/Entity/Projectile/ProjectileSystem.cs:38-42 | a box found embedded by the spawn check is destroyed with the configured particle, and the latch stays clear |
| `ProjectileSystem.TickReaches` | Assets/QuantumUser/Simulation/NSMB/Entity/Projectile/ProjectileSystem.cs:46-52 | a tick past the three despawn checks is the tile collision on the aged, latched state, followed by the velocity reassertion |
| `ProjectileSystem.HitReaction` | Assets/QuantumUser/Simulation/NSMB/Entity/Projectile/ProjectileSystem.cs:138-155 | a hit appends at most a kick and a destroyed event; only the last new event can be a destruction, at the current position with the configured particle; with neither DestroyOnHit nor Bounce nothing changes; with Bounce alone a positive Speed strictly decreases; a projectile that survives the hit has emitted only kicks, and one the hit destroys has the destroyed event last |
| `ProjectileSystem.ProjectileEntity.Destroy` | Assets/QuantumUser/Simulation/NSMB/Entity/Projectile/ProjectileSystem.cs:132-136 | appends exactly one destroyed event with the position read before removal, then marks the entity removed |
| `ProjectileSystem.ProjectileEntity.Update` | Assets/QuantumUser/Simulation/NSMB/Entity/Projectile/ProjectileSystem.cs:13-53 | the in-place update of a live entity ends in the state `Tick` gives for the old state |
| `ProjectileSystem.ProjectileEntity.HandleTileCollision` | Assets/QuantumUser/Simulation/NSMB/Entity/Projectile/ProjectileSystem.cs:55-130 | the in-place tile collision ends in the state `TileCollision` gives |
| `ProjectileSystem.ProjectileEntity.Strict45Bounce` | Assets/QuantumUser/Simulation/NSMB/Entity/Projectile/ProjectileSystem.cs:65-92 | the in-place strict-45 branch ends in the state `Strict45` gives |
| `ProjectileSystem.ProjectileEntity.RicochetOffWalls` | Assets/QuantumUser/Simulation/NSMB/Entity/Projectile/ProjectileSystem.cs:95-107 | the in-place ricochet step ends in the state `Ricochet` gives |
| `ProjectileSystem.ProjectileEntity.ReassertVelocity` | Assets/QuantumUser/Simulation/NSMB/Entity/Projectile/ProjectileSystem.cs:48-52 | the in-place velocity reassertion ends in the state `Reassert` gives |
| `ProjectileSystem.ProjectileEntity.OnProjectileHitEntity` | Assets/QuantumUser/Simulation/NSMB/Entity/Projectile/ProjectileSystem.cs:138-155 | the in-place hit reaction of a live projectile ends in the state `HitReaction` gives |
| `ProjectileProperties.AgeChangesOnlyWithLifetime` | Assets/QuantumUser/Simulation/NSMB/Entity/Projectile/ProjectileSystem.cs:27-30 | with no lifetime the counter never moves; at 255 it stays at 255; otherwise, in bounds, it rises by exactly one |
| `ProjectileProperties.SpawnCheckLatches` | Assets/QuantumUser/Simulation/NSMB/Entity/Projectile/ProjectileSystem.cs:38-44 | a spawn check that runs and finds the box clear latches the flag |
| `ProjectileProperties.SpawnCheckSkipped` | Assets/QuantumUser/Simulation/NSMB/Entity/Projectile/ProjectileSystem.cs:38 | with collision disabled or the latch set, the check does not run and the latch keeps its value |
| `ProjectileProperties.VelocityReasserted` | Assets/QuantumUser/Simulation/NSMB/Entity/Projectile/ProjectileSystem.cs:46-52 | after a tick past the despawn checks, horizontal velocity is Speed times the facing sign, also when the tile collision destroyed the entity; under LockTo45Degrees the fall-speed cap is -Speed, otherwise it is untouched |
| `ProjectileProperties.DespawnWritesNoPhysics` | Assets/QuantumUser/Simulation/NSMB/Entity/Projectile/ProjectileSystem.cs:17-44 | a tick stopped by a despawn check destroys, emits one event, and leaves every physics field as it was |
| `ProjectileProperties.Strict45Ground` | Assets/QuantumUser/Simulation/NSMB/Entity/Projectile/ProjectileSystem.cs:78-82 | a strict-45 ground contact sets vertical velocity to abs(Speed), sets HasBounced, and clears the ground contact |
| `ProjectileProperties.Strict45Ceiling` | Assets/QuantumUser/Simulation/NSMB/Entity/Projectile/ProjectileSystem.cs:83-86 | a strict-45 ceiling contact without ground contact sets vertical velocity to -abs(Speed) and clears HasBounced |
| `ProjectileProperties.Strict45SideFlip` | Assets/QuantumUser/Simulation/NSMB/Entity/Projectile/ProjectileSystem.cs:71-89 | a strict-45 side flip alone turns the facing, and sets vertical velocity to +abs(Speed) or -abs(Speed) as HasBounced says |
| `ProjectileProperties.Strict45Isolated` | Assets/QuantumUser/Simulation/NSMB/Entity/Projectile/ProjectileSystem.cs:65-92 | strict-45 keeps Speed, life and events, and its result does not depend on the ricochet, bounce or second-bounce flags |
| `ProjectileProperties.Strict45VerticalSpeed` | Assets/QuantumUser/Simulation/NSMB/Entity/Projectile/ProjectileSystem.cs:77-89 | after any strict-45 ground, ceiling or side interaction, the vertical speed's magnitude equals abs(Speed) |
| `ProjectileProperties.Strict45Embedded` | Assets/QuantumUser/Simulation/NSMB/Entity/Projectile/ProjectileSystem.cs:66-69 | under strict-45 an embedded box is destroyed every tick, whatever the latch says |
| `ProjectileProperties.RicochetDampsOnce` | Assets/QuantumUser/Simulation/NSMB/Entity/Projectile/ProjectileSystem.cs:96-102 | Speed is multiplied by RicochetDamping exactly once on a left touch moving left or a right touch moving right, and is unchanged otherwise |
| `ProjectileProperties.RicochetFacesAway` | Assets/QuantumUser/Simulation/NSMB/Entity/Projectile/ProjectileSystem.cs:96-101 | after a ricochet wall hit the facing points away from that wall; with no such hit the facing is kept |
| `ProjectileProperties.RicochetCeiling` | Assets/QuantumUser/Simulation/NSMB/Entity/Projectile/ProjectileSystem.cs:104-106 | a ceiling touch while rising sets vertical velocity to -abs(vy) times the damping, downward for a non-negative damping; it is unchanged otherwise |
| `ProjectileProperties.RicochetSpeedNonIncreasing` | Assets/QuantumUser/Simulation/NSMB/Entity/Projectile/ProjectileSystem.cs:96-102 | with the damping in (0, 1], a ricochet never raises a non-negative Speed and never makes it negative |
| `ProjectileProperties.TickSpeedNonIncreasing` | Assets/QuantumUser/Simulation/NSMB/Entity/Projectile/ProjectileSystem.cs:46-107 | with the damping in (0, 1], no tick raises a non-negative Speed or makes it negative |
| `ProjectileProperties.RunSpeedNonIncreasing` | Assets/QuantumUser/Simulation/NSMB/Entity/Projectile/ProjectileSystem.cs:13-107 | with the damping in (0, 1], over any number of ticks a non-negative Speed stays non-negative and never rises |
| `ProjectileProperties.RicochetWallsNeverDestroy` | Assets/QuantumUser/Simulation/NSMB/Entity/Projectile/ProjectileSystem.cs:109-116 | under ricochet, wall and ceiling contacts without ground contact and with a clear box never destroy; the result is the ricochet alone |
| `ProjectileProperties.HardCollisionDestroys` | Assets/QuantumUser/Simulation/NSMB/Entity/Projectile/ProjectileSystem.cs:110-116 | without strict-45 and with collision on, the tile collision destroys if and only if one holds: a wall or ceiling touch without Ricochet, a ground touch without Bounce, a second ground touch under DestroyOnSecondBounce, or an embedded box |
| `ProjectileProperties.BounceBoostRule` | Assets/QuantumUser/Simulation/NSMB/Entity/Projectile/ProjectileSystem.cs:121-124 | the slope boost is 0 when (FloorAngle > 0) equals the facing, otherwise BounceStrength times abs(sin) times 1.25; it is non-negative for a non-negative BounceStrength |
| `ProjectileProperties.PlainBounce` | Assets/QuantumUser/Simulation/NSMB/Entity/Projectile/ProjectileSystem.cs:120-129 | a surviving ground contact with Bounce keeps the entity alive, sets vertical velocity to BounceStrength plus the boost, clears the ground contact and sets HasBounced |
| `ProjectileProperties.BounceWithCollisionDisabled` | Assets/QuantumUser/Simulation/NSMB/Entity/Projectile/ProjectileSystem.cs:64-129 | with collision disabled, the tile collision never destroys; a ground contact with Bounce still bounces, under any policy; anything else leaves the state unchanged |
| `ProjectileProperties.NoBounceGroundDestroys` | Assets/QuantumUser/Simulation/NSMB/Entity/Projectile/ProjectileSystem.cs:110-115 | without Bounce and strict-45, any ground contact destroys with the configured particle at the current position |
| `ProjectileProperties.HitDestroys` | Assets/QuantumUser/Simulation/NSMB/Entity/Projectile/ProjectileSystem.cs:142-143 | with DestroyOnHit, a hit destroys and does nothing else |
| `ProjectileProperties.HitKicks` | Assets/QuantumUser/Simulation/NSMB/Entity/Projectile/ProjectileSystem.cs:144-153 | with Bounce and without DestroyOnHit, a hit multiplies Speed and gravity by 0.85 and sets vertical velocity to the new Speed; it emits a non-lethal kick of the hit entity, then destroys exactly when the new Speed is below 1 |
| `ProjectileProperties.Run` | Assets/QuantumUser/Simulation/NSMB/Entity/Projectile/ProjectileSystem.cs:13-53 | over any number of ticks, none after destruction, events are only appended; at most one event appears, exactly when the entity dies; position stays put, the counter never decreases, and a set latch never resets |
| `ProjectileProperties.UndisturbedTick` | Assets/QuantumUser/Simulation/NSMB/Entity/Projectile/ProjectileSystem.cs:27-52 | a tick on an in-bounds, clear, untouched projectile before its lifetime is reached emits nothing and keeps it alive and undisturbed; it raises the counter by one, latches the spawn check when collision is on, and sets horizontal velocity to Speed times the facing sign and, under LockTo45Degrees, the fall cap to -Speed; nothing else changes |
| `ProjectileProperties.LifetimeExpiresOnSchedule` | Assets/QuantumUser/Simulation/NSMB/Entity/Projectile/ProjectileSystem.cs:27-34 | an undisturbed projectile is alive after LifetimeFrames - Combo - 1 ticks and destroyed by the next one, with exactly one destroyed event carrying the configured particle |
| `ProjectileProperties.LifetimeScenario` | Assets/QuantumUser/Simulation/NSMB/Entity/Projectile/ProjectileSystem.cs:27-34 | a fresh undisturbed projectile with lifetime L survives L - 1 ticks and is destroyed on tick L with the configured particle |
| `ProjectileProperties.Hits` | Assets/QuantumUser/Simulation/NSMB/Entity/Projectile/ProjectileSystem.cs:138-155 | repeated hits, none after destruction, only append events and never move the projectile; every new event but the last is a non-lethal kick of the hit entity; if the projectile survives all of them they are all kicks; if the chain destroys it, the last event is the one destroyed event, at its position with the configured particle |
| `ProjectileProperties.DampingDecay` | Assets/QuantumUser/Simulation/NSMB/Entity/Projectile/ProjectileSystem.cs:146 | 0.85^n lies in [0, 1] and is at most 1 / (1 + 0.15 n) |
| `ProjectileProperties.HitsDampGeometrically` | Assets/QuantumUser/Simulation/NSMB/Entity/Projectile/ProjectileSystem.cs:144-153 | while a bouncing, non-destroy-on-hit projectile survives n hits, its Speed is the initial Speed times 0.85^n, and at least 1 |
| `ProjectileProperties.HitBound` | Assets/QuantumUser/Simulation/NSMB/Entity/Projectile/ProjectileSystem.cs:151 | the hit bound is positive and exceeds (Speed - 1) / 0.15 |
| `ProjectileProperties.HitChainTerminates` | Assets/QuantumUser/Simulation/NSMB/Entity/Projectile/ProjectileSystem.cs:144-153 | for any initial Speed, a bouncing projectile is destroyed within HitBound(Speed) hits |
| `ProjectileProperties.RicochetScenario` | Assets/QuantumUser/Simulation/NSMB/Entity/Projectile/ProjectileSystem.cs:96-98 | moving left at Speed 10 with damping 0.85 into the left wall gives facing right at Speed 8.5 |
| `ProjectileProperties.Strict45Scenario` | Assets/QuantumUser/Simulation/NSMB/Entity/Projectile/ProjectileSystem.cs:78-86 | strict-45 at Speed 5: a ground touch gives +5 with HasBounced; a ceiling touch next gives -5 without it |
| `ProjectileProperties.KickChainScenario` | Assets/QuantumUser/Simulation/NSMB/Entity/Projectile/ProjectileSystem.cs:144-153 | kicks from Speed 1.2: after one, Speed is 1.02 and the projectile lives; after two, Speed is 0.867 and it is destroyed |
| `ProjectileProperties.DefaultAssetBehaviour` | Assets/QuantumUser/Simulation/NSMB/Entity/Projectile/ProjectileAsset.cs:7-16 | under the default asset, a clear ground contact bounces, also a second time; a wall or ceiling contact destroys; any entity hit destroys with no particle |

## Left out

- Fixed-point arithmetic is modelled as exact real arithmetic. This covers
  `FP` multiplication and the representation of the constants 0.85 and
  1.25. Bit-for-bit lockstep agreement between peers is not modelled.
- The sine is an external query (`Externals.sinDegrees`). Its argument is
  the floor angle in degrees, so the degree-to-radian conversion is folded
  into it. Only the zero-boost rule and the resulting assignment are
  stated.
- Whether a box is embedded in solid ground is an external query
  (`Externals.boxInGround`). Its geometry is not modelled.
- The framework is not modelled: the entity filter, component pointers,
  the asset lookup, the event dispatcher and the internals of entity
  removal. The components are fields of one `ProjectileEntity` object.
  The asset is passed as a parameter. Removal is the `alive` flag.
- The event stream is kept on the entity object rather than in a frame
  shared by all entities. So only this projectile's events are recorded,
  in order.
- A missing or invalid asset reference is not modelled, since every
  operation receives an asset.
- Motion integration and collision detection run outside this core.
  Between the ticks of `Run`, position, touch flags, floor angle and the
  external queries stay as the previous tick left them. The lifetime
  results assume a projectile that touches nothing. A run whose contacts
  change from tick to tick is not modelled.
- The collider's centroid and extents are constant for the entity's life.
- Spawning is outside the core. `ProjectileEntity`'s constructor only sets
  initial values.
- Some config fields are never read by the system: `effect`, `speed`,
  `bounceStrength` as a spawn value, `gravity`, `inheritShooterVelocity`,
  `hasCollision`, `doesntEffectBlueShell` and `shootSound`. They are
  carried as data and have no behaviour here.
- The second frame parameter of the hit handler is not modelled.
- Three steps of the source's methods are separate helper methods in the
  model. The step order and early returns are unchanged:
  - the strict-45 branch (`Strict45Bounce`);
  - the ricochet step (`RicochetOffWalls`);
  - the closing velocity writes of a tick (`ReassertVelocity`).
