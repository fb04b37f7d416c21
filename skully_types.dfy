/** The state, the tuning and the engine records of the Skully movement component: its
    movement mode, the collision-query result it reads, its tunable constants with their
    defaults, and the per-component state the per-frame pipeline updates. */
module SkullyTypes {
  import opened Vectors

  /** The locomotion mode: the component is either on walkable ground or in the air. */
  datatype MovementMode = Grounded | Falling

  /** The engine's INDEX_NONE: "no face" in a hit's face index. */
  const IndexNone: int := -1

  /** The fields of a collision-query result (FHitResult) that the component reads. `time` is
      the fraction of the requested move completed before the hit; `normal` is the surface
      normal of the blocking obstruction; `impactNormal` the normal at the contact point. */
  datatype HitResult = HitResult(
    blockingHit: bool,
    time: real,
    distance: real,
    impactPoint: Vec3,
    impactNormal: Vec3,
    normal: Vec3,
    faceIndex: int)

  /** A default-constructed hit: nothing hit, the full move completed, no face. */
  function EmptyHit(): (h: HitResult)
    ensures !h.blockingHit && h.faceIndex == IndexNone
  {
    HitResult(false, 1.0, 0.0, Zero(), Zero(), Zero(), IndexNone)
  }

  /** The collision shape of the moved component: the ground sweep and the landing snap only
      act on a sphere, of the given scaled radius. */
  datatype Shape = Sphere(radius: real) | OtherShape

  /** The tunable constants the movement rules read. Several of them are written as literals in
      the component's rules (the ground distance, the grace offset, the line-trace distance,
      the two floor-stability thresholds, the flat-ground threshold) and one is not declared at
      all (`minProjectedMoveSq`); here every one of them is a field. `walkableZ` stands for
      cos(MaxSlopeAngle); the two tolerances are the engine's IsNearlyZero tolerance
      (KINDA_SMALL_NUMBER) and GetSafeNormal tolerance (SMALL_NUMBER). */
  datatype Config = Config(
    gravity: real,
    maxSpeed: real,
    groundFriction: real,
    airFriction: real,
    walkableZ: real,
    floorNormalInterpSpeed: real,
    /** Sweep geometry: read by no rule here, since the sweep and trace results are inputs. */
    groundCheckDistance: real,
    maxGroundDistance: real,
    groundGraceZOffset: real,
    /** Trace geometry: read by no rule here, since the sweep and trace results are inputs. */
    groundLineTraceDistance: real,
    unstableFloorZ: real,
    floorNormalDotEdge: real,
    flatGroundZ: real,
    minProjectedMoveSq: real,
    nearlyZeroTolerance: real,
    safeNormalTolerance: real)
  {
    /** The tolerances are positive and small enough that a vector which is not nearly zero
        always has a unit normal, and that a nearly-zero vector is shorter than 1. */
    predicate Valid()
    {
      && 0.0 < safeNormalTolerance <= nearlyZeroTolerance * nearlyZeroTolerance
      && 0.0 < nearlyZeroTolerance <= 0.5
    }

    /** The grace threshold of the ground check: an already grounded body keeps the ground down
        to this normal Z. */
    function GraceZ(): real { walkableZ - groundGraceZOffset }
  }

  /** The defaults: the header's initial values for the declared fields, the literals of the
      rules for the others (0.99 and 0.999 where the header declares 0.97 and 0.997, which the
      rules do not read), 1 cm squared for the minimum projected move (the header declares
      MinProjectedMoveCm = 1), and cos(45 degrees) rounded for the walkable cutoff. */
  function DefaultConfig(): (c: Config)
    ensures c.Valid()
    ensures c.GraceZ() < c.walkableZ
    ensures 0.0 <= c.gravity && 0.0 <= c.groundFriction && 0.0 <= c.airFriction
    ensures c.maxGroundDistance < c.groundLineTraceDistance
    ensures c.flatGroundZ <= 1.0 && c.walkableZ < c.flatGroundZ
  {
    Config(
      2000.0,           // Gravity
      5500.0,           // MaxSpeed
      2000.0,           // GroundFriction
      100.0,            // AirFriction
      0.7071067811865476, // cos(MaxSlopeAngle = 45 degrees)
      12.0,             // FloorNormalInterpSpeed
      5.0,              // GroundCheckDistance
      8.0,              // MaxGroundDistance
      0.05,             // GroundGraceZOffset
      12.0,             // GroundLineTraceDistance
      0.99,             // unstable-floor normal Z threshold
      0.95,             // floor-normal edge dot threshold
      0.999,            // flat-ground normal Z threshold
      1.0,              // MinProjectedMoveSq
      0.0001,           // KINDA_SMALL_NUMBER
      0.00000001)       // SMALL_NUMBER
  }

  /** The component's private state that the per-frame rules update. */
  datatype MotionState = MotionState(
    mode: MovementMode,
    velocity: Vec3,
    cachedFloorNormal: Vec3,
    lastFloorNormal: Vec3,
    currentFloorHit: HitResult)

  /** The state of a freshly constructed component: falling, at rest, both floor normals up. */
  function InitialState(): (s: MotionState)
    ensures s.mode == Falling && s.velocity == Zero()
    ensures s.cachedFloorNormal == Up() && s.lastFloorNormal == Up()
    ensures !s.currentFloorHit.blockingHit
  {
    MotionState(Falling, Zero(), Up(), Up(), EmptyHit())
  }

  datatype Option<T> = None | Some(value: T)

  /** A request the component issues to the engine while moving. */
  datatype MoveRequest =
    | SafeMove(delta: Vec3)
    | SlideAlongSurface(delta: Vec3, fraction: real, surfaceNormal: Vec3)
}
