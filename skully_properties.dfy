/** Properties of the Skully movement rules: how friction slows the body and brings it to rest,
    what the input does to the velocity, how grounded displacement follows the floor, the
    hysteresis of the ground state machine and the landing snap, and what one whole tick does
    to the vertical and horizontal velocity and to the mode. */
module SkullyProperties {
  import opened Vectors
  import opened SkullyTypes
  import opened SkullyRules

  // ---------------------------------------------------------------------------------------
  // Friction

  /** With a non-negative loss, friction never increases the horizontal speed and never flips
      the sign of the X or Y velocity. */
  lemma FrictionNeverOvershoots(mode: MovementMode, v: Vec3, cfg: Config, dt: real, sqrt: real -> real)
    requires cfg.Valid() && IsSqrt(sqrt)
    requires 0.0 <= FrictionFor(mode, cfg) * dt
    ensures var r := FrictionVelocity(mode, v, cfg, dt, sqrt);
            && Length(Horizontal(r), sqrt) <= Length(Horizontal(v), sqrt)
            && 0.0 <= r.x * v.x && 0.0 <= r.y * v.y
  {
    var r := FrictionVelocity(mode, v, cfg, dt, sqrt);
    FrictionOutcome(mode, v, r, cfg, dt, sqrt);
    StepBounds(v, r, FrictionFor(mode, cfg) * dt, IsNearlyZero(Horizontal(v), cfg.nearlyZeroTolerance), sqrt);
  }

  /** A friction step that left the velocity alone or stopped or shortened it along itself is
      no longer than before and keeps the X and Y signs. */
  lemma StepBounds(v: Vec3, r: Vec3, loss: real, atRest: bool, sqrt: real -> real)
    requires IsSqrt(sqrt) && 0.0 <= loss
    requires atRest ==> r == v
    requires !atRest ==>
               var speed := Length(Horizontal(v), sqrt);
               && 0.0 < speed
               && (speed <= loss ==> Horizontal(r) == Zero())
               && (loss < speed ==> Horizontal(r) == Scale(Horizontal(v), 1.0 - loss / speed) && Length(Horizontal(r), sqrt) == speed - loss)
    ensures Length(Horizontal(r), sqrt) <= Length(Horizontal(v), sqrt)
    ensures 0.0 <= r.x * v.x && 0.0 <= r.y * v.y
  {
    if atRest {
      assert 0.0 <= v.x * v.x && 0.0 <= v.y * v.y;
    } else {
      SlowdownBounds(v, r, loss, sqrt);
    }
  }

  /** A horizontal velocity that friction either stopped or shortened by `loss` along itself is
      no longer than before and has the same X and Y signs. */
  lemma SlowdownBounds(v: Vec3, r: Vec3, loss: real, sqrt: real -> real)
    requires IsSqrt(sqrt) && 0.0 <= loss
    requires var speed := Length(Horizontal(v), sqrt);
             && 0.0 < speed
             && (speed <= loss ==> Horizontal(r) == Zero())
             && (loss < speed ==> Horizontal(r) == Scale(Horizontal(v), 1.0 - loss / speed) && Length(Horizontal(r), sqrt) == speed - loss)
    ensures Length(Horizontal(r), sqrt) <= Length(Horizontal(v), sqrt)
    ensures 0.0 <= r.x * v.x && 0.0 <= r.y * v.y
  {
    var speed := Length(Horizontal(v), sqrt);
    if speed <= loss {
      SqrtUnique(Length(Zero(), sqrt), 0.0);
    } else {
      assert 0.0 <= 1.0 - loss / speed by { assert loss / speed * speed == loss; }
      ScaledKeepsSigns(v, r, 1.0 - loss / speed);
    }
  }

  /** A horizontal velocity scaled by a non-negative factor keeps the signs of its X and Y. */
  lemma ScaledKeepsSigns(v: Vec3, r: Vec3, k: real)
    requires 0.0 <= k && Horizontal(r) == Scale(Horizontal(v), k)
    ensures 0.0 <= r.x * v.x && 0.0 <= r.y * v.y
  {
    assert r.x == v.x * k && r.y == v.y * k;
    assert 0.0 <= v.x * v.x && 0.0 <= v.y * v.y;
    assert r.x * v.x == k * (v.x * v.x);
    assert r.y * v.y == k * (v.y * v.y);
  }

  /** Friction leaves a nearly-zero horizontal velocity where it is, frame after frame. */
  lemma {:induction false} FrictionAtRestStays(mode: MovementMode, v: Vec3, cfg: Config, dt: real, sqrt: real -> real, n: nat)
    requires cfg.Valid() && IsSqrt(sqrt)
    requires IsNearlyZero(Horizontal(v), cfg.nearlyZeroTolerance)
    ensures FrictionFrames(mode, v, cfg, dt, sqrt, n) == v
    decreases n
  {
    if n > 0 {
      assert FrictionVelocity(mode, v, cfg, dt, sqrt) == v;
      FrictionAtRestStays(mode, v, cfg, dt, sqrt, n - 1);
    }
  }

  /** Friction alone brings the body to rest: with a positive loss per frame, after any number
      of frames whose total loss covers the initial horizontal speed, the horizontal velocity is
      nearly zero (exactly zero unless it entered the nearly-zero band on its way down, where
      friction no longer acts), and the Z velocity is unchanged. */
  lemma FrictionComesToRest(mode: MovementMode, v: Vec3, cfg: Config, dt: real, sqrt: real -> real, n: nat)
    requires cfg.Valid() && IsSqrt(sqrt)
    requires 0.0 < FrictionFor(mode, cfg) * dt
    requires Length(Horizontal(v), sqrt) <= n as real * (FrictionFor(mode, cfg) * dt)
    ensures IsNearlyZero(Horizontal(FrictionFrames(mode, v, cfg, dt, sqrt, n)), cfg.nearlyZeroTolerance)
    ensures FrictionFrames(mode, v, cfg, dt, sqrt, n).z == v.z
  {
    CoveredIsProduct(n, FrictionFor(mode, cfg) * dt);
    FrictionRestsWithin(mode, v, cfg, dt, sqrt, n);
  }

  /** The total loss of `n` frames that each lose `loss`. */
  function Covered(n: nat, loss: real): real
  {
    if n == 0 then 0.0 else Covered(n - 1, loss) + loss
  }

  lemma {:induction false} CoveredIsProduct(n: nat, loss: real)
    ensures Covered(n, loss) == n as real * loss
  {
    if n > 0 {
      CoveredIsProduct(n - 1, loss);
    }
  }

  /** FrictionComesToRest by induction on the frames, with the budget as a sum of losses. */
  lemma {:induction false} FrictionRestsWithin(mode: MovementMode, v: Vec3, cfg: Config, dt: real, sqrt: real -> real, n: nat)
    requires cfg.Valid() && IsSqrt(sqrt)
    requires 0.0 < FrictionFor(mode, cfg) * dt
    requires Length(Horizontal(v), sqrt) <= Covered(n, FrictionFor(mode, cfg) * dt)
    ensures IsNearlyZero(Horizontal(FrictionFrames(mode, v, cfg, dt, sqrt, n)), cfg.nearlyZeroTolerance)
    ensures FrictionFrames(mode, v, cfg, dt, sqrt, n).z == v.z
    decreases n
  {
    if IsNearlyZero(Horizontal(v), cfg.nearlyZeroTolerance) {
      FrictionAtRestStays(mode, v, cfg, dt, sqrt, n);
    } else {
      var next := FrictionVelocity(mode, v, cfg, dt, sqrt);
      FrictionStepWithin(mode, v, cfg, dt, sqrt, Covered(n, FrictionFor(mode, cfg) * dt));
      if Horizontal(next) == Zero() {
        FrictionAtRestStays(mode, next, cfg, dt, sqrt, n - 1);
      } else {
        FrictionRestsWithin(mode, next, cfg, dt, sqrt, n - 1);
      }
    }
  }

  /** One friction step on a moving body whose horizontal speed is within `budget` either stops
      it or leaves a speed within `budget` less the loss. */
  lemma FrictionStepWithin(mode: MovementMode, v: Vec3, cfg: Config, dt: real, sqrt: real -> real, budget: real)
    requires cfg.Valid() && IsSqrt(sqrt)
    requires !IsNearlyZero(Horizontal(v), cfg.nearlyZeroTolerance)
    requires 0.0 < FrictionFor(mode, cfg) * dt
    requires Length(Horizontal(v), sqrt) <= budget
    ensures 0.0 < budget
    ensures var after := Horizontal(FrictionVelocity(mode, v, cfg, dt, sqrt));
            after == Zero() || Length(after, sqrt) <= budget - FrictionFor(mode, cfg) * dt
  {
    var r := FrictionVelocity(mode, v, cfg, dt, sqrt);
    FrictionOutcome(mode, v, r, cfg, dt, sqrt);
  }

  // ---------------------------------------------------------------------------------------
  // Input and velocity

  /** A planar input (zero Z) that survives the clamp sets the horizontal speed to exactly
      MaxSpeed, whatever its own length, and leaves the Z velocity alone. */
  lemma InputSetsMaxSpeed(v: Vec3, raw: Vec3, cfg: Config, sqrt: real -> real)
    requires cfg.Valid() && IsSqrt(sqrt)
    requires raw.z == 0.0
    requires !IsNearlyZero(ConsumeMovementInput(raw, cfg, sqrt), cfg.nearlyZeroTolerance)
    ensures var r := InputVelocity(v, ConsumeMovementInput(raw, cfg, sqrt), cfg, sqrt);
            SizeSquared(Horizontal(r)) == cfg.maxSpeed * cfg.maxSpeed && r.z == v.z
  {
    var input := ConsumeMovementInput(raw, cfg, sqrt);
    assert Horizontal(input) == input by { ClampedInputPlanar(raw, cfg, sqrt); }
    var r := InputVelocity(v, input, cfg, sqrt);
    var len := Length(input, sqrt);
    ScaledSquares(Horizontal(r), input, len, cfg.maxSpeed);
  }

  /** The input clamp keeps a planar input planar. */
  lemma ClampedInputPlanar(raw: Vec3, cfg: Config, sqrt: real -> real)
    requires cfg.Valid() && IsSqrt(sqrt) && raw.z == 0.0
    ensures ConsumeMovementInput(raw, cfg, sqrt).z == 0.0
  {
  }

  /** When `a` scaled by the length `len` of `b` equals `b` scaled by `m`, `a` has length `m`. */
  lemma ScaledSquares(a: Vec3, b: Vec3, len: real, m: real)
    requires 0.0 < len && len * len == SizeSquared(b)
    requires Scale(a, len) == Scale(b, m)
    ensures SizeSquared(a) == m * m
  {
    var k := m / len;
    DividedOut(a.x, b.x, len, m);
    DividedOut(a.y, b.y, len, m);
    DividedOut(a.z, b.z, len, m);
    assert a == Scale(b, k);
    SizeSquaredScale(b, k);
    QuotientSquared(m, len);
  }

  lemma DividedOut(a: real, b: real, d: real, m: real)
    requires d != 0.0 && a * d == b * m
    ensures a == b * (m / d)
  {
    assert a == a * d / d;
  }

  /** The fallback step of any input that can be normalised points along the input's horizontal
      part: scaled by the input's length, it is that part scaled by MaxSpeed * dt. This covers
      every input FallbackMove does not send to zero, including the nearly-zero ones whose squared
      length still reaches the normalisation tolerance. */
  lemma FallbackAlongInput(input: Vec3, cfg: Config, dt: real, sqrt: real -> real)
    requires cfg.Valid() && IsSqrt(sqrt)
    requires cfg.safeNormalTolerance <= SizeSquared(input) || SizeSquared(input) == 1.0
    ensures 0.0 < Length(input, sqrt)
    ensures Scale(FallbackMove(input, cfg, dt, sqrt), Length(input, sqrt)) == Scale(Horizontal(input), cfg.maxSpeed * dt)
  {
    PositiveRoot(Length(input, sqrt), SizeSquared(input));
    FallbackScaled(input, SafeNormal(input, cfg.safeNormalTolerance, sqrt), FallbackMove(input, cfg, dt, sqrt),
                   Length(input, sqrt), cfg.maxSpeed, dt);
  }

  lemma FallbackScaled(input: Vec3, dir: Vec3, r: Vec3, len: real, m: real, dt: real)
    requires len != 0.0 && dir == Scale(input, 1.0 / len)
    requires r == Vec3(dir.x * m * dt, dir.y * m * dt, 0.0)
    ensures Scale(r, len) == Scale(Horizontal(input), m * dt)
  {
    DividedBack(input.x, len, m * dt);
    DividedBack(input.y, len, m * dt);
    assert Scale(Vec3(dir.x * m * dt, dir.y * m * dt, 0.0), len) ==
           Vec3(input.x * (1.0 / len) * (m * dt) * len, input.y * (1.0 / len) * (m * dt) * len, 0.0 * len);
  }

  /** The fallback step of a planar input that can be normalised is horizontal and has length
      MaxSpeed * dt: the body moves at full speed in the intended direction. */
  lemma FallbackAtFullSpeed(input: Vec3, cfg: Config, dt: real, sqrt: real -> real)
    requires cfg.Valid() && IsSqrt(sqrt)
    requires input.z == 0.0
    requires cfg.safeNormalTolerance <= SizeSquared(input) || SizeSquared(input) == 1.0
    ensures var r := FallbackMove(input, cfg, dt, sqrt);
            r.z == 0.0 && SizeSquared(r) == (cfg.maxSpeed * dt) * (cfg.maxSpeed * dt)
  {
    var dir := SafeNormal(input, cfg.safeNormalTolerance, sqrt);
    assert SizeSquared(dir) == 1.0;
    assert dir.z == 0.0;
    assert Horizontal(dir) == dir;
    SizeSquaredScale(dir, cfg.maxSpeed * dt);
  }

  /** Grounded displacement follows the floor: with a unit cached floor normal, an unstable
      floor or a projection shorter than the minimum gives the fallback step; otherwise the step
      is the projection, which lies in the floor plane and is never longer than velocity * dt. */
  lemma GroundedDisplacementFollowsFloor(s: MotionState, input: Vec3, cfg: Config, dt: real, sqrt: real -> real)
    requires cfg.Valid() && IsSqrt(sqrt)
    requires s.mode == Grounded && SizeSquared(s.cachedFloorNormal) == 1.0
    ensures var r := Displacement(s, input, cfg, dt, sqrt);
            var projected := PlaneProject(Scale(s.velocity, dt), s.cachedFloorNormal);
            && (IsUnstableFloor(s, cfg) ==> r == FallbackMove(input, cfg, dt, sqrt))
            && (!IsUnstableFloor(s, cfg) && SizeSquared(projected) < cfg.minProjectedMoveSq ==>
                  r == FallbackMove(input, cfg, dt, sqrt))
            && (!IsUnstableFloor(s, cfg) && cfg.minProjectedMoveSq <= SizeSquared(projected) ==>
                  && r == projected
                  && Dot(r, s.cachedFloorNormal) == 0.0
                  && SizeSquared(r) <= SizeSquared(Scale(s.velocity, dt)))
  {
    PlaneProjectUnit(Scale(s.velocity, dt), s.cachedFloorNormal);
  }

  // ---------------------------------------------------------------------------------------
  // Ground state machine

  /** The next mode, stated without the order of the checks: grounded exactly when a valid
      sweep is walkable, or the body was grounded and a valid sweep is within the grace band or
      above it, or the line trace hit a walkable floor. */
  lemma NextModeCharacterised(s: MotionState, g: GroundSample, cfg: Config,
                              interp: (Vec3, Vec3, real, real) -> Vec3, worldDeltaSeconds: real)
    ensures CheckGround(s, g, cfg, interp, worldDeltaSeconds).state.mode == Grounded <==>
              || (IsValidSweep(g, cfg) && IsWalkable(g.sweep, cfg))
              || (s.mode == Grounded && IsValidSweep(g, cfg) && cfg.GraceZ() <= g.sweep.impactNormal.z)
              || (g.traceHit && IsWalkable(g.trace, cfg))
  {
  }

  /** Hysteresis: whatever ground sample grounds a falling body also keeps a grounded body
      grounded. */
  lemma GroundedIsSticky(g: GroundSample, cfg: Config)
    ensures DecideGround(Falling, g, cfg) != LostGround ==> DecideGround(Grounded, g, cfg) != LostGround
  {
  }

  /** The grace band: a grounded body whose valid sweep is below the walkable cutoff but not
      below the grace threshold stays grounded, takes the impact normal as its floor normal as it
      is, keeps its previous floor normal, and is not snapped. From falling, the same sample
      grants nothing: the body stays falling unless the line trace finds a walkable floor. */
  lemma GraceBand(s: MotionState, g: GroundSample, cfg: Config,
                  interp: (Vec3, Vec3, real, real) -> Vec3, worldDeltaSeconds: real)
    requires IsValidSweep(g, cfg)
    requires cfg.GraceZ() <= g.sweep.impactNormal.z < cfg.walkableZ
    ensures var r := CheckGround(s, g, cfg, interp, worldDeltaSeconds);
            && (s.mode == Grounded ==>
                  && r.state == s.(currentFloorHit := g.sweep, cachedFloorNormal := g.sweep.impactNormal)
                  && r.snap == None)
            && (s.mode == Falling ==>
                  (r.state.mode == Grounded <==> g.traceHit && IsWalkable(g.trace, cfg)))
  {
  }

  /** Losing the ground: the body falls, its floor hit is reset, its floor normals are kept. */
  lemma LosingGround(s: MotionState, g: GroundSample, cfg: Config,
                     interp: (Vec3, Vec3, real, real) -> Vec3, worldDeltaSeconds: real)
    requires DecideGround(s.mode, g, cfg) == LostGround
    ensures var r := CheckGround(s, g, cfg, interp, worldDeltaSeconds);
            r.state == s.(mode := Falling, currentFloorHit := EmptyHit()) && r.snap == None
  {
  }

  /** Landing on a walkable sweep: grounded, the floor hit is the sweep's, the previous floor
      normal becomes the old cached one, the cached normal is rotated toward the impact normal
      (from the impact normal itself when the cached one is nearly zero), and nothing else
      changes; the body is snapped only on a flat floor when it was falling and not rising, and
      then to the point one radius away from the impact point along the impact normal, so that
      with a unit normal the sphere's centre is exactly one radius from the contact. */
  lemma LandingSnap(s: MotionState, g: GroundSample, cfg: Config,
                    interp: (Vec3, Vec3, real, real) -> Vec3, worldDeltaSeconds: real)
    ensures var r := CheckGround(s, g, cfg, interp, worldDeltaSeconds);
            && (DecideGround(s.mode, g, cfg) == SweepLanding ==>
                  var from := if IsNearlyZero(s.cachedFloorNormal, cfg.nearlyZeroTolerance)
                              then g.sweep.impactNormal else s.cachedFloorNormal;
                  r.state == s.(mode := Grounded, currentFloorHit := g.sweep, lastFloorNormal := s.cachedFloorNormal,
                                cachedFloorNormal := interp(from, g.sweep.impactNormal, worldDeltaSeconds,
                                                            cfg.floorNormalInterpSpeed)))
            && (r.snap.Some? <==>
                  && DecideGround(s.mode, g, cfg) == SweepLanding
                  && cfg.flatGroundZ <= g.sweep.impactNormal.z
                  && s.mode == Falling && s.velocity.z <= 0.0)
            && (r.snap.Some? ==>
                  && g.shape.Sphere?
                  && r.snap.value == Add(g.sweep.impactPoint, Scale(g.sweep.impactNormal, g.shape.radius))
                  && (SizeSquared(g.sweep.impactNormal) == 1.0 ==>
                        SizeSquared(Sub(r.snap.value, g.sweep.impactPoint)) == g.shape.radius * g.shape.radius))
  {
  }

  /** Landing on the line trace: grounded, the floor hit is the trace's, the previous floor
      normal becomes the old cached one, the cached normal becomes the trace's impact normal as
      it is, nothing else changes and there is no snap. */
  lemma TraceLanding(s: MotionState, g: GroundSample, cfg: Config,
                     interp: (Vec3, Vec3, real, real) -> Vec3, worldDeltaSeconds: real)
    requires DecideGround(s.mode, g, cfg) == GroundDecision.TraceLanding
    ensures var r := CheckGround(s, g, cfg, interp, worldDeltaSeconds);
            && r.state == s.(mode := Grounded, currentFloorHit := g.trace, lastFloorNormal := s.cachedFloorNormal,
                             cachedFloorNormal := g.trace.impactNormal)
            && r.snap == None
  {
  }

  /** The ground sweep is made only for a sphere: for any other shape the sweep never lands or
      keeps the ground, only the line trace can ground the body, and there is no snap. */
  lemma OnlySphereSweeps(s: MotionState, g: GroundSample, cfg: Config,
                         interp: (Vec3, Vec3, real, real) -> Vec3, worldDeltaSeconds: real)
    requires !g.shape.Sphere?
    ensures var d := DecideGround(s.mode, g, cfg);
            d == GroundDecision.TraceLanding || d == LostGround
    ensures var r := CheckGround(s, g, cfg, interp, worldDeltaSeconds);
            && (r.state.mode == Grounded <==> g.traceHit && IsWalkable(g.trace, cfg))
            && r.snap == None
  {
  }

  /** Walkability depends on the floor normal's Z alone and is monotone in it: a floor at least
      as flat as a walkable one is walkable, and with a non-negative grace offset every walkable
      floor is within the grace threshold. */
  lemma WalkableFloors(hit: HitResult, other: HitResult, cfg: Config)
    ensures IsWalkable(hit, cfg) && hit.impactNormal.z <= other.impactNormal.z ==> IsWalkable(other, cfg)
    ensures IsWalkable(hit, cfg) && 0.0 <= cfg.groundGraceZOffset ==> cfg.GraceZ() <= hit.impactNormal.z
  {
  }

  /** The walkable boundary with the default tuning: at 45 degrees the cutoff is about 0.7071,
      so a grounded body on a valid sweep with normal Z 0.70 stays grounded through the grace
      band, while a falling one with no trace hit stays falling. */
  lemma WalkableBoundaryExample(s: MotionState, g: GroundSample,
                                interp: (Vec3, Vec3, real, real) -> Vec3, worldDeltaSeconds: real)
    requires IsValidSweep(g, DefaultConfig()) && g.sweep.impactNormal.z == 0.70 && !g.traceHit
    ensures CheckGround(s, g, DefaultConfig(), interp, worldDeltaSeconds).state.mode == s.mode
  {
    GraceBand(s, g, DefaultConfig(), interp, worldDeltaSeconds);
  }

  /** A falling body, moving down at 500, whose sweep hits flat ground 3 units below lands and
      is snapped to the impact point plus one radius up. */
  lemma FlatLandingExample(s: MotionState, radius: real, point: Vec3, other: GroundSample,
                           interp: (Vec3, Vec3, real, real) -> Vec3, worldDeltaSeconds: real)
    requires s.mode == Falling && s.velocity.z == -500.0
    ensures var hit := HitResult(true, 0.5, 3.0, point, Up(), Up(), 0);
            var g := other.(shape := Sphere(radius), sweepHit := true, sweep := hit);
            var r := CheckGround(s, g, DefaultConfig(), interp, worldDeltaSeconds);
            r.state.mode == Grounded && r.snap == Some(Add(point, Vec3(0.0, 0.0, radius)))
  {
  }

  // ---------------------------------------------------------------------------------------
  // One tick

  /** Only gravity changes the vertical velocity in a tick: friction, the move and the ground
      check leave it alone. So a tick that starts falling lowers it by exactly gravity * dt, and
      one that starts grounded ends with it non-negative. */
  lemma TickVerticalVelocity(s: MotionState, frame: FrameInput, cfg: Config, dt: real, sqrt: real -> real,
                             interp: (Vec3, Vec3, real, real) -> Vec3)
    requires cfg.Valid() && IsSqrt(sqrt)
    requires frame.hasUpdatedComponent && !frame.skipUpdate
    ensures var r := Tick(s, frame, cfg, dt, sqrt, interp);
            && r.state.velocity.z == GravityVelocity(s.mode, s.velocity, cfg.gravity, dt).z
            && (s.mode == Falling ==> r.state.velocity.z == s.velocity.z - cfg.gravity * dt)
            && (s.mode == Grounded ==> 0.0 <= r.state.velocity.z)
            && (s.mode == Grounded && s.velocity.z < 0.0 ==> r.state.velocity.z == 0.0)
  {
  }

  /** The tick runs its stages in order: the move and the ground check both see the velocity
      after gravity, friction and the input snap, and the mode and floor the tick started with.
      So the requests are those of the displacement chosen from that velocity, and the snap is
      decided on the Z velocity gravity left. */
  lemma TickStageOrder(s: MotionState, frame: FrameInput, cfg: Config, dt: real, sqrt: real -> real,
                       interp: (Vec3, Vec3, real, real) -> Vec3)
    requires cfg.Valid() && IsSqrt(sqrt)
    requires frame.hasUpdatedComponent && !frame.skipUpdate
    ensures var r := Tick(s, frame, cfg, dt, sqrt, interp);
            var input := ConsumeMovementInput(frame.rawInput, cfg, sqrt);
            var a := s.(velocity := r.state.velocity);
            && r.moves == MoveRequests(s.mode, s.cachedFloorNormal, Displacement(a, input, cfg, dt, sqrt), frame.moveHit, cfg)
            && r.snap == CheckGround(a, frame.ground, cfg, interp, frame.worldDeltaSeconds).snap
            && a.velocity.z == GravityVelocity(s.mode, s.velocity, cfg.gravity, dt).z
  {
  }

  /** Only the ground check changes the mode in a tick, and it decides from the mode the tick
      started with. */
  lemma TickMode(s: MotionState, frame: FrameInput, cfg: Config, dt: real, sqrt: real -> real,
                 interp: (Vec3, Vec3, real, real) -> Vec3)
    requires cfg.Valid() && IsSqrt(sqrt)
    requires frame.hasUpdatedComponent && !frame.skipUpdate
    ensures Tick(s, frame, cfg, dt, sqrt, interp).state.mode == Grounded <==>
              DecideGround(s.mode, frame.ground, cfg) != LostGround
  {
  }

  /** Friction only looks at the horizontal velocity: the Z velocity does not affect its X and
      Y results. */
  lemma FrictionIgnoresVertical(mode: MovementMode, v: Vec3, z: real, cfg: Config, dt: real, sqrt: real -> real)
    requires cfg.Valid() && IsSqrt(sqrt)
    ensures Horizontal(FrictionVelocity(mode, v.(z := z), cfg, dt, sqrt)) == Horizontal(FrictionVelocity(mode, v, cfg, dt, sqrt))
  {
    assert Horizontal(v.(z := z)) == Horizontal(v);
  }

  /** The velocity a tick leaves is gravity's, then friction's, then the input snap's, in that
      order; the ground check does not touch it. */
  lemma TickVelocity(s: MotionState, frame: FrameInput, cfg: Config, dt: real, sqrt: real -> real,
                     interp: (Vec3, Vec3, real, real) -> Vec3)
    requires cfg.Valid() && IsSqrt(sqrt)
    requires frame.hasUpdatedComponent && !frame.skipUpdate
    ensures Tick(s, frame, cfg, dt, sqrt, interp).state.velocity ==
              InputVelocity(FrictionVelocity(s.mode, GravityVelocity(s.mode, s.velocity, cfg.gravity, dt), cfg, dt, sqrt),
                            ConsumeMovementInput(frame.rawInput, cfg, sqrt), cfg, sqrt)
  {
  }

  /** A tick without input changes the horizontal velocity by friction alone, and so (with a
      non-negative loss) never speeds the body up horizontally. */
  lemma TickWithoutInput(s: MotionState, frame: FrameInput, cfg: Config, dt: real, sqrt: real -> real,
                         interp: (Vec3, Vec3, real, real) -> Vec3)
    requires cfg.Valid() && IsSqrt(sqrt)
    requires frame.hasUpdatedComponent && !frame.skipUpdate
    requires IsNearlyZero(ConsumeMovementInput(frame.rawInput, cfg, sqrt), cfg.nearlyZeroTolerance)
    ensures var r := Tick(s, frame, cfg, dt, sqrt, interp);
            && Horizontal(r.state.velocity) == Horizontal(FrictionVelocity(s.mode, s.velocity, cfg, dt, sqrt))
            && (0.0 <= FrictionFor(s.mode, cfg) * dt ==>
                  Length(Horizontal(r.state.velocity), sqrt) <= Length(Horizontal(s.velocity), sqrt))
  {
    WithoutInputVelocity(s.mode, s.velocity, Tick(s, frame, cfg, dt, sqrt, interp).state.velocity,
                         ConsumeMovementInput(frame.rawInput, cfg, sqrt), cfg, dt, sqrt);
  }

  /** Gravity, friction and a nearly-zero input leave the horizontal velocity friction gives. */
  lemma WithoutInputVelocity(mode: MovementMode, v: Vec3, r: Vec3, input: Vec3, cfg: Config, dt: real, sqrt: real -> real)
    requires cfg.Valid() && IsSqrt(sqrt)
    requires IsNearlyZero(input, cfg.nearlyZeroTolerance)
    requires r == InputVelocity(FrictionVelocity(mode, GravityVelocity(mode, v, cfg.gravity, dt), cfg, dt, sqrt), input, cfg, sqrt)
    ensures Horizontal(r) == Horizontal(FrictionVelocity(mode, v, cfg, dt, sqrt))
    ensures 0.0 <= FrictionFor(mode, cfg) * dt ==> Length(Horizontal(r), sqrt) <= Length(Horizontal(v), sqrt)
  {
    var gv := GravityVelocity(mode, v, cfg.gravity, dt);
    FrictionIgnoresVertical(mode, v, gv.z, cfg, dt, sqrt);
    assert gv == v.(z := gv.z);
    if 0.0 <= FrictionFor(mode, cfg) * dt {
      FrictionNeverOvershoots(mode, v, cfg, dt, sqrt);
    }
  }
}
