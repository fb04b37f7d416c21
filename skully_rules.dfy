/** The per-frame rules of the Skully movement component as functions of its state: gravity,
    friction, the input clamp, the move (velocity from input, the displacement and the move
    requests), the ground check, and their composition into one tick. The component class in
    module SkullyComponent runs these stages imperatively and is proved to agree with them. */
module SkullyRules {
  import opened Vectors
  import opened SkullyTypes

  // ---------------------------------------------------------------------------------------
  // Gravity

  /** The vertical velocity rule: while falling the Z velocity loses gravity * dt; on the
      ground it becomes max(Z, 0): a negative Z is set to zero and any other Z is kept. X and Y
      are untouched. */
  function GravityVelocity(mode: MovementMode, v: Vec3, gravity: real, dt: real): (r: Vec3)
    ensures r.x == v.x && r.y == v.y
    ensures mode == Falling ==> r.z == v.z - gravity * dt
    ensures mode == Grounded ==> 0.0 <= r.z && v.z <= r.z && (0.0 <= v.z ==> r.z == v.z) && (v.z < 0.0 ==> r.z == 0.0)
  {
    if mode == Falling then v.(z := v.z - gravity * dt)
    else v.(z := Max(v.z, 0.0))
  }

  // ---------------------------------------------------------------------------------------
  // Friction

  /** The friction deceleration in force for a mode. */
  function FrictionFor(mode: MovementMode, cfg: Config): real
  {
    if mode == Grounded then cfg.groundFriction else cfg.airFriction
  }

  /** The friction rule: a horizontal velocity that is not nearly zero loses FrictionFor * dt of
      speed along its own direction, and becomes zero when that loss reaches its speed; whatever
      is left keeps its direction. The Z velocity is untouched; a nearly-zero horizontal
      velocity is left as it is. */
  function FrictionVelocity(mode: MovementMode, v: Vec3, cfg: Config, dt: real, sqrt: real -> real): (r: Vec3)
    requires cfg.Valid() && IsSqrt(sqrt)
    ensures r.z == v.z
    ensures IsNearlyZero(Horizontal(v), cfg.nearlyZeroTolerance) ==> r == v
    ensures !IsNearlyZero(Horizontal(v), cfg.nearlyZeroTolerance) && 0.0 <= FrictionFor(mode, cfg) * dt ==>
              var loss := FrictionFor(mode, cfg) * dt;
              var speed := Length(Horizontal(v), sqrt);
              && 0.0 < speed
              && (speed <= loss ==> Horizontal(r) == Zero())
              && (loss < speed ==>
                    Horizontal(r) == Scale(Horizontal(v), 1.0 - loss / speed) &&
                    Length(Horizontal(r), sqrt) == speed - loss)
  {
    assert 0.0 <= FrictionFor(mode, cfg) * dt ==> Abs(FrictionFor(mode, cfg) * dt) == FrictionFor(mode, cfg) * dt;
    var slowed := SlowedHorizontal(Horizontal(v), FrictionFor(mode, cfg) * dt, cfg, sqrt);
    Vec3(slowed.x, slowed.y, v.z)
  }

  /** The friction outcome of FrictionVelocity for a named result `r`, so that proofs about it
      can take these facts in one step. */
  lemma FrictionOutcome(mode: MovementMode, v: Vec3, r: Vec3, cfg: Config, dt: real, sqrt: real -> real)
    requires cfg.Valid() && IsSqrt(sqrt)
    requires r == FrictionVelocity(mode, v, cfg, dt, sqrt)
    ensures r.z == v.z
    ensures IsNearlyZero(Horizontal(v), cfg.nearlyZeroTolerance) ==> r == v
    ensures !IsNearlyZero(Horizontal(v), cfg.nearlyZeroTolerance) && 0.0 <= FrictionFor(mode, cfg) * dt ==>
              var loss := FrictionFor(mode, cfg) * dt;
              var speed := Length(Horizontal(v), sqrt);
              && 0.0 < speed
              && (speed <= loss ==> Horizontal(r) == Zero())
              && (loss < speed ==>
                    Horizontal(r) == Scale(Horizontal(v), 1.0 - loss / speed) &&
                    Length(Horizontal(r), sqrt) == speed - loss)
  {
  }

  /** Friction on the horizontal velocity `h`: unless it is nearly zero, it is decelerated along
      its safe normal by `loss`. The deceleration is compared by squared length, so a loss of
      either sign stops `h` once its magnitude reaches the speed. */
  function SlowedHorizontal(h: Vec3, loss: real, cfg: Config, sqrt: real -> real): (r: Vec3)
    requires cfg.Valid() && IsSqrt(sqrt) && h.z == 0.0
    ensures IsNearlyZero(h, cfg.nearlyZeroTolerance) ==> r == h
    ensures !IsNearlyZero(h, cfg.nearlyZeroTolerance) ==>
              var speed := Length(h, sqrt);
              && 0.0 < speed
              && (speed <= Abs(loss) ==> r == Zero())
              && (Abs(loss) < speed ==> r == Scale(h, 1.0 - loss / speed) && Length(r, sqrt) == speed - loss)
  {
    if IsNearlyZero(h, cfg.nearlyZeroTolerance) then h
    else
      var dir := SafeNormal(h, cfg.safeNormalTolerance, sqrt);
      DecelerateOutcome(h, dir, loss, cfg, sqrt);
      Decelerate(h, dir, loss)
  }

  /** One friction step on the horizontal velocity `h` with direction `dir`: the deceleration
      -dir * loss is added, unless it is at least as long as `h`, in which case `h` stops. */
  function Decelerate(h: Vec3, dir: Vec3, loss: real): Vec3
  {
    var decel := Scale(Neg(dir), loss);
    if SizeSquared(decel) >= SizeSquared(h) then Zero() else Add(h, decel)
  }

  /** Decelerating a horizontal `h` that is not nearly zero along its own safe normal keeps it
      horizontal; it stops when the magnitude of the loss reaches its speed, and otherwise its
      length changes by exactly -loss along itself. */
  lemma DecelerateOutcome(h: Vec3, dir: Vec3, loss: real, cfg: Config, sqrt: real -> real)
    requires cfg.Valid() && IsSqrt(sqrt)
    requires h.z == 0.0 && !IsNearlyZero(h, cfg.nearlyZeroTolerance)
    requires dir == SafeNormal(h, cfg.safeNormalTolerance, sqrt)
    ensures 0.0 < Length(h, sqrt)
    ensures var after := Decelerate(h, dir, loss);
            var speed := Length(h, sqrt);
            && after.z == 0.0
            && (speed <= Abs(loss) ==> after == Zero())
            && (Abs(loss) < speed ==> after == Scale(h, 1.0 - loss / speed) && Length(after, sqrt) == speed - loss)
  {
    UnitDirection(h, cfg, sqrt);
    SteppedSpeed(h, dir, Length(h, sqrt), loss, sqrt);
  }

  /** A vector that is not nearly zero has a positive length, and its safe normal is the vector
      divided by that length. */
  lemma UnitDirection(v: Vec3, cfg: Config, sqrt: real -> real)
    requires cfg.Valid() && IsSqrt(sqrt)
    requires !IsNearlyZero(v, cfg.nearlyZeroTolerance)
    ensures 0.0 < Length(v, sqrt)
    ensures SafeNormal(v, cfg.safeNormalTolerance, sqrt) == Scale(v, 1.0 / Length(v, sqrt))
  {
    NotNearlyZeroSize(v, cfg.nearlyZeroTolerance);
    PositiveRoot(Length(v, sqrt), SizeSquared(v));
  }

  /** One friction step of `loss` along the direction of `h`, of length `speed`: `h` stops when
      the magnitude of the loss reaches the speed, and otherwise has length speed - loss. */
  lemma SteppedSpeed(h: Vec3, dir: Vec3, speed: real, loss: real, sqrt: real -> real)
    requires IsSqrt(sqrt) && 0.0 < speed && speed == Length(h, sqrt)
    requires h.z == 0.0 && dir == Scale(h, 1.0 / speed)
    ensures var after := Decelerate(h, dir, loss);
            && after.z == 0.0
            && (speed <= Abs(loss) ==> after == Zero())
            && (Abs(loss) < speed ==> after == Scale(h, 1.0 - loss / speed) && Length(after, sqrt) == speed - loss)
  {
    FrictionStepAlgebra(h, speed, loss);
    if Abs(loss) < speed {
      ShortenedLength(h, speed, loss, sqrt);
    }
  }

  /** The arithmetic of one friction step on a horizontal velocity `h` of length `speed`: the
      deceleration reaches the velocity exactly when the magnitude of the loss reaches the speed,
      and otherwise adding it scales the velocity by 1 - loss / speed. */
  lemma FrictionStepAlgebra(h: Vec3, speed: real, loss: real)
    requires 0.0 < speed && speed * speed == SizeSquared(h)
    ensures var decel := Scale(Neg(Scale(h, 1.0 / speed)), loss);
            && (speed <= Abs(loss) ==> SizeSquared(decel) >= SizeSquared(h))
            && (Abs(loss) < speed ==> SizeSquared(decel) < SizeSquared(h) && Add(h, decel) == Scale(h, 1.0 - loss / speed))
  {
    DecelAlongVelocity(h, speed, loss);
    AbsSquared(loss);
    if speed <= Abs(loss) {
      SquaresOrdered(speed, Abs(loss));
    } else {
      SquareAbove(speed, Abs(loss));
      DecelAdded(h, speed, loss);
    }
  }

  lemma AbsSquared(a: real)
    ensures Abs(a) * Abs(a) == a * a
  {
  }

  /** A non-negative square root of a positive number is positive. */
  lemma PositiveRoot(r: real, x: real)
    requires 0.0 <= r && r * r == x && 0.0 < x
    ensures 0.0 < r
  {
    if r == 0.0 {
      assert false;
    }
  }

  lemma SquaresOrdered(a: real, b: real)
    requires 0.0 <= a <= b
    ensures a * a <= b * b
  {
    assert a * a <= a * b;
    assert a * b <= b * b;
  }

  /** The friction deceleration -(h / speed) * loss, where speed is the length of h, is h scaled
      by -loss / speed, and its squared length is loss squared. */
  lemma DecelAlongVelocity(h: Vec3, speed: real, loss: real)
    requires 0.0 < speed && speed * speed == SizeSquared(h)
    ensures Scale(Neg(Scale(h, 1.0 / speed)), loss) == Scale(h, -loss / speed)
    ensures SizeSquared(Scale(Neg(Scale(h, 1.0 / speed)), loss)) == loss * loss
  {
    var c := -loss / speed;
    NegatedQuotient(h.x, speed, loss);
    NegatedQuotient(h.y, speed, loss);
    NegatedQuotient(h.z, speed, loss);
    SizeSquaredScale(h, c);
    QuotientSquared(-loss, speed);
  }

  lemma NegatedQuotient(a: real, d: real, m: real)
    requires d != 0.0
    ensures -(a * (1.0 / d)) * m == a * (-m / d)
  {
  }

  /** (m / d)^2 * d^2 == m^2 for a non-zero d. */
  lemma QuotientSquared(m: real, d: real)
    requires d != 0.0
    ensures (m / d) * (m / d) * (d * d) == m * m
  {
    var q := m / d;
    assert q * d == m;
    assert q * q * (d * d) == (q * d) * (q * d);
  }

  lemma DecelAdded(h: Vec3, speed: real, loss: real)
    requires 0.0 < speed
    ensures Add(h, Scale(h, -loss / speed)) == Scale(h, 1.0 - loss / speed)
  {
    AddScaled(h.x, loss, speed);
    AddScaled(h.y, loss, speed);
    AddScaled(h.z, loss, speed);
    assert Add(h, Scale(h, -loss / speed)) ==
           Vec3(h.x + h.x * (-loss / speed), h.y + h.y * (-loss / speed), h.z + h.z * (-loss / speed));
    assert Scale(h, 1.0 - loss / speed) ==
           Vec3(h.x * (1.0 - loss / speed), h.y * (1.0 - loss / speed), h.z * (1.0 - loss / speed));
  }

  /** a + a * (-m / d) == a * (1 - m / d) for a non-zero d. */
  lemma AddScaled(a: real, m: real, d: real)
    requires d != 0.0
    ensures a + a * (-m / d) == a * (1.0 - m / d)
  {
    var q := m / d;
    assert -m / d == -q by {
      assert q * d == m;
      assert (-q) * d == -m;
    }
  }

  /** Shortening h by `loss` along itself leaves a vector of length speed - loss. */
  lemma ShortenedLength(h: Vec3, speed: real, loss: real, sqrt: real -> real)
    requires IsSqrt(sqrt) && speed == Length(h, sqrt) && Abs(loss) < speed
    ensures 0.0 <= 1.0 - loss / speed
    ensures Length(Scale(h, 1.0 - loss / speed), sqrt) == speed - loss
  {
    var k := 1.0 - loss / speed;
    assert loss / speed < 1.0 by { assert loss / speed * speed == loss; }
    LengthScale(h, k, sqrt);
    assert k * speed == speed - loss;
  }

  /** The velocity after `n` frames of friction alone in one mode. */
  function FrictionFrames(mode: MovementMode, v: Vec3, cfg: Config, dt: real, sqrt: real -> real, n: nat): Vec3
    requires cfg.Valid() && IsSqrt(sqrt)
    decreases n
  {
    if n == 0 then v else FrictionFrames(mode, FrictionVelocity(mode, v, cfg, dt, sqrt), cfg, dt, sqrt, n - 1)
  }

  // ---------------------------------------------------------------------------------------
  // Input

  /** The input clamp: the accumulated input vector, clamped to length at most 1 unless it is
      nearly zero, in which case it is returned as it is. The clamp keeps its direction. */
  function ConsumeMovementInput(raw: Vec3, cfg: Config, sqrt: real -> real): (r: Vec3)
    requires cfg.Valid() && IsSqrt(sqrt)
    ensures SizeSquared(r) <= 1.0
    ensures IsNearlyZero(raw, cfg.nearlyZeroTolerance) ==> r == raw
    ensures SizeSquared(raw) <= 1.0 ==> r == raw
    ensures 1.0 < SizeSquared(raw) ==> SizeSquared(r) == 1.0 && r == Scale(raw, 1.0 / Length(raw, sqrt))
  {
    if IsNearlyZero(raw, cfg.nearlyZeroTolerance) then
      assert SizeSquared(raw) <= 1.0 by { NearlyZeroShort(raw, cfg.nearlyZeroTolerance); }
      raw
    else
      var r := ClampedToMaxSize(raw, 1.0, cfg.nearlyZeroTolerance, sqrt);
      assert 1.0 < SizeSquared(raw) ==> r == Scale(raw, 1.0 / Length(raw, sqrt));
      r
  }

  /** A nearly-zero vector (tolerance at most 1/2) is no longer than 1. */
  lemma NearlyZeroShort(v: Vec3, tolerance: real)
    requires 0.0 <= tolerance <= 0.5 && IsNearlyZero(v, tolerance)
    ensures SizeSquared(v) <= 1.0
  {
    SquareAtMost(v.x, tolerance);
    SquareAtMost(v.y, tolerance);
    SquareAtMost(v.z, tolerance);
    SquareAtMost(tolerance, 0.5);
  }

  lemma SquareAtMost(a: real, t: real)
    requires 0.0 <= t && Abs(a) <= t
    ensures a * a <= t * t
  {
    var b := Abs(a);
    assert b * b == a * a;
    assert t * t - b * b == (t - b) * (t + b);
    var u, w := t - b, t + b;
    assert 0.0 <= u && 0.0 <= w;
    assert 0.0 <= u * w;
  }

  // ---------------------------------------------------------------------------------------
  // Move

  /** The velocity snap to input: with an input that is not nearly zero, the horizontal velocity
      becomes the input's unit direction times MaxSpeed; Z is untouched; without input the
      velocity is unchanged. */
  function InputVelocity(v: Vec3, input: Vec3, cfg: Config, sqrt: real -> real): (r: Vec3)
    requires cfg.Valid() && IsSqrt(sqrt)
    ensures r.z == v.z
    ensures IsNearlyZero(input, cfg.nearlyZeroTolerance) ==> r == v
    ensures !IsNearlyZero(input, cfg.nearlyZeroTolerance) ==>
              0.0 < Length(input, sqrt) &&
              Scale(Horizontal(r), Length(input, sqrt)) == Scale(Horizontal(input), cfg.maxSpeed)
  {
    if IsNearlyZero(input, cfg.nearlyZeroTolerance) then v
    else
      var inputDir := SafeNormal(input, cfg.safeNormalTolerance, sqrt);
      SnapOutcome(v, input, inputDir, cfg, sqrt);
      v.(x := inputDir.x * cfg.maxSpeed, y := inputDir.y * cfg.maxSpeed)
  }

  /** Setting the horizontal velocity to the unit direction of an input that is not nearly zero
      times MaxSpeed gives the input scaled by MaxSpeed / |input|. */
  lemma SnapOutcome(v: Vec3, input: Vec3, dir: Vec3, cfg: Config, sqrt: real -> real)
    requires cfg.Valid() && IsSqrt(sqrt) && !IsNearlyZero(input, cfg.nearlyZeroTolerance)
    requires dir == SafeNormal(input, cfg.safeNormalTolerance, sqrt)
    ensures 0.0 < Length(input, sqrt)
    ensures Scale(Horizontal(v.(x := dir.x * cfg.maxSpeed, y := dir.y * cfg.maxSpeed)), Length(input, sqrt)) ==
              Scale(Horizontal(input), cfg.maxSpeed)
  {
    UnitDirection(input, cfg, sqrt);
    SnapScaled(v, input, dir, Length(input, sqrt), cfg.maxSpeed);
  }

  lemma SnapScaled(v: Vec3, input: Vec3, dir: Vec3, len: real, m: real)
    requires len != 0.0 && dir == Scale(input, 1.0 / len)
    ensures Scale(Horizontal(v.(x := dir.x * m, y := dir.y * m)), len) == Scale(Horizontal(input), m)
  {
    DividedBack(input.x, len, m);
    DividedBack(input.y, len, m);
    assert Scale(Horizontal(v.(x := dir.x * m, y := dir.y * m)), len) ==
           Vec3(input.x * (1.0 / len) * m * len, input.y * (1.0 / len) * m * len, 0.0 * len);
  }

  lemma DividedBack(a: real, len: real, m: real)
    requires len != 0.0
    ensures a * (1.0 / len) * m * len == a * m
  {
  }

  /** The floor stability test of a grounded move: the cached floor normal is too steep, or it
      turned sharply since the previous floor, or the floor hit carries no face. */
  predicate IsUnstableFloor(s: MotionState, cfg: Config)
  {
    || s.cachedFloorNormal.z < cfg.unstableFloorZ
    || Dot(s.cachedFloorNormal, s.lastFloorNormal) < cfg.floorNormalDotEdge
    || s.currentFloorHit.faceIndex == IndexNone
  }

  /** The direction-based fallback step of a grounded move: horizontal, along the input's safe
      normal, at MaxSpeed for `dt`; an input too short to have a direction gives no step. How
      it follows the input is stated by FallbackAlongInput and FallbackAtFullSpeed. */
  function FallbackMove(input: Vec3, cfg: Config, dt: real, sqrt: real -> real): (r: Vec3)
    requires cfg.Valid() && IsSqrt(sqrt)
    ensures r.z == 0.0
    ensures SizeSquared(input) < cfg.safeNormalTolerance && SizeSquared(input) != 1.0 ==> r == Zero()
  {
    var inputDir := SafeNormal(input, cfg.safeNormalTolerance, sqrt);
    Vec3(inputDir.x * cfg.maxSpeed * dt, inputDir.y * cfg.maxSpeed * dt, 0.0)
  }

  /** The displacement of one move, from the state whose velocity has already been snapped to
      the input: velocity * dt when falling; when grounded, the fallback step on an unstable
      floor, otherwise the projection of velocity * dt onto the floor plane unless that
      projection is shorter than the minimum, in which case the fallback step again. */
  function Displacement(s: MotionState, input: Vec3, cfg: Config, dt: real, sqrt: real -> real): (r: Vec3)
    requires cfg.Valid() && IsSqrt(sqrt)
    ensures s.mode == Falling ==> r == Scale(s.velocity, dt)
    ensures s.mode == Grounded && IsUnstableFloor(s, cfg) ==> r == FallbackMove(input, cfg, dt, sqrt)
    ensures s.mode == Grounded && !IsUnstableFloor(s, cfg) ==>
              var projected := PlaneProject(Scale(s.velocity, dt), s.cachedFloorNormal);
              && (SizeSquared(projected) < cfg.minProjectedMoveSq ==> r == FallbackMove(input, cfg, dt, sqrt))
              && (cfg.minProjectedMoveSq <= SizeSquared(projected) ==> r == projected)
  {
    var moveDelta := Scale(s.velocity, dt);
    if s.mode == Grounded then
      if IsUnstableFloor(s, cfg) then FallbackMove(input, cfg, dt, sqrt)
      else
        var projected := PlaneProject(moveDelta, s.cachedFloorNormal);
        if SizeSquared(projected) < cfg.minProjectedMoveSq then FallbackMove(input, cfg, dt, sqrt)
        else projected
    else moveDelta
  }

  /** The engine requests of one move: the swept move of the displacement; when it is blocked,
      a slide along the obstruction for the unswept fraction; and, when grounded and the
      displacement's floor projection is not nearly zero, one corrective move of half that
      projection. */
  function MoveRequests(mode: MovementMode, cachedFloorNormal: Vec3, delta: Vec3, moveHit: HitResult, cfg: Config): (r: seq<MoveRequest>)
    ensures 1 <= |r| <= 3 && r[0] == SafeMove(delta)
    ensures 2 <= |r| <==> moveHit.blockingHit
    ensures 2 <= |r| ==> r[1] == SlideAlongSurface(delta, 1.0 - moveHit.time, moveHit.normal)
    ensures |r| == 3 <==>
              moveHit.blockingHit && mode == Grounded &&
              !IsNearlyZero(PlaneProject(delta, cachedFloorNormal), cfg.nearlyZeroTolerance)
    ensures |r| == 3 ==> r[2].SafeMove? && Scale(r[2].delta, 2.0) == PlaneProject(delta, cachedFloorNormal)
  {
    var first := [SafeMove(delta)];
    if moveHit.blockingHit then
      var slide := [SlideAlongSurface(delta, 1.0 - moveHit.time, moveHit.normal)];
      var floorSlide := PlaneProject(delta, cachedFloorNormal);
      if mode == Grounded && !IsNearlyZero(floorSlide, cfg.nearlyZeroTolerance) then
        first + slide + [SafeMove(Scale(floorSlide, 0.5))]
      else
        first + slide
    else
      first
  }

  /** The slope move direction: the input projected onto the floor plane, as a unit vector, or
      zero when that projection is too short to have a direction. With a unit floor normal the
      direction lies in the floor plane. */
  function ComputeSlopeMove(input: Vec3, floorNormal: Vec3, cfg: Config, sqrt: real -> real): (r: Vec3)
    requires cfg.Valid() && IsSqrt(sqrt)
    ensures r == Zero() || SizeSquared(r) == 1.0
    ensures var p := PlaneProject(input, floorNormal);
            SizeSquared(p) < cfg.safeNormalTolerance && SizeSquared(p) != 1.0 ==> r == Zero()
    ensures var p := PlaneProject(input, floorNormal);
            cfg.safeNormalTolerance <= SizeSquared(p) || SizeSquared(p) == 1.0 ==>
              0.0 < Length(p, sqrt) && r == Scale(p, 1.0 / Length(p, sqrt))
    ensures SizeSquared(floorNormal) == 1.0 ==> Dot(r, floorNormal) == 0.0
  {
    var projected := PlaneProject(input, floorNormal);
    var r := SafeNormal(projected, cfg.safeNormalTolerance, sqrt);
    SlopeOutcome(projected, floorNormal, r, cfg, sqrt);
    r
  }

  /** The safe normal `r` of a plane projection `p` is zero or a unit vector along `p`, and lies
      in the plane of a unit normal. */
  lemma SlopeOutcome(p: Vec3, floorNormal: Vec3, r: Vec3, cfg: Config, sqrt: real -> real)
    requires cfg.Valid() && IsSqrt(sqrt)
    requires r == SafeNormal(p, cfg.safeNormalTolerance, sqrt)
    requires SizeSquared(floorNormal) == 1.0 ==> Dot(p, floorNormal) == 0.0
    ensures r == Zero() || SizeSquared(r) == 1.0
    ensures SizeSquared(p) < cfg.safeNormalTolerance && SizeSquared(p) != 1.0 ==> r == Zero()
    ensures cfg.safeNormalTolerance <= SizeSquared(p) || SizeSquared(p) == 1.0 ==>
              0.0 < Length(p, sqrt) && r == Scale(p, 1.0 / Length(p, sqrt))
    ensures SizeSquared(floorNormal) == 1.0 ==> Dot(r, floorNormal) == 0.0
  {
    if cfg.safeNormalTolerance <= SizeSquared(p) || SizeSquared(p) == 1.0 {
      PositiveRoot(Length(p, sqrt), SizeSquared(p));
    }
    if SizeSquared(floorNormal) == 1.0 {
      SafeNormalAlong(p, cfg.safeNormalTolerance, sqrt);
      var k :| r == Scale(p, k);
      DotScale(p, floorNormal, k);
    }
  }

  /** A safe normal is always a multiple of the vector it normalises. */
  lemma SafeNormalAlong(v: Vec3, tolerance: real, sqrt: real -> real)
    requires IsSqrt(sqrt) && 0.0 < tolerance
    ensures exists k :: SafeNormal(v, tolerance, sqrt) == Scale(v, k)
  {
    var r := SafeNormal(v, tolerance, sqrt);
    if SizeSquared(v) == 1.0 {
      assert r == Scale(v, 1.0);
    } else if SizeSquared(v) < tolerance {
      assert r == Scale(v, 0.0);
    } else {
      assert r == Scale(v, 1.0 / Length(v, sqrt));
    }
  }

  lemma DotScale(a: Vec3, b: Vec3, k: real)
    ensures Dot(Scale(a, k), b) == k * Dot(a, b)
  {
  }

  // ---------------------------------------------------------------------------------------
  // Ground check

  /** A floor is walkable when its impact normal's Z reaches the walkable cutoff. */
  predicate IsWalkable(hit: HitResult, cfg: Config)
  {
    hit.impactNormal.z >= cfg.walkableZ
  }

  /** The ground sweep succeeds only for a sphere, and then reports what the world's sphere
      sweep reports. */
  function SweepGround(shape: Shape, worldSweepHit: bool): bool
  {
    match shape
    case Sphere(_) => worldSweepHit
    case OtherShape => false
  }

  /** What the world answered to the ground queries of one ground check: the shape of the moved
      component, the sphere sweep's return value and hit, the line trace's return value and hit. */
  datatype GroundSample = GroundSample(
    shape: Shape,
    sweepHit: bool,
    sweep: HitResult,
    traceHit: bool,
    trace: HitResult)

  /** A sweep that counts as ground: it succeeded, hit something blocking, within the maximum
      ground distance. */
  predicate IsValidSweep(g: GroundSample, cfg: Config)
  {
    SweepGround(g.shape, g.sweepHit) && g.sweep.blockingHit && g.sweep.distance <= cfg.maxGroundDistance
  }

  /** The four ways a ground check ends. */
  datatype GroundDecision = SweepLanding | GraceRetained | TraceLanding | LostGround

  /** The ground state machine's decision, in the order the checks are made. */
  function DecideGround(mode: MovementMode, g: GroundSample, cfg: Config): (d: GroundDecision)
    ensures d == GraceRetained ==> mode == Grounded
  {
    if IsValidSweep(g, cfg) && IsWalkable(g.sweep, cfg) then SweepLanding
    else if IsValidSweep(g, cfg) && mode == Grounded && g.sweep.impactNormal.z >= cfg.GraceZ() then GraceRetained
    else if g.traceHit && IsWalkable(g.trace, cfg) then TraceLanding
    else LostGround
  }

  /** The landing snap: for a sphere, the location one radius away from the impact point along
      the impact normal; nothing for any other shape. */
  function SnapToGround(shape: Shape, hit: HitResult): (r: Option<Vec3>)
    ensures r.Some? <==> shape.Sphere?
    ensures r.Some? ==> Sub(r.value, hit.impactPoint) == Scale(hit.impactNormal, shape.radius)
    ensures r.Some? ==>
              SizeSquared(Sub(r.value, hit.impactPoint)) == shape.radius * shape.radius * SizeSquared(hit.impactNormal)
  {
    match shape
    case Sphere(radius) =>
      var target := Add(hit.impactPoint, Scale(hit.impactNormal, radius));
      assert Sub(target, hit.impactPoint) == Scale(hit.impactNormal, radius);
      SizeSquaredScale(hit.impactNormal, radius);
      Some(target)
    case OtherShape => None
  }

  /** The result of a ground check: the new state and the location snapped to, if any. */
  datatype GroundStep = GroundStep(state: MotionState, snap: Option<Vec3>)

  /** The ground check. `interp` is the engine's rotation of one unit normal toward another
      (VInterpNormalRotationTo), taken as it is; `worldDeltaSeconds` is the world's frame time. */
  function CheckGround(s: MotionState, g: GroundSample, cfg: Config,
                       interp: (Vec3, Vec3, real, real) -> Vec3, worldDeltaSeconds: real): (r: GroundStep)
    ensures r.state.velocity == s.velocity
    ensures r.state.mode == Grounded <==> DecideGround(s.mode, g, cfg) != LostGround
  {
    match DecideGround(s.mode, g, cfg)
    case SweepLanding =>
      var hit := g.sweep;
      var from := if IsNearlyZero(s.cachedFloorNormal, cfg.nearlyZeroTolerance) then hit.impactNormal else s.cachedFloorNormal;
      var snap := if hit.impactNormal.z >= cfg.flatGroundZ && s.mode == Falling && s.velocity.z <= 0.0
                  then SnapToGround(g.shape, hit) else None;
      GroundStep(s.(mode := Grounded, currentFloorHit := hit, lastFloorNormal := s.cachedFloorNormal,
                    cachedFloorNormal := interp(from, hit.impactNormal, worldDeltaSeconds, cfg.floorNormalInterpSpeed)),
                 snap)
    case GraceRetained =>
      GroundStep(s.(currentFloorHit := g.sweep, cachedFloorNormal := g.sweep.impactNormal), None)
    case TraceLanding =>
      GroundStep(s.(mode := Grounded, currentFloorHit := g.trace, lastFloorNormal := s.cachedFloorNormal,
                    cachedFloorNormal := g.trace.impactNormal),
                 None)
    case LostGround =>
      GroundStep(s.(mode := Falling, currentFloorHit := EmptyHit()), None)
  }

  // ---------------------------------------------------------------------------------------
  // Tick

  /** What the engine supplies to one tick: whether there is an updated component, whether the
      engine asks to skip the update, the accumulated input, the blocking result of the first
      swept move, the ground queries' answers and the world's frame time. */
  datatype FrameInput = FrameInput(
    hasUpdatedComponent: bool,
    skipUpdate: bool,
    rawInput: Vec3,
    moveHit: HitResult,
    ground: GroundSample,
    worldDeltaSeconds: real)

  /** The result of one tick: the new state, the move requests issued, the location snapped to. */
  datatype TickOutcome = TickOutcome(state: MotionState, moves: seq<MoveRequest>, snap: Option<Vec3>)

  /** One tick: nothing happens without an updated component or when the update is skipped;
      otherwise gravity, friction, the move and the ground check run in that order, each on the
      state the previous one left. */
  function Tick(s: MotionState, frame: FrameInput, cfg: Config, dt: real, sqrt: real -> real,
                interp: (Vec3, Vec3, real, real) -> Vec3): (r: TickOutcome)
    requires cfg.Valid() && IsSqrt(sqrt)
    ensures !frame.hasUpdatedComponent || frame.skipUpdate ==> r == TickOutcome(s, [], None)
    ensures frame.hasUpdatedComponent && !frame.skipUpdate ==> 1 <= |r.moves|
  {
    if !frame.hasUpdatedComponent || frame.skipUpdate then TickOutcome(s, [], None)
    else
      var afterGravity := s.(velocity := GravityVelocity(s.mode, s.velocity, cfg.gravity, dt));
      var afterFriction := afterGravity.(velocity := FrictionVelocity(afterGravity.mode, afterGravity.velocity, cfg, dt, sqrt));
      var input := ConsumeMovementInput(frame.rawInput, cfg, sqrt);
      var afterInput := afterFriction.(velocity := InputVelocity(afterFriction.velocity, input, cfg, sqrt));
      var delta := Displacement(afterInput, input, cfg, dt, sqrt);
      var moves := MoveRequests(afterInput.mode, afterInput.cachedFloorNormal, delta, frame.moveHit, cfg);
      var ground := CheckGround(afterInput, frame.ground, cfg, interp, frame.worldDeltaSeconds);
      TickOutcome(ground.state, moves, ground.snap)
  }
}
