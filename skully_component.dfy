/** The Skully movement component as an object: its mutable state fields with their initial
    values, and the per-frame stages that update them in place, each proved to agree with the
    corresponding rule of module SkullyRules. Engine queries arrive as parameters; the moves the
    component asks the engine to make and the location it snaps to are returned. */
module SkullyComponent {
  import opened Vectors
  import opened SkullyTypes
  import opened SkullyRules

  class MovementComponent {
    /** The tuning the rules read. */
    const config: Config
    /** The engine's square root. */
    const sqrt: real -> real

    var mode: MovementMode
    var velocity: Vec3
    /** Declared by the component for slope sliding, which the rules never run. */
    var slopeSlideAppliedThisFrame: bool
    var lastFloorNormal: Vec3
    var cachedFloorNormal: Vec3
    var currentFloorHit: HitResult
    /** Declared by the component for slope sliding, which the rules never run. */
    var isSlopeSliding: bool

    ghost predicate Valid()
    {
      config.Valid() && IsSqrt(sqrt)
    }

    /** The part of the component's state that the rules read and write. */
    function State(): (s: MotionState)
      reads this
      ensures s.mode == mode && s.velocity == velocity
      ensures s.cachedFloorNormal == cachedFloorNormal && s.lastFloorNormal == lastFloorNormal
      ensures s.currentFloorHit == currentFloorHit
    {
      MotionState(mode, velocity, cachedFloorNormal, lastFloorNormal, currentFloorHit)
    }

    /** A new component starts falling, at rest, with both floor normals up, no floor hit and
        neither slide flag set. */
    constructor (config: Config, sqrt: real -> real)
      requires config.Valid() && IsSqrt(sqrt)
      ensures Valid() && this.config == config && this.sqrt == sqrt
      ensures State() == InitialState()
      ensures mode == Falling && velocity == Zero()
      ensures cachedFloorNormal == Up() && lastFloorNormal == Up()
      ensures !slopeSlideAppliedThisFrame && !isSlopeSliding
    {
      this.config := config;
      this.sqrt := sqrt;
      mode := Falling;
      velocity := Zero();
      slopeSlideAppliedThisFrame := false;
      lastFloorNormal := Up();
      cachedFloorNormal := Up();
      currentFloorHit := EmptyHit();
      isSlopeSliding := false;
    }

    /** Gravity: falling lowers the Z velocity by gravity * dt, grounded clamps it at zero. */
    method ApplyGravity(dt: real)
      modifies this`velocity
      ensures velocity == GravityVelocity(mode, old(velocity), config.gravity, dt)
      ensures velocity.x == old(velocity.x) && velocity.y == old(velocity.y)
      ensures mode == Falling ==> velocity.z == old(velocity.z) - config.gravity * dt
      ensures mode == Grounded ==> velocity.z == Max(old(velocity.z), 0.0)
    {
      if mode == Falling {
        velocity := velocity.(z := velocity.z - config.gravity * dt);
      } else {
        velocity := velocity.(z := Max(velocity.z, 0.0));
      }
    }

    /** Friction: the horizontal velocity loses FrictionFor(mode) * dt of speed along its own
        direction, and stops when that would reach its speed. */
    method ApplyFriction(dt: real)
      requires Valid()
      modifies this`velocity
      ensures velocity == FrictionVelocity(mode, old(velocity), config, dt, sqrt)
      ensures velocity.z == old(velocity.z)
    {
      velocity := FrictionVelocity(mode, velocity, config, dt, sqrt);
    }

    /** The move: the consumed input sets the horizontal velocity, the displacement is chosen
        from the mode and the floor, and the engine is asked to sweep it, to slide along what
        blocks it, and on the ground to make one corrective half-step along the floor.
        `moveHit` is the engine's answer to the first swept move. */
    method Move(dt: real, rawInput: Vec3, moveHit: HitResult) returns (moves: seq<MoveRequest>)
      requires Valid()
      modifies this`velocity
      ensures var input := ConsumeMovementInput(rawInput, config, sqrt);
              && velocity == InputVelocity(old(velocity), input, config, sqrt)
              && moves == MoveRequests(mode, cachedFloorNormal, Displacement(State(), input, config, dt, sqrt), moveHit, config)
      ensures velocity.z == old(velocity.z)
      ensures 1 <= |moves| <= 3
    {
      var input := ConsumeMovementInput(rawInput, config, sqrt);
      velocity := InputVelocity(velocity, input, config, sqrt);
      var moveDelta := ChooseDisplacement(State(), input, config, dt, sqrt);
      moves := IssueMoves(mode, cachedFloorNormal, moveDelta, moveHit, config);
    }

    /** The ground check: decides the next mode from the ground queries' answers, updates the
        floor hit and the floor normals, and returns the location to snap to, if any.
        `interp` is the engine's normal interpolation and `worldDeltaSeconds` the world's
        frame time. */
    method CheckGround(ground: GroundSample, interp: (Vec3, Vec3, real, real) -> Vec3, worldDeltaSeconds: real)
      returns (snap: Option<Vec3>)
      modifies this`mode, this`currentFloorHit, this`lastFloorNormal, this`cachedFloorNormal
      ensures var r := SkullyRules.CheckGround(old(State()), ground, config, interp, worldDeltaSeconds);
              State() == r.state && snap == r.snap
      ensures velocity == old(velocity)
      ensures mode == Grounded <==> DecideGround(old(mode), ground, config) != LostGround
    {
      snap := None;
      var hitGround := SweepGround(ground.shape, ground.sweepHit);
      var hit := ground.sweep;
      var graceZ := config.walkableZ - config.groundGraceZOffset;
      if hitGround && hit.blockingHit && hit.distance <= config.maxGroundDistance {
        var hitZ := hit.impactNormal.z;
        if hitZ >= config.walkableZ {
          currentFloorHit := hit;
          lastFloorNormal := cachedFloorNormal;
          var from := if IsNearlyZero(cachedFloorNormal, config.nearlyZeroTolerance) then hit.impactNormal else cachedFloorNormal;
          cachedFloorNormal := interp(from, hit.impactNormal, worldDeltaSeconds, config.floorNormalInterpSpeed);
          var isSlope := hitZ < config.flatGroundZ;
          if !isSlope && mode == Falling && velocity.z <= 0.0 {
            snap := SnapToGround(ground.shape, hit);
          }
          mode := Grounded;
          return;
        }
        if mode == Grounded && hitZ >= graceZ {
          currentFloorHit := hit;
          cachedFloorNormal := hit.impactNormal;
          return;
        }
      }
      if ground.traceHit {
        var lineHit := ground.trace;
        if lineHit.impactNormal.z >= config.walkableZ {
          currentFloorHit := lineHit;
          lastFloorNormal := cachedFloorNormal;
          cachedFloorNormal := lineHit.impactNormal;
          mode := Grounded;
          return;
        }
      }
      currentFloorHit := EmptyHit();
      mode := Falling;
    }

    /** One tick: nothing changes without an updated component or when the update is skipped;
        otherwise gravity, friction, the move and the ground check run in that order. */
    method TickComponent(dt: real, frame: FrameInput, interp: (Vec3, Vec3, real, real) -> Vec3)
      returns (moves: seq<MoveRequest>, snap: Option<Vec3>)
      requires Valid()
      modifies this`mode, this`velocity, this`currentFloorHit, this`lastFloorNormal, this`cachedFloorNormal
      ensures var r := Tick(old(State()), frame, config, dt, sqrt, interp);
              State() == r.state && moves == r.moves && snap == r.snap
      ensures !frame.hasUpdatedComponent || frame.skipUpdate ==> State() == old(State()) && moves == [] && snap == None
    {
      if !frame.hasUpdatedComponent || frame.skipUpdate {
        return [], None;
      }
      ApplyGravity(dt);
      ApplyFriction(dt);
      moves := Move(dt, frame.rawInput, frame.moveHit);
      snap := CheckGround(frame.ground, interp, frame.worldDeltaSeconds);
    }
  }

  /** The displacement choice of the move stage: velocity * dt, replaced on the ground by the
      horizontal fallback step on an unstable floor or when the floor projection is too short,
      and by the floor projection otherwise. */
  method ChooseDisplacement(s: MotionState, input: Vec3, cfg: Config, dt: real, sqrt: real -> real) returns (moveDelta: Vec3)
    requires cfg.Valid() && IsSqrt(sqrt)
    ensures moveDelta == Displacement(s, input, cfg, dt, sqrt)
  {
    moveDelta := Scale(s.velocity, dt);
    if s.mode == Grounded {
      var inputDir := SafeNormal(input, cfg.safeNormalTolerance, sqrt);
      var normalDot := Dot(s.cachedFloorNormal, s.lastFloorNormal);
      var unstableFloor := s.cachedFloorNormal.z < cfg.unstableFloorZ || normalDot < cfg.floorNormalDotEdge ||
                           s.currentFloorHit.faceIndex == IndexNone;
      var adjustedMove: Vec3;
      if unstableFloor {
        adjustedMove := Vec3(inputDir.x * cfg.maxSpeed * dt, inputDir.y * cfg.maxSpeed * dt, 0.0);
      } else {
        adjustedMove := PlaneProject(moveDelta, s.cachedFloorNormal);
        if SizeSquared(adjustedMove) < cfg.minProjectedMoveSq {
          adjustedMove := Vec3(inputDir.x * cfg.maxSpeed * dt, inputDir.y * cfg.maxSpeed * dt, 0.0);
        }
      }
      moveDelta := adjustedMove;
    }
  }

  /** The engine requests of the move stage: sweep the displacement; when blocked, slide along
      the obstruction and, on the ground, make a corrective half-step along the floor. */
  method IssueMoves(mode: MovementMode, cachedFloorNormal: Vec3, moveDelta: Vec3, moveHit: HitResult, cfg: Config)
    returns (moves: seq<MoveRequest>)
    ensures moves == MoveRequests(mode, cachedFloorNormal, moveDelta, moveHit, cfg)
  {
    moves := [SafeMove(moveDelta)];
    if moveHit.blockingHit {
      moves := moves + [SlideAlongSurface(moveDelta, 1.0 - moveHit.time, moveHit.normal)];
      if mode == Grounded {
        var floorSlide := PlaneProject(moveDelta, cachedFloorNormal);
        if !IsNearlyZero(floorSlide, cfg.nearlyZeroTolerance) {
          moves := moves + [SafeMove(Scale(floorSlide, 0.5))];
        }
      }
    }
  }
}
