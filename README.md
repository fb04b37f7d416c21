# Skully movement component, modelled in Dafny

This project models `USkullyMovementComponent` of MySkully. It is the custom locomotion
component that moves Skully, a sphere, in the Unreal Engine.

Every frame, `TickComponent` does nothing without an updated component, or when the engine asks
to skip the update. Otherwise it runs four stages in a fixed order:

1. **Gravity.** Falling lowers the Z velocity by `Gravity * dt`. Grounded clamps it at zero.
2. **Friction.** The horizontal velocity loses `friction * dt` of speed along its own direction.
   It stops when the loss reaches its speed. It is left alone when nearly zero.
3. **Move.**
   - The consumed input is clamped to length 1.
   - When the input is not nearly zero, it snaps the horizontal velocity to its direction times
     `MaxSpeed`.
   - A displacement is chosen:
     - in the air, velocity * dt;
     - on the ground, the projection onto the floor plane, or a horizontal fallback step on an
       unstable floor or when the projection is too short.
   - The engine is asked to sweep the displacement. When the sweep is blocked, the engine is
     asked to slide along the obstruction. On the ground it also makes one corrective half-step
     along the floor.
4. **Ground check.** A sphere sweep and a line trace decide the next movement mode. This is a
   small state machine with a grace band that keeps an already grounded body on the ground.
   Landing on flat ground while falling snaps the sphere onto the floor.

## Files

- `vectors.dfy` (module `Vectors`) holds three-component real vectors and the engine vector
  operations the component calls: `IsNearlyZero`, `GetSafeNormal`, `GetClampedToMaxSize`,
  `VectorPlaneProject`, `SizeSquared` and `DotProduct` (`Dot`). `Length`, the vector's length,
  is used by `GetSafeNormal`, `GetClampedToMaxSize` and the properties. The square root is a
  parameter constrained by `IsSqrt`.
- `skully_types.dfy` (module `SkullyTypes`) holds:
  - the movement mode;
  - the fields of `FHitResult` that are read;
  - the tuning (`Config`) and its defaults;
  - the per-component state (`MotionState`) and its initial value;
  - the engine requests.
- `skully_rules.dfy` (module `SkullyRules`) holds every stage as a pure function of the state,
  the ground state machine, and one whole tick (`Tick`).
- `skully_component.dfy` (module `SkullyComponent`) holds the component as a class. Its mutable
  fields carry the header's initial values. Its methods update them in place, and each method is
  proved to agree with the rule it runs.
- `skully_properties.dfy` (module `SkullyProperties`) holds the properties:
  - friction is bounded and keeps the direction;
  - friction brings the body to rest;
  - input sets the speed to `MaxSpeed`;
  - grounded displacement follows the floor;
  - the ground state machine's hysteresis, grace band, ground loss and landing snap;
  - what a whole tick does to the velocity and the mode.

The engine's queries and effects are parameters and results:
- the sphere sweep and line trace;
- the blocking result of the first swept move;
- whether an updated component exists;
- `ShouldSkipUpdate`;
- the collision shape and its radius;
- `GetWorld()->GetDeltaSeconds()`;
- `VInterpNormalRotationTo`.

The moves the component requests and the location it snaps to are returned.

`IsWalkable` (cpp 207-211) is the predicate `SkullyRules.IsWalkable`. The source's
`CheckGround` never calls it: cpp 141 and cpp 177 write the same comparison inline against the
same cutoff. The model's `DecideGround` uses the predicate for both, which is the same test.
`SweepGround` (cpp 106-124) is `SkullyRules.SweepGround`: it succeeds only for a sphere, and
then returns what the world sweep returns. `DecideGround` uses it, as `CheckGround` does. `WalkableFloors` and
`OnlySphereSweeps` state what they contribute. `NextModeCharacterised`, `GraceBand`,
`LandingSnap` and `TraceLanding` use them too.

## Model

Paths are relative to the repository root. `cpp` rows cite
`Source/MySkully/Private/Skully/SkullyMovementComponent.cpp`, and `h` rows cite
`Source/MySkully/Public/Skully/SkullyMovementComponent.h`.

| member | source | states |
|---|---|---|
| Vectors.SafeNormal | Source/MySkully/Private/Skully/SkullyMovementComponent.cpp:242 | GetSafeNormal: the result is zero or a unit vector. It is zero when the squared length is below the tolerance (and not exactly 1). Otherwise it is the vector divided by its length. |
| Vectors.ClampedToMaxSize | Source/MySkully/Private/Skully/SkullyMovementComponent.cpp:201 | GetClampedToMaxSize: the result is never longer than the maximum. A vector within the maximum is returned unchanged. A longer one is scaled along itself to exactly the maximum length. |
| Vectors.PlaneProject | Source/MySkully/Private/Skully/SkullyMovementComponent.cpp:74 | VectorPlaneProject onto a unit normal gives a vector orthogonal to that normal. |
| Vectors.PlaneProjectUnit | Source/MySkully/Private/Skully/SkullyMovementComponent.cpp:94 | Projection onto a unit-normal plane is idempotent. It never lengthens the vector: the squared length splits into the in-plane part and the normal part. |
| SkullyTypes.EmptyHit | Source/MySkully/Private/Skully/SkullyMovementComponent.cpp:189 | A default `FHitResult` is not a blocking hit and has face index `INDEX_NONE`. |
| SkullyTypes.DefaultConfig | Source/MySkully/Public/Skully/SkullyMovementComponent.h:53-164 | The default tuning (Gravity 2000, MaxSpeed 5500, GroundFriction 2000, AirFriction 100, cos 45 degrees, and so on) is valid. The grace threshold lies below the walkable cutoff. Gravity and friction are non-negative. The ground distance is shorter than the line-trace distance. The walkable cutoff is below the flat-ground threshold. |
| SkullyTypes.InitialState | Source/MySkully/Public/Skully/SkullyMovementComponent.h:166-186 | A new component is falling, at rest, with both floor normals up and no floor hit. |
| SkullyRules.GravityVelocity | Source/MySkully/Private/Skully/SkullyMovementComponent.cpp:30-41 | X and Y are unchanged. Falling subtracts `gravity * dt` from Z. Grounded makes Z `max(Z, 0)`: a negative Z becomes zero, and a non-negative Z is kept as it is. |
| SkullyRules.FrictionVelocity | Source/MySkully/Private/Skully/SkullyMovementComponent.cpp:233-256 | Z is unchanged. A nearly-zero horizontal velocity is left alone. Otherwise, with a non-negative loss `FrictionFor * dt`, the horizontal velocity becomes zero when the loss reaches its speed. Below that, it is scaled along itself by `1 - loss / speed` and its speed drops by exactly the loss. |
| SkullyRules.SlowedHorizontal | Source/MySkully/Private/Skully/SkullyMovementComponent.cpp:237-251 | The outcome on the horizontal velocity, for a loss of either sign. A nearly-zero velocity is left alone. Otherwise it stops when `abs(loss)` reaches its speed. Below that, it is scaled along itself by `1 - loss / speed` and its speed becomes `speed - loss`. |
| SkullyRules.DecelerateOutcome | Source/MySkully/Private/Skully/SkullyMovementComponent.cpp:242-251 | Adding `-SafeNormal(h) * loss` to a horizontal `h` that is not nearly zero keeps it horizontal, for a loss of either sign. The velocity stops exactly when the squared deceleration reaches its squared length, that is, when `abs(loss)` reaches the speed. Otherwise it is scaled along itself to length `speed - loss`. |
| SkullyRules.ConsumeMovementInput | Source/MySkully/Private/Skully/SkullyMovementComponent.cpp:193-205 | The consumed input has squared length at most 1. A nearly-zero input or one within length 1 is returned unchanged. A longer one is scaled to unit length along itself. |
| SkullyRules.InputVelocity | Source/MySkully/Private/Skully/SkullyMovementComponent.cpp:46-54 | Z is unchanged. A nearly-zero input leaves the velocity alone. Any other input makes the horizontal velocity times the input's length equal the horizontal input times MaxSpeed. The velocity follows the input's horizontal direction. For a planar input its speed is MaxSpeed (see `InputSetsMaxSpeed`). |
| SkullyRules.FallbackMove | Source/MySkully/Private/Skully/SkullyMovementComponent.cpp:68-79 | The fallback step is horizontal. It is zero when the input is too short to normalise. `FallbackAlongInput` and `FallbackAtFullSpeed` state its direction and length. |
| SkullyRules.Displacement | Source/MySkully/Private/Skully/SkullyMovementComponent.cpp:56-83 | Falling moves by velocity * dt. Grounded on an unstable floor takes the fallback step. Grounded on a stable floor takes the floor projection of velocity * dt when that projection reaches the minimum squared length, and the fallback step otherwise. |
| SkullyRules.MoveRequests | Source/MySkully/Private/Skully/SkullyMovementComponent.cpp:85-102 | The first request always sweeps the displacement. There is a second one exactly when that sweep is blocked: a slide for the unswept fraction `1 - Time` along the hit normal. There is a third exactly when, in addition, the body is grounded and the floor projection is not nearly zero: a sweep of half that projection. |
| SkullyRules.ComputeSlopeMove | Source/MySkully/Private/Skully/SkullyMovementComponent.cpp:213-216 | The slope direction is zero or a unit vector. It is zero when the projected input is too short. Otherwise it is the projected input divided by its length. With a unit floor normal it lies in the floor plane. |
| SkullyRules.DecideGround | Source/MySkully/Private/Skully/SkullyMovementComponent.cpp:136-190 | The grace band can only be granted to a body that is already grounded. |
| SkullyRules.SnapToGround | Source/MySkully/Private/Skully/SkullyMovementComponent.cpp:218-230 | A snap happens exactly for a sphere. The target is the impact point plus the impact normal times the radius. Its distance from the impact point is the radius times the impact normal's length. |
| SkullyRules.CheckGround | Source/MySkully/Private/Skully/SkullyMovementComponent.cpp:127-191 | The ground check never touches the velocity. The next mode is Grounded exactly when the decision is not "lost ground". |
| SkullyRules.Tick | Source/MySkully/Private/Skully/SkullyMovementComponent.cpp:13-27 | Without an updated component, or when the update is skipped, nothing changes and nothing is requested. Otherwise at least one move is requested. `TickVelocity`, `TickMode` and `TickStageOrder` state what the stages give, in order. |
| SkullyProperties.FrictionNeverOvershoots | Source/MySkully/Private/Skully/SkullyMovementComponent.cpp:242-254 | With a non-negative loss, friction never increases the horizontal speed and never flips the sign of X or Y. |
| SkullyProperties.FrictionAtRestStays | Source/MySkully/Private/Skully/SkullyMovementComponent.cpp:237-239 | Friction leaves a nearly-zero horizontal velocity unchanged for any number of frames. |
| SkullyProperties.FrictionComesToRest | Source/MySkully/Private/Skully/SkullyMovementComponent.cpp:233-256 | With a positive loss per frame, after n frames with `n * loss >= speed`, the horizontal velocity is nearly zero and Z is unchanged. |
| SkullyProperties.FrictionStepWithin | Source/MySkully/Private/Skully/SkullyMovementComponent.cpp:244-251 | One step on a moving body within a speed budget either stops it or leaves it within the budget less the loss. |
| SkullyProperties.FrictionIgnoresVertical | Source/MySkully/Private/Skully/SkullyMovementComponent.cpp:237 | Friction's X and Y results do not depend on Z. |
| SkullyProperties.InputSetsMaxSpeed | Source/MySkully/Private/Skully/SkullyMovementComponent.cpp:48-54 | A planar input that is not nearly zero after the clamp sets the horizontal speed to exactly MaxSpeed, whatever the input's length. Z is kept. |
| SkullyProperties.ClampedInputPlanar | Source/MySkully/Private/Skully/SkullyMovementComponent.cpp:199-202 | The clamp keeps a planar input planar. |
| SkullyProperties.FallbackAlongInput | Source/MySkully/Private/Skully/SkullyMovementComponent.cpp:68-79 | For any input that can be normalised (squared length at least the tolerance, or exactly 1), the fallback step times the input's length equals the horizontal input times `MaxSpeed * dt`. The step follows the input's horizontal direction. This includes nearly-zero inputs that can still be normalised, which take a full step. With `FallbackMove`'s zero case, every input is covered. |
| SkullyProperties.FallbackAtFullSpeed | Source/MySkully/Private/Skully/SkullyMovementComponent.cpp:70 | For a planar input that can be normalised, the fallback step is horizontal and exactly `MaxSpeed * dt` long. |
| SkullyProperties.GroundedDisplacementFollowsFloor | Source/MySkully/Private/Skully/SkullyMovementComponent.cpp:58-83 | With a unit floor normal, a grounded body takes the fallback step on an unstable floor. On a stable floor it takes the fallback step when the projection of velocity * dt is below the minimum. Otherwise it takes that projection, which lies in the floor plane and is no longer than velocity * dt. |
| SkullyProperties.NextModeCharacterised | Source/MySkully/Private/Skully/SkullyMovementComponent.cpp:137-190 | Grounded next exactly when one of three holds: a valid sweep is walkable; the body was grounded and a valid sweep reaches the grace threshold; or the trace hit a walkable floor. |
| SkullyProperties.GroundedIsSticky | Source/MySkully/Private/Skully/SkullyMovementComponent.cpp:160-165 | Hysteresis: every sample that grounds a falling body keeps a grounded body grounded. |
| SkullyProperties.GraceBand | Source/MySkully/Private/Skully/SkullyMovementComponent.cpp:160-165 | On a valid sweep in the band between the grace threshold and the walkable cutoff, a grounded body stays grounded. It takes the impact normal as its floor normal, keeps its last normal, and is not snapped. A falling body is grounded only by a walkable trace. |
| SkullyProperties.LosingGround | Source/MySkully/Private/Skully/SkullyMovementComponent.cpp:189-190 | Losing the ground makes the body fall and resets its floor hit. Nothing else changes. |
| SkullyProperties.LandingSnap | Source/MySkully/Private/Skully/SkullyMovementComponent.cpp:141-157 | A walkable sweep grounds the body and takes its hit as the floor hit. The previous floor normal becomes the old cached one. The cached normal is interpolated toward the impact normal, starting from the impact normal when the cached one is nearly zero. Nothing else changes. A snap happens exactly when the floor is flat and the body was falling and not rising. It goes one radius along the impact normal, so the sphere's centre is one radius from a unit-normal contact. |
| SkullyProperties.TraceLanding | Source/MySkully/Private/Skully/SkullyMovementComponent.cpp:175-185 | A landing on the line trace grounds the body and takes the trace's hit as the floor hit. The previous floor normal becomes the old cached one, and the cached normal becomes the trace's impact normal as it is. Nothing else changes, and there is no snap. |
| SkullyProperties.OnlySphereSweeps | Source/MySkully/Private/Skully/SkullyMovementComponent.cpp:106-124 | For a shape that is not a sphere, the sweep never lands or keeps the ground. The body is grounded exactly when the trace hits a walkable floor, and there is no snap. |
| SkullyProperties.WalkableFloors | Source/MySkully/Private/Skully/SkullyMovementComponent.cpp:207-211 | Walkability is monotone in the normal's Z: a floor at least as flat as a walkable one is walkable. With a non-negative grace offset, every walkable floor reaches the grace threshold. |
| SkullyProperties.WalkableBoundaryExample | Source/MySkully/Private/Skully/SkullyMovementComponent.cpp:133-134 | With the defaults and no trace hit, a valid sweep whose normal Z is 0.70 lies in the grace band: the mode is kept. |
| SkullyProperties.FlatLandingExample | Source/MySkully/Private/Skully/SkullyMovementComponent.cpp:148-153 | A falling sphere moving down that sweeps onto flat ground lands and is snapped one radius above the impact point. |
| SkullyProperties.TickVerticalVelocity | Source/MySkully/Private/Skully/SkullyMovementComponent.cpp:23-26 | In a tick, only gravity changes Z: falling lowers it by `gravity * dt`. Grounded leaves it non-negative and sets a negative one to zero. |
| SkullyProperties.TickStageOrder | Source/MySkully/Private/Skully/SkullyMovementComponent.cpp:23-26 | The stages run in order. The requests are `MoveRequests` of the displacement chosen from the velocity after gravity, friction and the input snap, with the starting mode and floor. The snap is decided by `CheckGround` on that same velocity, so on the Z that gravity left. |
| SkullyProperties.TickMode | Source/MySkully/Private/Skully/SkullyMovementComponent.cpp:23-26 | Only the ground check changes the mode, and it decides from the mode the tick started with. |
| SkullyProperties.TickVelocity | Source/MySkully/Private/Skully/SkullyMovementComponent.cpp:23-26 | The tick's velocity is gravity's, then friction's, then the input snap's, in that order. The ground check does not change it. |
| SkullyProperties.WithoutInputVelocity | Source/MySkully/Private/Skully/SkullyMovementComponent.cpp:46-54 | Gravity, friction and a nearly-zero input leave exactly friction's horizontal velocity. With a non-negative friction loss, it is never faster than before. |
| SkullyProperties.TickWithoutInput | Source/MySkully/Private/Skully/SkullyMovementComponent.cpp:23-26 | A tick without input changes the horizontal velocity by friction alone. With a non-negative friction loss, it never speeds the body up horizontally. |
| SkullyComponent.MovementComponent.constructor | Source/MySkully/Public/Skully/SkullyMovementComponent.h:166-186 | The fields start at the header's values: falling, zero velocity, both floor normals up, an empty floor hit, and both slide flags false. |
| SkullyComponent.MovementComponent.ApplyGravity | Source/MySkully/Private/Skully/SkullyMovementComponent.cpp:30-41 | The in-place update equals `GravityVelocity`. X and Y are kept. Z changes as gravity prescribes for the mode. |
| SkullyComponent.MovementComponent.ApplyFriction | Source/MySkully/Private/Skully/SkullyMovementComponent.cpp:233-256 | The in-place update equals `FrictionVelocity`. Z is kept. |
| SkullyComponent.MovementComponent.Move | Source/MySkully/Private/Skully/SkullyMovementComponent.cpp:44-103 | The velocity becomes `InputVelocity` of the clamped input. The requests are `MoveRequests` of the chosen `Displacement`: one to three of them. Z is kept. |
| SkullyComponent.MovementComponent.CheckGround | Source/MySkully/Private/Skully/SkullyMovementComponent.cpp:127-191 | The fields become those of `CheckGround`, and the snap target is returned. The velocity is untouched. The mode is Grounded exactly when the decision is not "lost ground". |
| SkullyComponent.MovementComponent.TickComponent | Source/MySkully/Private/Skully/SkullyMovementComponent.cpp:13-27 | The new state, the requests and the snap equal `Tick`. A skipped tick changes nothing. |
| SkullyComponent.ChooseDisplacement | Source/MySkully/Private/Skully/SkullyMovementComponent.cpp:56-83 | The imperative displacement choice equals `Displacement`. |
| SkullyComponent.IssueMoves | Source/MySkully/Private/Skully/SkullyMovementComponent.cpp:85-102 | The imperative request sequence equals `MoveRequests`. |

## Left out

- **Float arithmetic.** Reals stand in for single-precision floats. Rounding is not modelled.
- **Square root.** The engine's square root is a parameter `sqrt` that satisfies `IsSqrt`.
- **Walkable cutoff.** `FMath::Cos(FMath::DegreesToRadians(MaxSlopeAngle))` is not computed. The
  cutoff is the tuning field `walkableZ`, with default 0.7071067811865476, cos 45 degrees
  rounded.
- **VInterpNormalRotationTo.** A parameter `interp`, taken as it is. Nothing is proved about the
  interpolated normal.
- **Engine queries.** `SweepSingleByChannel`, `LineTraceSingleByChannel`,
  `UpdatedComponent == nullptr`, `ShouldSkipUpdate`, `GetScaledSphereRadius` and
  `GetDeltaSeconds` are inputs of the tick. The geometry of the sweep and trace is not modelled:
  start, end, radius plus `GroundCheckDistance`, the 12 cm trace and the ignored owner. The
  `Config` fields `groundCheckDistance` and `groundLineTraceDistance` keep their defaults, but
  no rule reads them.
- **Face index.** `IsUnstableFloor` takes the floor hit's face index as given. Neither query in
  the source asks for the face index (cpp 119-120 and 172-173). Under the engine's default, the
  face index then stays `INDEX_NONE`. cpp 64 would then always find the floor unstable, and the
  projection branch (cpp 74-79) would never run. This rests on the engine's default. The model
  covers both branches.
- **Engine moves.** `SafeMoveUpdatedComponent`, `SlideAlongSurface` and `SetWorldLocation` are
  returned as requests. Their effect on the component's location is not modelled. Of the hits
  they produce, only the first sweep's blocking result is an input.
- **Tick bookkeeping.** `Super::TickComponent` is engine code and not part of this model. So is
  `ConsumeInputVector`'s reset of the pending input: the accumulated input of the frame is a
  parameter.
- **Declared but not defined.** `ApplySlopeSlide` (h:35) and `UpdateMotionState` (h:41) are
  declared in the header but not defined, so nothing calls them. Their fields
  `bSlopeSlideAppliedThisFrame` and `bIsSlopeSliding` are kept with their initial values.
- **Header signatures.** The header declares `ApplyFriction(float, float)` and
  `CheckGround(float)`, but the definitions take one argument and none. The model follows the
  definitions.
- **Unused tuning.** The header's slope and speed tuning is read by no rule, so it is not
  modelled: `CurrentSpeed2D`, `CurrentMoveDir2D`, `Acceleration`, `SlidingFriction`,
  `StaticFrictionAccel`, `MinSlopeSlideStartSpeed`, `DownhillSampleDistance`, `StopSlopeAngle`,
  `SlopeSlideScale`, `MaxSlopeSlideSpeed` and `SlideDamping`.
- **Literals versus header fields.** The rules write literals where the header declares fields:
  - 8.0 instead of `MaxGroundDistance`;
  - 0.05 instead of `GroundGraceZOffset`;
  - 12.0 instead of `GroundLineTraceDistance`;
  - 0.99 instead of `UnstableFloorZThreshold` (default 0.97);
  - 0.95 instead of `FloorNormalDotEdgeThreshold`;
  - 0.999 instead of `FlatGroundZThreshold` (default 0.997).

  The model makes each a `Config` field whose default is the literal the rules use.
- **MinProjectedMoveSq.** The rules read `MinProjectedMoveSq`, which the header never declares
  (it declares `MinProjectedMoveCm = 1`). The model takes it as a field with default 1.
- **ComputeSlopeMove.** Modelled, but no stage calls it, as in the source.
- **Other repository files.** `Skully.cpp`, `Skully.h`, the game mode and the game instance are
  not part of this model.
- SkullyRules.FrictionVelocity: its own speed clauses are stated only for a non-negative loss
  `FrictionFor * dt`. For a loss of either sign, `SlowedHorizontal` states the outcome, and
  `FrictionVelocity` applies it to the horizontal velocity. The body stops when `abs(loss)`
  reaches the speed. Otherwise the speed becomes `speed - loss`, so a negative loss smaller than
  the speed speeds the body up.
- SkullyProperties.FrictionNeverOvershoots: stated only for a non-negative loss. With a negative
  loss smaller than the speed, friction speeds the body up.
- SkullyProperties.FrictionComesToRest: the horizontal velocity ends nearly zero, not exactly
  zero. Friction skips a velocity whose components are all within the nearly-zero tolerance, so
  a velocity that enters that band on its way down keeps its small remainder forever. This is
  what the code does, even though the friction stage is naturally read as stopping the body.
- SkullyComponent.MovementComponent.Move: the move's own hit is the only engine answer it
  takes. The floor slide's hit is discarded by the source and not modelled.
