# night-walk core, modelled in Dafny

This project models the core of night-walk, a Python game engine in the style of Godot.
It covers the engine's software 3D physics server and the kinematic character controller built on it, plus a handful of small discrete components.

- **Physics server.**
  - Handle tables for bodies, shapes and spaces: `PhysicsServer`, `ShapeStore`.
  - Runtime bodies with their integration and impulse calls: `Bodies`.
  - Areas that override gravity and damping: `Areas`.
  - The O(n²) broadphase with layer and mask filtering: `Broadphase`.
  - The space's step loop and its swept `body_test_motion`: `Space`.
  - The narrowphase dispatcher (`CollisionSolver`) over its solvers:
    - the box-against-box separating axis test (`Sat`);
    - the capsule solvers (`Capsules`);
    - the sphere tests and support mappings (`Primitives`);
    - the GJK loop (`Gjk`);
    - the segment and plane helpers (`Geometry`).
- **Character controller.**
  - The physics body node and its move_and_collide: `PhysicsBody`.
  - The bounded slide loop: `SlideSolver`.
  - Floor, wall and ceiling classification: `CollisionClassifier`.
  - Velocity projection: `VelocityResolver`.
  - Floor snapping: `FloorSnapper`.
  - The grounded and floating motion modes: `MotionModes`.
  - Platform tracking: `PlatformTracker`.
  - The motion settings and state: `MotionStates`.
  - The CharacterBody3D node with move_and_slide: `CharacterBody`.
- **Discrete components.**
  - The Wavefront OBJ loader, in three parts:
    - line parsing (`ObjParse`);
    - per-surface vertex deduplication and fan triangulation (`ObjSurface`);
    - bucketing into surfaces (`ObjMesh`).
  - These rest on Python's dict order (`DictOrder`) and its string operations (`PyStrings`).
  - The plane mesh generator: `PlaneMeshes`.
  - The 2D canvas server's storage and item tree, with its z-sorted render list: `CanvasStore`, `CanvasServers`.
  - Hex colours: `Colors`.
  - The scene Timer: `Timers`.
  - The game's stamina component: `Stamina`.
  - The UI Range widget: `Ranges`.

**How the model is built.**

- **Classes and values.**
  - Objects whose fields the engine updates in place are Dafny classes. Their methods name what they modify and state their whole new state. That state is usually given as a function of the old state.
  - The physics storages, Body3D, Space3D, the broadphase, the canvas storage and server, Timer, Stamina and Range are such classes. On the character side the classes are CharacterBody3D, CharacterMotionState and PlatformTracker.
  - SlideSolver, CollisionClassifier, VelocityResolver, FloorSnapper and MotionModes hold no state of their own; they are modules of functions and methods.
  - Pure computations are functions: the solvers, the geometry, the classifier, colours and the OBJ string handling.
  - Where the engine's code loops, the model has a method with a loop. That method is proved equal to a specification function.
- **Vectors and maths.**
  - Vectors are over `real`.
  - Square root, inverse cosine, the trigonometric functions and rotation have no definition here. They arrive as a `Maths` record, and its square root has to be lawful wherever a proof needs that.
- **Dictionaries.**
  - A dictionary whose iteration order matters is a sequence in insertion order: the space's bodies and areas, the broadphase entries, the OBJ vertex table and buckets.
  - Any other dictionary is a `map`.
- **Exceptions.**
  - An exception the Python code would raise is an `Outcome` value (`Raised(TypeError)` and so on). Every error path is kept.

Where the code does something other than what it evidently means, the module holds both versions:

- the code as written, as an `...AsWritten` member, with a lemma that shows the difference on a concrete input;
- the corrected behaviour, which the rest of the model uses.

These cases are listed under "## Findings".

There is also one quirk that is modelled but not corrected. An OBJ face index of -1 is turned into position -2, the second-to-last vertex (`ObjSurface.RelativeIndexShift`). The model keeps this behaviour as it is.

## Model

| member | source | states |
|---|---|---|
| `Vectors.LengthNonNeg` | engine/math/datatypes/vector3.py:75-79 | with a lawful square root, `length()` is non-negative and squares to `length_squared()` |
| `Vectors.Add` | engine/math/datatypes/vector3.py:44-47 | Vector3 + Vector3, component by component; the other operators (Sub, Neg, Scale, Mul, Div) follow it |
| `Vectors.Dot` | engine/math/datatypes/vector3.py:87-88 | the sum of the component products; `Gjk.TripleProduct` relates it to Cross |
| `Vectors.Cross` | engine/math/datatypes/vector3.py:90-91 | the right-handed cross product; `Gjk.TripleProduct` relates it to Dot |
| `Vectors.Length` | engine/math/datatypes/vector3.py:75-76 | the square root of the squared length; `Vectors.LengthNonNeg` states what it is under a lawful square root |
| `Vectors.Normalized` | engine/math/datatypes/vector3.py:81-85 | the vector over its length, the zero vector when the length is 0; `Vectors.NormalizedIsScaled` is its partner |
| `Vectors.Lerp` | engine/math/utils.py:21-22 | a + (b - a) * t |
| `Vectors.Xform` | engine/math/datatypes/transform_3d.py:22-24 | the basis applied to the vector, plus the origin; `Vectors.ToWorldZero` is its partner |
| `Vectors.Rotated` | engine/math/datatypes/transform_3d.py:38-41 | the basis is rotated around a global axis and the origin is kept |
| `Vectors.NormalizedIsScaled` | engine/math/datatypes/vector3.py:81-85 | `normalized()` is the vector scaled by a non-negative factor (the zero vector stays zero), so it keeps its direction |
| `Vectors.BasisXformIdentity` | engine/math/datatypes/basis.py:92-94 | the identity basis maps every vector to itself |
| `Vectors.ComposeIdentity` | engine/math/datatypes/transform_3d.py:80-95 | the identity transform is a unit of `Transform3D * Transform3D` on both sides |
| `Vectors.ToWorldZero` | engine/math/datatypes/transform_3d.py:22-24 | a transform maps the local origin to its own origin |
| `Aabbs.End` | engine/math/datatypes/aabb.py:17-19 | `end` lies `size` beyond `position` on each axis |
| `Aabbs.IntersectsSymmetric` | engine/math/datatypes/aabb.py:21-29 | `a.intersects(b)` exactly when `b.intersects(a)` |
| `Aabbs.TouchingDoesNotIntersect` | engine/math/datatypes/aabb.py:21-29 | boxes that only share a face do not intersect, in either order (the comparisons are `<=` and `>=`) |
| `Aabbs.SelfIntersects` | engine/math/datatypes/aabb.py:21-29 | a box intersects itself exactly when its size is positive on every axis |
| `Aabbs.CommonPointIntersects` | engine/math/datatypes/aabb.py:21-29 | a point strictly inside both boxes makes them intersect |
| `Aabbs.IntersectsIffCommonPoint` | engine/math/datatypes/aabb.py:21-29 | for boxes of positive size, the test holds exactly when some point lies strictly inside both |
| `Geometry.Clamp01` | engine/math/geometry.py:29 | `max(0.0, min(1.0, x))` lies in [0, 1], is `x` inside it and the nearer end outside it |
| `Geometry.ReClamp` | engine/math/geometry.py:42-49 | the re-solved `t` lies in [0, 1]; `s` stays in [0, 1]; an unclamped `t` leaves `s` as it was |
| `Geometry.ClosestSegmentSegmentAsWritten` | engine/math/geometry.py:7-54 | the function raises exactly when the first segment is non-degenerate and the second is degenerate, and then it raises UnboundLocalError (line 42 reads `b`, which only line 35 assigns) |
| `Geometry.ClosestSegmentSegment` | engine/math/geometry.py:7-54 | both parameters lie in [0, 1]; two degenerate segments give `(0, 0, p1, p2)`; `c1` and `c2` are the points at `s` and `t` along each segment |
| `Geometry.SegmentSegmentAgrees` | engine/math/geometry.py:7-54 | wherever the function as written returns, the corrected function returns the same four values |
| `Geometry.SegmentSegmentRaisesOnPoint` | engine/math/geometry.py:32-42 | a non-degenerate segment against a single point raises UnboundLocalError |
| `Geometry.ClosestPointOnSegmentAsWritten` | engine/math/geometry.py:57-64 | the function raises exactly when `ab.dot(ab) == 0`, with ZeroDivisionError; otherwise it returns the corrected closest point |
| `Geometry.ClosestPointOnPointSegmentRaises` | engine/math/geometry.py:61-62 | a segment whose ends coincide raises ZeroDivisionError |
| `Geometry.SegmentParam` | engine/math/geometry.py:62-63 | the clamped parameter lies in [0, 1] |
| `Geometry.ClosestPointOnSegment` | engine/math/geometry.py:57-64 | the result is the point at the clamped parameter along the segment |
| `Geometry.ClosestPointOnSegmentFixesSegmentPoints` | engine/math/geometry.py:57-64 | a point already on a non-degenerate segment is its own closest point |
| `Geometry.SampleDists` | engine/math/geometry.py:74-98 | there are 17 samples, and the i-th distance is that of the sample at `i / 16` |
| `Geometry.BestIndex` | engine/math/geometry.py:99-101 | the kept index is one of the samples seen so far |
| `Geometry.BestIndexIsFirstMinimum` | engine/math/geometry.py:99-101 | the kept sample's distance is at most every distance seen and strictly below every earlier one (the `<` keeps the first minimum) |
| `Geometry.SegmentToBoxIsFirstClosestSample` | engine/math/geometry.py:67-103 | the chosen point is a sample no farther from the box than any other sample and strictly nearer than every sample before it |
| `Geometry.SegmentToBox` | engine/math/geometry.py:67-103 | the sample chosen among the 17 along the segment; `Geometry.SegmentToBoxIsFirstClosestSample` states which one |
| `Geometry.ClosestPointSegmentToBox` | engine/math/geometry.py:67-103 | the method returns the first closest sample to the box |
| `Geometry.ClosestSample` | engine/math/geometry.py:71-103 | the sampling loop returns the sample at the first minimum of the distances |
| `Geometry.PerpendicularIsOrthogonal` | engine/math/geometry.py:106-117 | `get_perpendicular(v)` is orthogonal to `v` on each of its three branches |
| `Geometry.NormalizedKeepsOrthogonal` | engine/math/geometry.py:113-117 | normalizing keeps a vector orthogonal to what it was orthogonal to |
| `Geometry.GetPerpendicular` | engine/math/geometry.py:106-117 | the smallest component zeroed and the other two swapped with one sign flip, then normalized; `Geometry.PerpendicularIsOrthogonal` is its partner |
| `Geometry.ClosestPointOnPlaneIsOnPlane` | engine/math/geometry.py:120-141 | for a unit normal, the projected point is at distance 0 from the plane |
| `Geometry.ClosestPointOnPlaneFixesPlanePoints` | engine/math/geometry.py:120-141 | a point on the plane is its own projection, whatever the length of the normal |
| `Geometry.ClosestPointOnPlane` | engine/math/geometry.py:120-141 | the point moved back along the normal by its signed distance; the two lemmas above state that it lands on the plane and fixes plane points |
| `Shapes.Radius` | engine/servers/physics/solver/capsule.py:21 | a missing `radius` reads as 0.5, a present one as itself |
| `Shapes.Height` | engine/servers/physics/solver/capsule.py:22 | a missing `height` reads as 2.0, a present one as itself |
| `Shapes.HalfExtents` | engine/servers/physics/solver/capsule.py:124 | missing `half_extents` read as (0.5, 0.5, 0.5) |
| `Shapes.PlaneNormal` | engine/servers/physics/solver/capsule.py:216 | a missing plane `normal` reads as (0, 1, 0) |
| `Shapes.PlaneD` | engine/servers/physics/solver/capsule.py:217 | a missing plane `d` reads as 0.0 |
| `Shapes.CapsuleHalfHeight` | engine/servers/physics/solver/capsule.py:26-27 | the inner half length is never negative; it is half of `height - 2 radius` when that is not negative, and 0 otherwise |
| `Primitives.GetSupportPoint` | engine/servers/physics/solver/primitives.py:28-93 | the support point is the local support of the direction taken into the shape's frame and mapped back to world space; shapes without a support mapping give the origin; a sphere, box, capsule or cylinder whose data is None raises AttributeError |
| `Primitives.Support` | engine/servers/physics/solver/primitives.py:10-25 | the Minkowski point is `point_a - point_b`, with A supported along the direction and B along its negation; it raises exactly when one of the two shapes does |
| `Primitives.BoxSupportIsFurthest` | engine/servers/physics/solver/primitives.py:47-53 | no point of the box lies further along the direction than the chosen corner |
| `Primitives.BoxSupport` | engine/servers/physics/solver/primitives.py:47-53 | the corner with +half-extent where the direction is positive and -half-extent elsewhere; `Primitives.BoxSupportIsFurthest` is its partner |
| `Primitives.SphereSupportNearZeroIsCenter` | engine/servers/physics/solver/primitives.py:41-45 | a sphere supported along a direction shorter than EPSILON gives its centre |
| `Primitives.SphereVsSphere` | engine/servers/physics/solver/primitives.py:96-132 | no contact exactly when the squared distance reaches the squared radius sum; a contact is collided, has `point_a` and `point_b` on the two spheres along the normal, and coincident centres give normal +x, depth the radius sum and point centre A; data None raises AttributeError |
| `Primitives.SphereVsSphereDepth` | engine/servers/physics/solver/primitives.py:117-126 | with a lawful square root and non-negative radii, a contact's depth lies in (0, radius sum] |
| `Primitives.FaceGap` | engine/servers/physics/solver/primitives.py:191-209 | the face the test order picks has the smallest gap of the three |
| `Primitives.SphereBoxContact` | engine/servers/physics/solver/primitives.py:177-223 | the contact point is the closest point of the box, `point_b` is that point, `point_a` is on the sphere along the normal, and a centre inside the box gets depth radius plus the smallest face gap |
| `Primitives.SphereVsBox` | engine/servers/physics/solver/primitives.py:135-223 | no contact exactly when the squared distance to the closest box point reaches the squared radius; otherwise the contact above; data None raises AttributeError |
| `Primitives.BoundsAreTight` | engine/servers/physics/solver/primitives.py:251-261 | the box from the component-wise minimum to the maximum contains every point, and its faces touch points |
| `Primitives.BoxCorners` | engine/servers/physics/solver/primitives.py:238-249 | the corner loop gives eight corners |
| `Primitives.GetAabb` | engine/servers/physics/solver/primitives.py:226-298 | the method returns the bounds of the shape kind: the corner loop for a box, the formulas for the other kinds, the unit box otherwise, and AttributeError for data None |
| `Primitives.SphereAabbIsCentered` | engine/servers/physics/solver/primitives.py:228-233 | the sphere bounds are a cube of side 2r centred on the sphere |
| `Primitives.BoxAabbContainsCorners` | engine/servers/physics/solver/primitives.py:235-261 | the box bounds contain all eight corners |
| `Primitives.BoxAabbIsBounds` | engine/servers/physics/solver/primitives.py:235-261 | the box branch gives the min/max box of its corners |
| `Primitives.SegmentAabbContainsEnds` | engine/servers/physics/solver/primitives.py:263-295 | the capsule and cylinder bounds contain both ends of the axis segment with the radius to spare on every side |
| `Primitives.ShapeAabb` | engine/servers/physics/solver/primitives.py:226-298 | get_aabb as a value, by shape kind; the lemmas above state that each kind's bounds contain the shape |
| `Capsules.CapsuleEnds` | engine/servers/physics/solver/capsule.py:26-35 | the inner segment of a capsule runs from `origin - basis.y * half_height` to `origin + basis.y * half_height` |
| `Capsules.ShortCapsuleIsPoint` | engine/servers/physics/solver/capsule.py:26-35 | a capsule no taller than its two caps has both segment ends at its origin |
| `Capsules.SegmentContact` | engine/servers/physics/solver/capsule.py:46-64 | the contact of two capsules: depth `radius_sum - distance` and normal `delta / distance`, or depth `radius_sum` and the fallback normal when the closest points are within epsilon; point at the midpoint; point_a and point_b one radius along the normal from each closest point |
| `Capsules.SegmentContactDepth` | engine/servers/physics/solver/capsule.py:43-60 | whenever capsule_vs_capsule reports a contact, its depth lies in (0, radius_sum] |
| `Capsules.CoincidentNormalIsPerpendicular` | engine/servers/physics/solver/capsule.py:51-56 | the normal used for touching segments (axis cross product, else a perpendicular of axis A) is perpendicular to axis A |
| `Capsules.CapsuleFromClosest` | engine/servers/physics/solver/capsule.py:39-44 | no contact exactly when the closest points are at least `radius_sum` apart, squared |
| `Capsules.CapsuleVsCapsule` | engine/servers/physics/solver/capsule.py:16-66 | a missing shape data raises AttributeError; otherwise the answer is the segment-segment contact of the two capsules' segments |
| `Capsules.CapsuleVsCapsuleAsWritten` | engine/servers/physics/solver/capsule.py:16-66 | over the segment-segment routine as written, it agrees with `CapsuleVsCapsule` wherever it does not raise, and a raise on present data is UnboundLocalError |
| `Capsules.CapsuleVsShortCapsuleRaises` | engine/servers/physics/solver/capsule.py:37 | a proper capsule against a capsule no taller than its caps raises UnboundLocalError in the segment-segment routine |
| `Capsules.PointContact` | engine/servers/physics/solver/capsule.py:96-109 | the capsule-sphere contact: the point is the closest segment point, depth `radius_sum - distance`, or `radius_sum` with a perpendicular of the axis when the sphere center is on the segment |
| `Capsules.PointContactDepth` | engine/servers/physics/solver/capsule.py:93-105 | whenever capsule_vs_sphere reports a contact, its depth lies in (0, radius_sum] |
| `Capsules.SphereFromClosest` | engine/servers/physics/solver/capsule.py:89-94 | no contact exactly when the sphere center is at least `radius_sum` from the closest segment point, squared |
| `Capsules.CapsuleVsSphere` | engine/servers/physics/solver/capsule.py:69-111 | a missing shape data raises AttributeError; otherwise the answer is the point contact with the closest point of the capsule segment |
| `Capsules.CapsuleVsSphereAsWritten` | engine/servers/physics/solver/capsule.py:69-111 | over the dividing closest_point_on_segment, it agrees with `CapsuleVsSphere` wherever it does not raise, and a raise on present data is ZeroDivisionError |
| `Capsules.ShortCapsuleVsSphereRaises` | engine/servers/physics/solver/capsule.py:81-87 | a capsule no taller than its caps makes capsule_vs_sphere raise ZeroDivisionError |
| `Capsules.CapsuleVsBox` | engine/servers/physics/solver/capsule.py:114-199 | a missing shape data raises AttributeError; otherwise no contact exactly when the sampled segment point is at least one radius from the box, and a contact is the sphere-box contact of that point with the capsule radius |
| `Capsules.CapsuleInBoxDepth` | engine/servers/physics/solver/capsule.py:164-186 | when the segment point is inside the box the depth is the radius plus the smallest face gap |
| `Capsules.WorldPlane` | engine/servers/physics/solver/capsule.py:216-225 | the world plane normal is the normalized basis image of the local normal, and the offset is `d - normal . origin` |
| `Capsules.CapsuleVsPlane` | engine/servers/physics/solver/capsule.py:202-259 | a missing shape data raises AttributeError; no contact exactly when the nearer segment end is more than one radius above the plane; a contact has the world normal, depth `radius - distance >= 0`, point_b equal to point, and is measured from one of the segment ends |
| `Capsules.CapsuleVsPlanePointOnPlane` | engine/servers/physics/solver/capsule.py:249-257 | for a unit world normal the reported contact point lies on the plane |
| `Sat.BoxVsBoxSatAsWritten` | engine/servers/physics/solver/sat.py:16-42 | as written the call always raises: on present shape data it is TypeError, from indexing a `Vector3` |
| `Sat.AbsR` | engine/servers/physics/solver/sat.py:27-30 | every entry of `abs_R` is positive (EPSILON is added to an absolute value) |
| `Sat.Test` | engine/servers/physics/solver/sat.py:49-50 | an axis test gives the penetration `ra + rb - abs(t . axis)` on that axis |
| `Sat.EdgeProbe` | engine/servers/physics/solver/sat.py:181-186 | an edge axis is skipped exactly when the cross product of the two edges has squared length below `EPSILON * EPSILON` |
| `Sat.Probes` | engine/servers/physics/solver/sat.py:36-203 | the 15 axes are tested in the source's order: A's three faces, then B's three faces, then the nine rows of the edge table |
| `Sat.ScanMeaning` | engine/servers/physics/solver/sat.py:52-58 | the scan separates exactly when some tested axis has negative penetration; otherwise the kept penetration is non-negative, no larger than any tested one, and belongs to the first axis that reaches it |
| `Sat.SatResult` | engine/servers/physics/solver/sat.py:205-214 | the result has the kept depth, the kept axis negated when `t . axis < 0`, and the midpoint of the two origins as its point |
| `Sat.BoxVsBoxSatMeaning` | engine/servers/physics/solver/sat.py:9-214 | with the extents read by component, two boxes collide unless some axis separates them; the depth is the smallest penetration over the tested axes and the normal is an axis reaching it, flipped toward B |
| `Sat.BoxVsBoxSat` | engine/servers/physics/solver/sat.py:9-214 | the three loops compute exactly the axis scan (`BoxVsBoxSatSpec`), returning early on the first separating axis |
| `Sat.SeparatedStays` | engine/servers/physics/solver/sat.py:52-53 | once an axis separates, no later axis changes the answer, so the early return is the scan's answer |
| `Gjk.PairSupport` | engine/servers/physics/solver/gjk.py:29-31 | a support query raises exactly when a shape that reads its data has none, and its Minkowski point is the difference of the two support points |
| `Gjk.LineDirectionAsWritten` | engine/servers/physics/solver/gjk.py:76-84 | the in-place update gets only the x component of `(ab x ao) x ab` right, since `temp` aliases `direction` |
| `Gjk.LineDirection` | engine/servers/physics/solver/gjk.py:76-84 | the intended line direction `(ab x ao) x ab` is perpendicular to the segment and points toward the origin |
| `Gjk.LineDirectionAsWrittenIsSkewed` | engine/servers/physics/solver/gjk.py:76-84 | for `ab = (1, 2, 1)`, `ao = (1, 1, 1)` the written update gives `(2, -3, 7)`, not perpendicular to `ab`, where the intended one gives `(2, -2, 2)` |
| `Gjk.TripleProduct` | engine/servers/physics/solver/gjk.py:76-84 | the scalar triple product may be cycled: (a x b) . c == a . (b x c), which the line direction proofs use |
| `Gjk.Triangle` | engine/servers/physics/solver/gjk.py:92-145 | the triangle case never reports containment, keeps one to three of the points it was given, and always keeps the newest point last |
| `Gjk.ProcessSimplex` | engine/servers/physics/solver/gjk.py:65-172 | the simplex encloses the origin exactly when it has four points and all three face tests fail, and then it and the direction are unchanged; otherwise one to three of its points remain, the newest last |
| `Gjk.ProcessSimplexAsWritten` | engine/servers/physics/solver/gjk.py:65-172 | the written update keeps the same points and containment answer as the corrected one, and differs only in the line case's direction |
| `Gjk.InitialDirection` | engine/servers/physics/solver/gjk.py:24-27 | the first direction is `origin_A - origin_B`, or `(1, 0, 0)` when its squared length is below EPSILON |
| `Gjk.GjkRaisesOnlyOnMissingData` | engine/servers/physics/solver/gjk.py:11-62 | solve_gjk_epa raises exactly when a shape that reads its data has none |
| `Gjk.GjkContactComesFromEpa` | engine/servers/physics/solver/gjk.py:35-62 | a result other than "no intersection" is always EPA's answer on a four-point simplex that passed all three face tests |
| `Gjk.GjkLoop` | engine/servers/physics/solver/gjk.py:35-62 | the remaining iterations of the loop; `Gjk.GjkRaisesOnlyOnMissingData` and `Gjk.GjkContactComesFromEpa` state its outcomes, and `Gjk.SolveGjkEpa` is proved equal to it |
| `Gjk.SolveGjkEpa` | engine/servers/physics/solver/gjk.py:11-62 | the loop of at most 64 iterations, with the list append and the direction update, computes exactly the recursive GJK definition `SolveGjkEpaSpec` |
| `CollisionSolver.FlipNormal` | engine/servers/physics/collision_solver_3d.py:77-80 | turning the result round keeps raises and misses as they are and negates only the normal of a contact |
| `CollisionSolver.SolveStatic` | engine/servers/physics/collision_solver_3d.py:14-124 | box-box goes to SAT, capsule-first pairs to their capsule solvers, and every pair without a capsule other than box-box (sphere-sphere, sphere-box and the rest) to GJK/EPA |
| `CollisionSolver.SwappedCapsulePairReversesNormal` | engine/servers/physics/collision_solver_3d.py:73-108 | a sphere, box or plane against a capsule gives the capsule-first answer with the same depth and point and the normal reversed |
| `CollisionSolver.BoxPairDepthIsMinimal` | engine/servers/physics/collision_solver_3d.py:56-60 | a box pair contact has a non-negative depth that no tested axis undercuts |
| `Bodies.ActiveMeansMoving` | engine/servers/physics/bodies/body_3d.py:111-134 | a body is active exactly when it is enabled and kinematic or rigid |
| `Bodies.DampFactor` | engine/servers/physics/bodies/body_3d.py:144-145 | the damping factor is never negative, at most 1 for non-negative damping, `1 - damp * delta` below full damping and 0 at or beyond it |
| `Bodies.ForcesIntegrated` | engine/servers/physics/bodies/body_3d.py:136-159 | a non-rigid body is unchanged; a rigid one has its force and torque accumulators emptied, and nothing but its two velocities and the accumulators changes |
| `Bodies.FreeFallGainsGravity` | engine/servers/physics/bodies/body_3d.py:140-156 | without damping, force or torque a rigid body's velocity gains `gravity * gravity_scale * delta` and its spin stays |
| `Bodies.FullDampingStops` | engine/servers/physics/bodies/body_3d.py:144-156 | damping at or beyond `1 / delta` stops the body in both velocities |
| `Bodies.ChosenVelocityAsWritten` | engine/servers/physics/bodies/body_3d.py:165-166 | `biased or linear` always yields the biased velocity, because every `Vector3` is truthy |
| `Bodies.ChosenVelocity` | engine/servers/physics/bodies/body_3d.py:165-166 | the intended choice: the biased velocity when it is non-zero, the plain velocity otherwise |
| `Bodies.BiasedChoiceIgnoresVelocity` | engine/servers/physics/bodies/body_3d.py:165-184 | with no biased velocity set, the written choice moves a body with non-zero velocity by nothing, where the intended choice moves it by its velocity |
| `Bodies.Lock` | engine/servers/physics/bodies/body_3d.py:170-182 | each locked axis zeroes its component, each free axis keeps it |
| `Bodies.Spin` | engine/servers/physics/bodies/body_3d.py:186-190 | turning about the angular velocity keeps the origin, and an angular speed of at most 1e-6 leaves the transform as it is |
| `Bodies.VelocitiesIntegrated` | engine/servers/physics/bodies/body_3d.py:161-193 | a static body is unchanged; any other moves its origin by the locked chosen velocity times delta, keeps every locked linear coordinate, has its biased velocities reset, and changes nothing else |
| `Bodies.VelocitiesIntegratedAsWritten` | engine/servers/physics/bodies/body_3d.py:161-193 | as written, the call succeeds exactly on static bodies; every other body raises TypeError at the first `axis_lock &` test |
| `Bodies.CentralImpulseApplied` | engine/servers/physics/bodies/body_3d.py:195-198 | a rigid body gains `impulse * inverse_mass` of linear velocity; any other body is unchanged |
| `Bodies.ImpulseApplied` | engine/servers/physics/bodies/body_3d.py:200-211 | a rigid body takes the central impulse and gains the angular impulse of `(position - origin) x impulse` scaled per axis by the inverse inertia |
| `Bodies.CentralForceApplied` | engine/servers/physics/bodies/body_3d.py:213-216 | a rigid body's force accumulator gains the force; any other body is unchanged |
| `Bodies.ForceApplied` | engine/servers/physics/bodies/body_3d.py:218-223 | a rigid body's force accumulator gains the force and its torque accumulator `(position - origin) x force` |
| `Bodies.TorqueApplied` | engine/servers/physics/bodies/body_3d.py:225-228 | a rigid body's torque accumulator gains the torque |
| `Bodies.TorqueImpulseApplied` | engine/servers/physics/bodies/body_3d.py:230-238 | a rigid body's angular velocity gains the torque scaled per axis by the inverse inertia |
| `Bodies.ForceAtOriginIsCentral` | engine/servers/physics/bodies/body_3d.py:213-223 | a force applied at the body's origin is the same as a central force |
| `Bodies.ImpulseAtOriginIsCentral` | engine/servers/physics/bodies/body_3d.py:195-211 | an impulse applied at the body's origin is the same as a central impulse |
| `Bodies.ModeSet` | engine/servers/physics/bodies/body_3d.py:240-250 | the new mode is set; STATIC also zeroes both velocities, the force and the torque, and nothing else changes |
| `Bodies.StaticIgnoresApply` | engine/servers/physics/bodies/body_3d.py:136-250 | once a body is made static, every apply call and both integrations leave it unchanged |
| `Bodies.Body3D.constructor` | engine/servers/physics/bodies/body_3d.py:51-109 | a new body has the identity transform, zero motion, unit inverse mass and inertia, gravity scale 1, layer and mask 1, no contacts, no locks, and a fresh empty shape list |
| `Bodies.Body3D.IntegrateForces` | engine/servers/physics/bodies/body_3d.py:136-159 | the body's new state is `ForcesIntegrated` of its old state |
| `Bodies.Body3D.IntegrateVelocities` | engine/servers/physics/bodies/body_3d.py:161-193 | the body's new state is `VelocitiesIntegrated` of its old state |
| `Bodies.Body3D.ApplyCentralImpulse` | engine/servers/physics/bodies/body_3d.py:195-198 | the new state is `CentralImpulseApplied` of the old one |
| `Bodies.Body3D.ApplyImpulse` | engine/servers/physics/bodies/body_3d.py:200-211 | the new state is `ImpulseApplied` of the old one |
| `Bodies.Body3D.ApplyCentralForce` | engine/servers/physics/bodies/body_3d.py:213-216 | the new state is `CentralForceApplied` of the old one |
| `Bodies.Body3D.ApplyForce` | engine/servers/physics/bodies/body_3d.py:218-223 | the new state is `ForceApplied` of the old one |
| `Bodies.Body3D.ApplyTorque` | engine/servers/physics/bodies/body_3d.py:225-228 | the new state is `TorqueApplied` of the old one |
| `Bodies.Body3D.ApplyTorqueImpulse` | engine/servers/physics/bodies/body_3d.py:230-238 | the new state is `TorqueImpulseApplied` of the old one |
| `Bodies.Body3D.SetMode` | engine/servers/physics/bodies/body_3d.py:240-250 | the new state is `ModeSet` of the old one |
| `Bodies.Body3D.ResetContactCount` | engine/servers/physics/bodies/body_3d.py:257-258 | the contact list is emptied and nothing else changes |
| `Bodies.Body3D.AddContact` | engine/servers/physics/bodies/body_3d.py:260-261 | the contact is appended and nothing else changes |
| `Broadphase.IndexOf` | engine/servers/physics/spaces/broadphase/broadphase_3d.py:22 | the key's position holds an entry with that key, and there is none exactly when no entry has the key |
| `Broadphase.LookupAt` | engine/servers/physics/spaces/broadphase/broadphase_3d.py:22 | with distinct keys, looking up the key of the entry at position k finds that entry |
| `Broadphase.Upsert` | engine/servers/physics/spaces/broadphase/broadphase_3d.py:24-28 | the entry replaces the one with its key in place, or goes last; `Broadphase.UpsertIsInsert` and `Broadphase.UpsertMembers` are its partners |
| `Broadphase.RemoveKey` | engine/servers/physics/spaces/broadphase/broadphase_3d.py:30-33 | the entry with the key is dropped, if there is one; `Broadphase.RemoveKeyIsDelete` and `Broadphase.RemoveKeyMembers` are its partners |
| `Broadphase.SetAabb` | engine/servers/physics/spaces/broadphase/broadphase_3d.py:35-38 | the box of the entry with the key is replaced, if there is one; `Broadphase.SetAabbChangesOnlyThatBox` is its partner |
| `Broadphase.UpsertIsInsert` | engine/servers/physics/spaces/broadphase/broadphase_3d.py:24-28 | add_body keeps the keys distinct, stores the new entry under the body's rid and changes no other key |
| `Broadphase.RemoveKeyIsDelete` | engine/servers/physics/spaces/broadphase/broadphase_3d.py:30-33 | remove_body keeps the keys distinct, removes exactly the body's rid, and leaves the table as it is for an unknown rid |
| `Broadphase.UpsertMembers` | engine/servers/physics/spaces/broadphase/broadphase_3d.py:24-28 | after add_body every entry is an old entry or the new one |
| `Broadphase.RemoveKeyMembers` | engine/servers/physics/spaces/broadphase/broadphase_3d.py:30-33 | after remove_body every entry is an old entry under another rid |
| `Broadphase.SetAabbChangesOnlyThatBox` | engine/servers/physics/spaces/broadphase/broadphase_3d.py:35-38 | update_body replaces only the box of the body's entry, in place, and changes nothing for an unknown rid |
| `Broadphase.CollisionPairs` | engine/servers/physics/spaces/broadphase/broadphase_3d.py:40-71 | the pairs the two loops report, row by row; `Broadphase.CollisionPairsMeaning` states which pairs they are |
| `Broadphase.CollisionPairsMeaning` | engine/servers/physics/spaces/broadphase/broadphase_3d.py:40-71 | a pair is reported exactly when it is an earlier non-static entry and a later entry whose masks accept each other's layers and whose boxes overlap |
| `Broadphase.NoSelfPairs` | engine/servers/physics/spaces/broadphase/broadphase_3d.py:51-69 | with distinct keys no body is paired with itself |
| `Broadphase.Query` | engine/servers/physics/spaces/broadphase/broadphase_3d.py:73-93 | the bodies whose entries meet the box and mask, in entry order; `Broadphase.QueryMeaning` states which |
| `Broadphase.QueryMeaning` | engine/servers/physics/spaces/broadphase/broadphase_3d.py:73-93 | a body is returned exactly when its layer meets the mask and its box overlaps the query box |
| `Broadphase.RayAabb` | engine/servers/physics/spaces/broadphase/broadphase_3d.py:115-125 | the ray's box contains both ends of the ray |
| `Broadphase.Broadphase3D.constructor` | engine/servers/physics/spaces/broadphase/broadphase_3d.py:21-22 | a new broadphase has no entries |
| `Broadphase.Broadphase3D.AddBody` | engine/servers/physics/spaces/broadphase/broadphase_3d.py:24-28 | the table gains or overwrites the body's entry, with the layer and mask copied from the body |
| `Broadphase.Broadphase3D.RemoveBody` | engine/servers/physics/spaces/broadphase/broadphase_3d.py:30-33 | the body's key is deleted |
| `Broadphase.Broadphase3D.UpdateBody` | engine/servers/physics/spaces/broadphase/broadphase_3d.py:35-38 | only the body's box is replaced |
| `Broadphase.Broadphase3D.GetCollisionPairs` | engine/servers/physics/spaces/broadphase/broadphase_3d.py:40-71 | the two loops return exactly `CollisionPairs` of the entries, in loop order |
| `Broadphase.Broadphase3D.QueryAabb` | engine/servers/physics/spaces/broadphase/broadphase_3d.py:73-93 | the loop returns exactly `Query` of the entries, in entry order |
| `Broadphase.Broadphase3D.Raycast` | engine/servers/physics/spaces/broadphase/broadphase_3d.py:95-134 | a ray is queried as the box spanned by its two ends |
| `Broadphase.Broadphase3D.Clear` | engine/servers/physics/spaces/broadphase/broadphase_3d.py:136-138 | no entries remain |
| `Broadphase.Broadphase3D.Len` | engine/servers/physics/spaces/broadphase/broadphase_3d.py:140-141 | the length is the number of entries |
| `Broadphase.TransformedCorners` | engine/servers/physics/spaces/broadphase/broadphase_3d.py:229-240 | a box has eight transformed corners |
| `Broadphase.ShapeBox` | engine/servers/physics/spaces/broadphase/broadphase_3d.py:212-284 | a sphere, box or capsule with no data raises AttributeError; a sphere gets the cube of its radius, a box the bounds of its corners, a plane a 20000 x 0.2 x 20000 slab, any other kind a unit cube |
| `Broadphase.BoxShapeHoldsCorners` | engine/servers/physics/spaces/broadphase/broadphase_3d.py:226-252 | a box shape's AABB contains each of its eight transformed corners |
| `Broadphase.Merge` | engine/servers/physics/spaces/broadphase/broadphase_3d.py:197-207 | the merged box covers both boxes |
| `Broadphase.FirstShapeInfo` | engine/servers/physics/spaces/broadphase/broadphase_3d.py:160-165 | the starting entry is one of the body's entries, the first one when it is enabled, and a disabled one only when every entry is disabled |
| `Broadphase.BodyAabb` | engine/servers/physics/spaces/broadphase/broadphase_3d.py:144-209 | a body without shapes, or whose starting shape is unknown, gets the 0.2 cube around its origin |
| `Broadphase.BodyAabbCoversShapes` | engine/servers/physics/spaces/broadphase/broadphase_3d.py:177-209 | when the starting shape is known, the body's box covers the box of every enabled entry whose shape is known |
| `Broadphase.ComputeBodyAabb` | engine/servers/physics/spaces/broadphase/broadphase_3d.py:144-209 | the two loops compute exactly `BodyAabb` |
| `Broadphase.FindFirstShape` | engine/servers/physics/spaces/broadphase/broadphase_3d.py:160-165 | the loop finds exactly `FirstShapeInfo` |
| `Broadphase.MergeShapes` | engine/servers/physics/spaces/broadphase/broadphase_3d.py:181-207 | the merge loop computes exactly the recursive merge over the remaining entries |
| `Areas.NewArea` | engine/servers/physics/bodies/area_3d.py:41-76 | a new area has gravity 9.8 along (0, -1, 0), damping 0.1, no point gravity, and is not active because its override mode is DISABLED |
| `Areas.ComputeGravity` | engine/servers/physics/bodies/area_3d.py:78-106 | a directional area pulls along its normalized gravity vector with strength `gravity`; a point area pulls toward its centre, not at all within 1e-6 of it, with inverse-square strength when the unit distance is positive |
| `Areas.PointGravityPullsToCentre` | engine/servers/physics/bodies/area_3d.py:88-104 | a point area's pull times the distance is the vector to its centre times the strength, so it points at the centre with magnitude equal to the strength |
| `Space.BodiesWithout` | engine/servers/physics/spaces/space_3d.py:85 | deleting a body keeps every other body in order, leaves no body with that rid, keeps rids distinct, and changes nothing for an unknown rid |
| `Space.AreasWithout` | engine/servers/physics/spaces/space_3d.py:97-98 | deleting an area keeps exactly the areas with other rids, keeps rids distinct, and changes nothing for an unknown rid |
| `Space.ViewsOf` | engine/servers/physics/spaces/space_3d.py:193-194 | the candidates' transforms and shape lists are read in query order |
| `Space.Candidates` | engine/servers/physics/spaces/space_3d.py:166-172 | the filter keeps exactly the found bodies other than the body itself that are not excluded and whose layer meets the body's mask |
| `Space.MotionAabb` | engine/servers/physics/spaces/space_3d.py:393-419 | the motion box covers the body's box at the start and at the end of the motion, and raises only when one of those raises |
| `Space.PlaceMine` | engine/servers/physics/spaces/space_3d.py:182-191 | one of the body's shapes takes part exactly when its entry is enabled and its shape is known |
| `Space.PairWith` | engine/servers/physics/spaces/space_3d.py:194-205 | a candidate shape takes part exactly when its entry is enabled and its shape is known, and is paired with my placed shape as shape A |
| `Space.SweepSteps` | engine/servers/physics/spaces/space_3d.py:359-360 | the sweep takes between 1 and 10 samples; below the cap the samples are less than 0.1 apart, and a motion of 0.9 or more takes 10 |
| `Space.SolveStaticNarrowphase` | engine/servers/physics/collision_solver_3d.py:14-124 | the narrowphase the space consults is solve_static |
| `Space.Solve` | engine/servers/physics/spaces/space_3d.py:507-514 | the narrowphase applied to a pair of placed shapes; `Space.SolveStaticNarrowphase` says it is solve_static |
| `Space.SweepFrom` | engine/servers/physics/spaces/space_3d.py:362-391 | a sweep hit has a safe fraction in [0, 1): the fraction before the first colliding sample, or 0 when the first sample collides |
| `Space.SweepStopsAtFirstContact` | engine/servers/physics/spaces/space_3d.py:362-388 | whenever some sample collides the sweep reports a hit, with a safe fraction no later than the one before that sample |
| `Space.Better` | engine/servers/physics/spaces/space_3d.py:218-226 | a hit replaces the best one only when its fraction is strictly smaller, so the best fraction never grows |
| `Space.SweepOthers` | engine/servers/physics/spaces/space_3d.py:194-226 | sweeping against a candidate's shapes never raises the best fraction and keeps it in [0, 1) |
| `Space.SweepCands` | engine/servers/physics/spaces/space_3d.py:193-226 | sweeping against the candidates never raises the best fraction and keeps it in [0, 1) |
| `Space.SweepMine` | engine/servers/physics/spaces/space_3d.py:182-226 | sweeping each of my shapes never raises the best fraction and keeps it in [0, 1) |
| `Space.SweepOthersMinimal` | engine/servers/physics/spaces/space_3d.py:194-226 | the kept hit's fraction is no larger than that of any hit of any enabled, known candidate shape |
| `Space.StaticOthers` | engine/servers/physics/spaces/space_3d.py:295-331 | an overlap found against a candidate names that candidate and my shape's index |
| `Space.StaticCands` | engine/servers/physics/spaces/space_3d.py:294-331 | an overlap names one of the candidates and my shape's index |
| `Space.StaticMine` | engine/servers/physics/spaces/space_3d.py:282-333 | an overlap names one of the candidates and one of my shape indices |
| `Space.DefaultResult` | engine/servers/physics/spaces/space_3d.py:126-139 | the initial result has not collided, has travelled nothing and keeps the whole motion as remainder |
| `Space.Unobstructed` | engine/servers/physics/spaces/space_3d.py:141-144 | with nothing hit the whole motion is travelled, nothing remains, and both fractions are 1 |
| `Space.Recovered` | engine/servers/physics/spaces/space_3d.py:150-161 | an overlap at the start is reported as a collision with its point, normal, depth and collider, with no travel and the whole motion remaining |
| `Space.Blocked` | engine/servers/physics/spaces/space_3d.py:228-241 | a hit cuts the travel at its safe fraction of the motion and reports its collider, point and normal, with both fractions equal to it |
| `Space.MotionWith` | engine/servers/physics/spaces/space_3d.py:126-246 | travel and remainder always add up to the motion; the fractions lie in [0, 1] and are equal; a body without shapes, or with no candidates, travels the whole motion; an overlap at the start is reported without travel |
| `Space.SweepTest` | engine/servers/physics/spaces/space_3d.py:335-391 | the sampling loop computes exactly the recursive sweep, returning on the first colliding sample |
| `Space.SweepShapes` | engine/servers/physics/spaces/space_3d.py:194-226 | the loop over a candidate's shapes computes exactly `SweepOthers` |
| `Space.SweepAgainst` | engine/servers/physics/spaces/space_3d.py:193-226 | the loop over the candidates computes exactly `SweepCands` |
| `Space.SweepAll` | engine/servers/physics/spaces/space_3d.py:179-226 | the loop over my shapes computes exactly `SweepMine` from no hit |
| `Space.OverlapShapes` | engine/servers/physics/spaces/space_3d.py:295-331 | the loop over a candidate's shapes computes exactly `StaticOthers`, stopping at the first overlap |
| `Space.OverlapAgainst` | engine/servers/physics/spaces/space_3d.py:294-331 | the loop over the candidates computes exactly `StaticCands` |
| `Space.FirstOverlap` | engine/servers/physics/spaces/space_3d.py:282-333 | the loop over my shapes computes exactly `StaticMine` |
| `Space.AreasApplied` | engine/servers/physics/spaces/space_3d.py:458-469 | applying the areas changes only a body's gravity and damping totals |
| `Space.LastActiveArea` | engine/servers/physics/spaces/space_3d.py:458-469 | the last active area is active and no area after it is; with none, no area is active |
| `Space.Influenced` | engine/servers/physics/spaces/space_3d.py:446-469 | an inactive body keeps its totals; an active one gets the defaults, or the gravity at its origin and the damping of the last active area; nothing else changes |
| `Space.AreasAppliedIsLastActive` | engine/servers/physics/spaces/space_3d.py:458-469 | applying every active area in turn leaves the totals of the last active one, since an area reads only the origin, which no area changes |
| `Space.InfluenceIsLastActiveArea` | engine/servers/physics/spaces/space_3d.py:446-469 | the two loops of _update_area_influences compute `Influenced` |
| `Space.InfluenceStep` | engine/servers/physics/spaces/space_3d.py:458-469 | one more area of the outer loop applies it to an active body when it is active, and changes nothing otherwise |
| `Space.ContactsAt` | engine/servers/physics/spaces/space_3d.py:516-532 | a hit makes two mirrored contacts: a's at point_a with the normal and b as collider, b's at point_b with the opposite normal and a as collider, with the same depth and swapped shape indices |
| `Space.PairOthers` | engine/servers/physics/spaces/space_3d.py:495-535 | every contact pair of a shape against b's shapes is mirrored |
| `Space.PairMine` | engine/servers/physics/spaces/space_3d.py:484-535 | every contact pair of _test_body_pair is mirrored between a and b |
| `Space.PairViewsOf` | engine/servers/physics/spaces/space_3d.py:476-478 | each broadphase pair is read as the views of its two bodies |
| `Space.AllHits` | engine/servers/physics/spaces/space_3d.py:476-478 | the hits come one list per pair, in pair order, each mirrored between that pair's bodies |
| `Space.Gathered` | engine/servers/physics/spaces/space_3d.py:516-535 | the contacts one body collects from the hits of the pairs it belongs to, in pair order; `Space.AddAllContacts` is proved against it |
| `Space.ContactResolved` | engine/servers/physics/spaces/space_3d.py:553-563 | only a static collider moves the body; only the origin and the linear velocity change; a velocity not approaching along the normal is kept |
| `Space.ResolutionStopsApproach` | engine/servers/physics/spaces/space_3d.py:556-563 | with a unit normal, an approaching velocity keeps no component along the normal, and the body moves half the depth along it |
| `Space.ContactsResolved` | engine/servers/physics/spaces/space_3d.py:553-563 | resolving the contacts in order changes only the origin and the linear velocity, and nothing at all when no collider is static |
| `Space.StaticFlags` | engine/servers/physics/spaces/space_3d.py:554 | each flag says whether that contact's collider is static |
| `Space.Depenetrated` | engine/servers/physics/spaces/space_3d.py:548-563 | a body that is not rigid is unchanged, and any body changes only in origin and linear velocity |
| `Space.Collided` | engine/servers/physics/spaces/space_3d.py:434-437 | the contacts found replace the old ones; a body that is not rigid changes nothing else, and any body changes at most its transform and linear velocity |
| `Space.Stepped` | engine/servers/physics/spaces/space_3d.py:421-444 | one body through a whole step takes exactly the contacts given and keeps its mode, disabled flag, shapes and axis lock |
| `Space.StaticOnlyTakesContacts` | engine/servers/physics/spaces/space_3d.py:421-444 | a static body only takes the contacts it is given |
| `Space.KinematicIgnoresCollisions` | engine/servers/physics/spaces/space_3d.py:421-444 | an enabled kinematic body takes the area influences and its contacts and moves by its own velocities; forces and collisions do not act on it |
| `Space.MovingCollidersDoNotPush` | engine/servers/physics/spaces/space_3d.py:548-563 | contacts whose colliders are not static do not push: an active body only integrates its forces and velocities |
| `Space.HitsOfShape` | engine/servers/physics/spaces/space_3d.py:495-535 | the loop over b's shapes finds exactly `PairOthers` or raises its exception |
| `Space.AddContacts` | engine/servers/physics/spaces/space_3d.py:534-535 | the contacts are appended in order and nothing else changes |
| `Space.PairHits` | engine/servers/physics/spaces/space_3d.py:484-535 | the loops of _test_body_pair find exactly `PairMine` or raise its exception |
| `Space.TestBodyPair` | engine/servers/physics/spaces/space_3d.py:480-535 | a gains the a-side contact of every hit and b the mirrored one, in hit order; nothing else of either body changes; it raises exactly when the narrowphase does |
| `Space.PairsOfSpace` | engine/servers/physics/spaces/space_3d.py:476-478 | the two bodies of every broadphase pair are distinct bodies of the space |
| `Space.CollectHits` | engine/servers/physics/spaces/space_3d.py:476-478 | the loop over the pairs finds exactly `AllHits` or raises its exception |
| `Space.AddPairContacts` | engine/servers/physics/spaces/space_3d.py:534-535 | one pair's contacts reach exactly its two bodies and change nothing else |
| `Space.AddAllContacts` | engine/servers/physics/spaces/space_3d.py:476-478 | each body gains, in pair order, the contacts gathered from the pairs it belongs to |
| `Space.ResetContacts` | engine/servers/physics/spaces/space_3d.py:473-474 | every body's contacts are cleared and nothing else changes |
| `Space.InstallContacts` | engine/servers/physics/spaces/space_3d.py:473-478 | every body ends with exactly the contacts gathered from its pairs |
| `Space.Depenetrate` | engine/servers/physics/spaces/space_3d.py:548-563 | the body's new state is `Depenetrated` of its old state and its colliders' static flags |
| `Space.DepenetrateAll` | engine/servers/physics/spaces/space_3d.py:548-563 | every body is depenetrated, each from its own old state |
| `Space.DetectOn` | engine/servers/physics/spaces/space_3d.py:471-478 | only contacts change; it raises exactly when the hits raise, and otherwise every body holds exactly the contacts gathered from its pairs |
| `Space.Refresh` | engine/servers/physics/spaces/space_3d.py:439-444 | an active body integrates its velocities and then its broadphase box is replaced by its new box; an inactive body and the broadphase are unchanged |
| `Space.BoxesHeldStep` | engine/servers/physics/spaces/space_3d.py:443-444 | storing one more box keeps every other stored box |
| `Space.RefreshAt` | engine/servers/physics/spaces/space_3d.py:439-444 | one body of the loop is refreshed and the boxes stored so far stay current |
| `Space.RefreshAll` | engine/servers/physics/spaces/space_3d.py:439-444 | every active body integrates its velocities and every active body's entry holds its new box; the entries otherwise keep their bodies and layers |
| `Space.BoxOf` | engine/servers/physics/spaces/space_3d.py:443-444 | the box compute_body_aabb gives a body from its transform and shape list; `Space.Space3D.Step` stores it for every active body |
| `Space.Space3D.constructor` | engine/servers/physics/spaces/space_3d.py:37-66 | a new space has no bodies, no areas and a fresh, empty broadphase |
| `Space.Space3D.AddBody` | engine/servers/physics/spaces/space_3d.py:68-76 | a known rid changes nothing; otherwise the body is appended and the broadphase gains its entry with the body's box |
| `Space.Space3D.RemoveBody` | engine/servers/physics/spaces/space_3d.py:78-85 | an unknown rid changes nothing; otherwise the body leaves both the body table and the broadphase |
| `Space.Space3D.AddArea` | engine/servers/physics/spaces/space_3d.py:87-93 | a known rid changes nothing; a new area goes last |
| `Space.Space3D.RemoveArea` | engine/servers/physics/spaces/space_3d.py:95-98 | the area with that rid, if any, is removed, and no area with it remains |
| `Space.Space3D.ComputeMotionAabb` | engine/servers/physics/spaces/space_3d.py:393-419 | the temporary body's two boxes merge into `MotionAabb` |
| `Space.Space3D.FindCandidates` | engine/servers/physics/spaces/space_3d.py:163-172 | the broadphase query and the filter give the candidate views |
| `Space.Space3D.CheckStaticCollision` | engine/servers/physics/spaces/space_3d.py:248-333 | the first overlap of one of my shapes at the transform, or none |
| `Space.Space3D.SweepMotion` | engine/servers/physics/spaces/space_3d.py:163-246 | the sweep once no overlap at the start ended the test |
| `Space.Space3D.BodyTestMotion` | engine/servers/physics/spaces/space_3d.py:100-246 | body_test_motion computes `TestMotion`, so travel plus remainder is always the motion |
| `Space.Space3D.ResetInfluences` | engine/servers/physics/spaces/space_3d.py:448-455 | every active body takes the default gravity and damping; the others are unchanged |
| `Space.Space3D.ApplyArea` | engine/servers/physics/spaces/space_3d.py:458-469 | one area sets the totals of every active body |
| `Space.Space3D.UpdateAreaInfluences` | engine/servers/physics/spaces/space_3d.py:446-469 | every body ends with `Influenced` of its old state |
| `Space.Space3D.IntegrateAllForces` | engine/servers/physics/spaces/space_3d.py:430-432 | every body's new state is `ForcesIntegrated` of its old state |
| `Space.Space3D.SolveCollisionsSimple` | engine/servers/physics/spaces/space_3d.py:537-563 | every body's new state is `Depenetrated` of its old state |
| `Space.Space3D.DetectCollisions` | engine/servers/physics/spaces/space_3d.py:471-478 | every body ends with exactly the contacts gathered from the broadphase pairs, or the call raises when the narrowphase does |
| `Space.Space3D.IntegrateAndRefresh` | engine/servers/physics/spaces/space_3d.py:439-444 | active bodies integrate their velocities and their broadphase boxes are refreshed |
| `Space.Space3D.Prepare` | engine/servers/physics/spaces/space_3d.py:428-432 | every body's new state is `ForcesIntegrated` of `Influenced` of its old state |
| `Space.Space3D.InfluenceAndIntegrate` | engine/servers/physics/spaces/space_3d.py:428-432 | every body's new state is `ForcesIntegrated` of `Influenced` of its old state, and neither changes its mode or its view |
| `Space.Space3D.Collide` | engine/servers/physics/spaces/space_3d.py:434-437 | it raises exactly when the narrowphase over the pairs and views of the start raises; otherwise each body ends as `Collided` with the contacts it gathered, and on an exception each body changes at most its contacts |
| `Space.Space3D.Advance` | engine/servers/physics/spaces/space_3d.py:428-437 | it raises exactly when the narrowphase raises; otherwise each body ends as `Collided` of its influenced and force-integrated state with the contacts it gathered |
| `Space.Space3D.Step` | engine/servers/physics/spaces/space_3d.py:421-444 | a non-positive delta changes no body and no entry; otherwise a narrowphase exception is passed on, and a normal return leaves each body `Stepped` with the contacts it gathered from the pairs and views of the start and each active body's entry holding its new box; the entries keep their order and change at most their boxes |
| `Space.SteppedIntro` | engine/servers/physics/spaces/space_3d.py:421-444 | each body Stepped with the contacts it gathered, with the pairs inside the space, is the step relation over the bodies' states |
| `Space.ViewsFromStates` | engine/servers/physics/spaces/space_3d.py:476-478 | the views of a space's pairs are read off its bodies' states and shape items |
| `Space.StepOnce` | engine/servers/physics/spaces/space_3d.py:421-444 | a positive step that returns normally takes the bodies from their states at the call to their new states by the step relation, and refreshes the entries' boxes |
| `Space.StepRecorded` | engine/servers/physics/spaces/space_3d.py:421-444 | the step is recorded from the snapshot of the space, and for a positive step that returns normally the record holds the step relation |
| `Space.StepFront` | engine/servers/physics/physics_server_3d_software.py:102-104 | one space of a list is stepped and recorded; the spaces after it still match their snapshots |
| `Space.StepSpaces` | engine/servers/physics/physics_server_3d_software.py:98-104 | the spaces are stepped in turn until one raises: those before the stop are recorded, the rest still match their snapshots, and with no exception every record holds the step relation |
| `Space.StepsLeftIntro` | engine/servers/physics/physics_server_3d_software.py:98-104 | the per-space facts of a run of steps gather into one predicate |
| `Space.StepsLeftElim` | engine/servers/physics/physics_server_3d_software.py:98-104 | and that predicate gives each per-space fact back |
| `Space.StepsLeftAt` | engine/servers/physics/physics_server_3d_software.py:98-104 | the predicate gives back the fact of any one space: done as its record says, or still matching its snapshot |
| `Space.StepAll` | engine/servers/physics/physics_server_3d_software.py:98-104 | the whole list is stepped as `Space.StepSpaces` says, with its outcome stated as that one predicate |
| `ShapeStore.RidCounter.constructor` | engine/servers/physics/storage/shape.py:13 | a counter starts at id 1 |
| `ShapeStore.RidCounter.Take` | engine/servers/physics/storage/shape.py:19-21 | an id is the counter's value, and the counter moves on by one |
| `ShapeStore.ShapeStorage.constructor` | engine/servers/physics/storage/shape.py:11-13 | a new storage holds no shapes |
| `ShapeStore.ShapeStorage.ShapeCreate` | engine/servers/physics/storage/shape.py:15-23 | the new shape takes the counter's id, is stored with its kind and no data, and the counter moves on |
| `ShapeStore.ShapeStorage.ShapeSetData` | engine/servers/physics/storage/shape.py:25-27 | a known shape's data is replaced and nothing else changes; an unknown shape is ignored |
| `ShapeStore.ShapeStorage.ShapeGetData` | engine/servers/physics/storage/shape.py:29-32 | the stored data of a known shape, None for an unknown one |
| `ShapeStore.ShapeStorage.ShapeGetType` | engine/servers/physics/storage/shape.py:34-35 | the kind of a known shape; KeyError exactly for an unknown one |
| `ShapeStore.ShapeStorage.FreeShape` | engine/servers/physics/storage/shape.py:37-39 | the shape is gone afterwards and every other shape stays |
| `ShapeStore.ShapeStorage.GetShapeData` | engine/servers/physics/storage/shape.py:41-51 | the record exactly for a known shape, None otherwise |
| `PhysicsServer.NewBodyData` | engine/servers/physics/storage/body.py:14-27 | a new record is rigid, in no space, with layer and mask 1, at rest, with no runtime body |
| `PhysicsServer.SpaceData.constructor` | engine/servers/physics/storage/space.py:6-12 | a new space record holds a fresh, empty Space3D with its handle and shape storage, and no members |
| `PhysicsServer.CachedStateSet` | engine/servers/physics/storage/body.py:126-142 | body_set_state on the record sets the transform or a velocity only for a value of the right type and touches nothing else |
| `PhysicsServer.RuntimeStateSet` | engine/servers/physics/storage/body.py:126-146 | on the runtime body it does the same and also sets can_sleep from any value's truth |
| `PhysicsServer.StateRead` | engine/servers/physics/storage/body.py:155-170 | the state read is None exactly for the sleeping and can-sleep kinds |
| `PhysicsServer.Synced` | engine/servers/physics/physics_server_3d_software.py:120-125 | an attached record takes its runtime body's transform and velocities and keeps the rest; a detached one is unchanged |
| `PhysicsServer.DisjointTablesFreeOwnKind` | engine/servers/physics/physics_server_3d_storage.py:16-36 | with tables whose keys never meet, free_rid frees from exactly the table that holds the handle |
| `PhysicsServer.SeparateCountersCollide` | engine/servers/physics/storage/body.py:31 | with three counters starting at 1, the first body, shape and space all get handle 1, and free_rid of that shape frees the body |
| `PhysicsServer.SpaceAdded` | engine/servers/physics/storage/space.py:26 | a new space with parts of its own keeps the space table sound and owned |
| `PhysicsServer.Attached` | engine/servers/physics/storage/body.py:68-75 | the runtime body takes the record's mode, transform, layers, velocities and axis lock, and shares its shape list |
| `PhysicsServer.PhysicsServer3DStorage.constructor` | engine/servers/physics/physics_server_3d_storage.py:11-14 | the storage starts with empty tables and no active spaces, its counter at 1 |
| `PhysicsServer.PhysicsServer3DStorage.BodyCreate` | engine/servers/physics/storage/body.py:33-41 | a fresh handle in no table is drawn and gets a default record with a new, empty shape list |
| `PhysicsServer.PhysicsServer3DStorage.BodySetSpace` | engine/servers/physics/storage/body.py:43-78 | an unknown body changes nothing; a body leaves a known old space's membership and Space3D and loses its runtime body; it records the new space; a known new space gains it as a member and gets a fresh runtime body built from the record |
| `PhysicsServer.PhysicsServer3DStorage.Relocate` | engine/servers/physics/storage/body.py:50-59 | a body leaves a known old space (losing its runtime body) and records the new handle; no other space's membership changes |
| `PhysicsServer.PhysicsServer3DStorage.LeaveSpace` | engine/servers/physics/storage/body.py:51-55 | a body leaves one space's membership and its Space3D; other spaces keep theirs |
| `PhysicsServer.PhysicsServer3DStorage.Attach` | engine/servers/physics/storage/body.py:61-78 | a fresh runtime body built from the record joins the space; only this body's runtime changes; it raises only when boxing the body raises |
| `PhysicsServer.PhysicsServer3DStorage.JoinSpace` | engine/servers/physics/storage/body.py:62-78 | a runtime body built from the record joins one space's membership and its Space3D; other spaces keep theirs |
| `PhysicsServer.PhysicsServer3DStorage.BodySetMode` | engine/servers/physics/storage/body.py:80-87 | a known record takes the mode and an attached body's state becomes `ModeSet` of its old state |
| `PhysicsServer.PhysicsServer3DStorage.BodySetCollisionLayer` | engine/servers/physics/storage/body.py:89-91 | only a known record's layer changes |
| `PhysicsServer.PhysicsServer3DStorage.BodySetCollisionMask` | engine/servers/physics/storage/body.py:93-95 | only a known record's mask changes |
| `PhysicsServer.PhysicsServer3DStorage.BodyAddShape` | engine/servers/physics/storage/body.py:97-115 | the entry, with the identity transform when none is given, is appended once to the shared list |
| `PhysicsServer.PhysicsServer3DStorage.BodyAddShapeAsWritten` | engine/servers/physics/storage/body.py:110-115 | once the body is attached, the shared list gains the entry twice |
| `PhysicsServer.PhysicsServer3DStorage.BodySetState` | engine/servers/physics/storage/body.py:117-146 | the record becomes `CachedStateSet` of itself, an attached body `RuntimeStateSet` of its state, and a well-typed value is read back by body_get_state |
| `PhysicsServer.PhysicsServer3DStorage.BodyGetState` | engine/servers/physics/storage/body.py:148-170 | None for an unknown body or the sleeping kinds; an attached body's runtime values, otherwise the record's |
| `PhysicsServer.PhysicsServer3DStorage.GetRuntimeBody` | engine/servers/physics/storage/body.py:172-175 | the record's runtime body, None for an unknown body |
| `PhysicsServer.PhysicsServer3DStorage.ShapeCreate` | engine/servers/physics/storage/shape.py:15-23 | a new shape gets a handle in no table and a record with no data |
| `PhysicsServer.PhysicsServer3DStorage.SpaceCreate` | engine/servers/physics/storage/space.py:19-27 | a fresh handle in no table gets a new, empty Space3D over this storage's shapes; nothing else changes |
| `PhysicsServer.PhysicsServer3DStorage.Register` | engine/servers/physics/storage/space.py:23-26 | the new record is entered under the handle drawn for it and the counter moves on |
| `PhysicsServer.PhysicsServer3DStorage.SpaceSetActive` | engine/servers/physics/storage/space.py:29-36 | a known space is added to or removed from the active set; an unknown space changes nothing |
| `PhysicsServer.PhysicsServer3DStorage.GetSpace3D` | engine/servers/physics/storage/space.py:38-46 | the space's Space3D, None for an unknown space |
| `PhysicsServer.PhysicsServer3DStorage.FreeSpace` | engine/servers/physics/storage/space.py:48-56 | a known space is emptied and leaves the table and the active set; other spaces keep their bodies and entries |
| `PhysicsServer.PhysicsServer3DStorage.EmptySpace` | engine/servers/physics/storage/space.py:51-53 | the Space3D's bodies, areas and broadphase are cleared |
| `PhysicsServer.PhysicsServer3DStorage.FreeRid` | engine/servers/physics/physics_server_3d_storage.py:16-36 | the handle ends in no table; a body leaves its space and the body table, a shape the shape table, a space the space table and the active set; nothing else changes |
| `PhysicsServer.PhysicsServer3DStorage.FreeBody` | engine/servers/physics/physics_server_3d_storage.py:22-30 | a body leaves a known space's membership and Space3D, then the table; its shapes stay |
| `PhysicsServer.PhysicsServer3DStorage.BodyTestMotion` | engine/servers/physics/physics_server_3d_software.py:16-83 | an unknown body gets the default result; a body outside a known space or without a runtime body travels the whole motion; otherwise the Space3D's test decides, with the documented defaults |
| `PhysicsServer.PhysicsServer3DStorage.RuntimeTestMotion` | engine/servers/physics/physics_server_3d_software.py:70-83 | the Space3D's test with the start transform, motion, exclude list and recovery flag defaulted |
| `PhysicsServer.PhysicsServer3DStorage.Step` | engine/servers/physics/physics_server_3d_software.py:85-104 | nothing changes for delta <= 0; otherwise each active space of the table is listed once and stepped in turn until one raises; every space stepped is recorded from its snapshot, the rest still match theirs, and with no exception every record holds the step relation of `Space.Space3D.Step` |
| `PhysicsServer.PhysicsServer3DStorage.StepOrder` | engine/servers/physics/physics_server_3d_software.py:98-104 | the listed spaces are stepped in order as `Space.StepAll` says, and the storage stays sound |
| `PhysicsServer.PhysicsServer3DStorage.ListedReady` | engine/servers/physics/physics_server_3d_software.py:98-104 | the listed spaces are sound, match their snapshots, are pairwise apart, and share nothing with the spaces not listed |
| `PhysicsServer.PhysicsServer3DStorage.ListedOk` | engine/servers/physics/physics_server_3d_software.py:98-104 | after the step the listed spaces are sound again |
| `PhysicsServer.ListOf` | engine/servers/physics/physics_server_3d_software.py:98 | list(s) holds each element of the set exactly once |
| `PhysicsServer.PhysicsServer3DStorage.SyncState` | engine/servers/physics/physics_server_3d_software.py:116-125 | every record becomes `Synced` of itself, so an attached record holds its runtime body's transform and velocities |
| `PhysicsServer.SyncAll` | engine/servers/physics/physics_server_3d_software.py:120-125 | the loop over the records gives each its `Synced` value |
| `PhysicsServer.FallbackResultsSplit` | engine/servers/physics/physics_server_3d_software.py:32-68 | the two results answered without a Space3D still split the motion into travel and remainder |
| `PhysicsBody.CollideParameters` | engine/scene/three_d/physics_body_3d.py:43-49 | the query carries the from transform, the motion, the margin and the recovery flag, and excludes exactly the body itself |
| `PhysicsBody.CollisionOf` | engine/scene/three_d/physics_body_3d.py:53-60 | the collision report copies the hit's point, normal, collider, collider rid, remainder and depth |
| `PhysicsBody.Collide` | engine/scene/three_d/physics_body_3d.py:33-70 | a body without shapes reports nothing and stays put; otherwise it raises exactly when the query raises; a hit is reported and moves the body by the travel, a miss moves it by the whole motion, and test_only never moves it |
| `PhysicsBody.PhysicsBody3D.constructor` | engine/scene/three_d/physics_body_3d.py:15-19 | a node starts with its rid, transform and shape count |
| `PhysicsBody.PhysicsBody3D.MoveAndCollide` | engine/scene/three_d/physics_body_3d.py:33-70 | the report and the new transform are exactly those of `Collide`; an exception leaves the body where it was |
| `CharacterBody.HandlerFor` | engine/scene/three_d/character_body_3d/character_body_3d.py:94-102 | the grounded handler is installed exactly for mode 0, the floating one for every other value |
| `CharacterBody.Prepared` | engine/scene/three_d/character_body_3d/character_body_3d.py:309-324 | contacts reset, the character's velocity, the platform's motion when it was on the floor, then the pre-solve; `CharacterBody.PreparedSkipsPreSolve` is its partner |
| `CharacterBody.Finished` | engine/scene/three_d/character_body_3d/character_body_3d.py:334-349 | the post-solve, the snap in grounded mode, then the tracker's leave momentum, with a snap exception ending the call; `CharacterBody.FinishedState` is its partner |
| `CharacterBody.SolvedFrom` | engine/scene/three_d/character_body_3d/character_body_3d.py:323-349 | the motion for the step, the slide solver, then `Finished`; a solver exception leaves the collision list empty |
| `CharacterBody.Frame` | engine/scene/three_d/character_body_3d/character_body_3d.py:307-349 | move_and_slide for one physics step; `CharacterBody.FrameFacts` states what it promises and `CharacterBody.MoveFrame` is proved equal to it |
| `CharacterBody.PrepareFrame` | engine/scene/three_d/character_body_3d/character_body_3d.py:309-324 | the motion state before the solver: contacts reset, the character's velocity, the platform's motion when it was on the floor, then the pre-solve |
| `CharacterBody.FinishFrame` | engine/scene/three_d/character_body_3d/character_body_3d.py:334-349 | after the solver: post-solve, the snap in grounded mode, the tracker; the tracker then mirrors the final platform, or is cleared without one |
| `CharacterBody.SolveFrame` | engine/scene/three_d/character_body_3d/character_body_3d.py:326-349 | the motion is velocity times delta, the solver runs on it, and an exception from the solver leaves the collision list empty |
| `CharacterBody.MoveFrame` | engine/scene/three_d/character_body_3d/character_body_3d.py:307-349 | the components end in the state the whole frame function gives |
| `CharacterBody.CharacterBody3D.ConfigOf` | engine/scene/three_d/character_body_3d/character_body_3d.py:351-360 | the configuration holds exactly the character's current properties |
| `CharacterBody.CharacterBody3D.constructor` | engine/scene/three_d/character_body_3d/character_body_3d.py:28-68 | grounded mode, +Y up, stop on slope, block on wall, the 45 and 15 degree limits, 0.1 snap, 0.001 margin, 4 slides, every platform floor layer, and nothing touched yet |
| `CharacterBody.CharacterBody3D.SetUpDirection` | engine/scene/three_d/character_body_3d/character_body_3d.py:84-87 | the direction is stored normalized and the configuration rebuilt; nothing else changes |
| `CharacterBody.CharacterBody3D.SetMotionMode` | engine/scene/three_d/character_body_3d/character_body_3d.py:94-102 | setting the current mode does nothing; another value is stored with its handler, so handler and mode stay in step |
| `CharacterBody.CharacterBody3D.SetFloorConstantSpeed` | engine/scene/three_d/character_body_3d/character_body_3d.py:118-121 | the value is stored and the configuration rebuilt |
| `CharacterBody.CharacterBody3D.SetFloorBlockOnWall` | engine/scene/three_d/character_body_3d/character_body_3d.py:128-131 | the value is stored and the configuration rebuilt |
| `CharacterBody.CharacterBody3D.SetFloorMaxAngle` | engine/scene/three_d/character_body_3d/character_body_3d.py:138-141 | the value is stored and the configuration rebuilt |
| `CharacterBody.CharacterBody3D.SetFloorSnapLength` | engine/scene/three_d/character_body_3d/character_body_3d.py:148-151 | the value is stored and the configuration rebuilt |
| `CharacterBody.CharacterBody3D.SetWallMinSlideAngle` | engine/scene/three_d/character_body_3d/character_body_3d.py:158-161 | the value is stored and the configuration rebuilt |
| `CharacterBody.CharacterBody3D.SetSafeMargin` | engine/scene/three_d/character_body_3d/character_body_3d.py:168-171 | the value is stored and the configuration rebuilt |
| `CharacterBody.CharacterBody3D.SetMaxSlides` | engine/scene/three_d/character_body_3d/character_body_3d.py:178-180 | the value is stored without rebuilding the configuration |
| `CharacterBody.CharacterBody3D.GetRealVelocity` | engine/scene/three_d/character_body_3d/character_body_3d.py:261-266 | the velocity plus the platform's exactly when the platform moves |
| `CharacterBody.CharacterBody3D.GetFloorAngle` | engine/scene/three_d/character_body_3d/character_body_3d.py:268-276 | 0 off the floor; on it, the inverse cosine of the floor normal against the up direction, raising ValueError exactly when the cosine leaves [-1, 1] |
| `CharacterBody.CharacterBody3D.GetSlideCollision` | engine/scene/three_d/character_body_3d/character_body_3d.py:290-294 | the collision at an index exactly when the index is in range, None otherwise |
| `CharacterBody.CharacterBody3D.GetLastSlideCollision` | engine/scene/three_d/character_body_3d/character_body_3d.py:296-300 | the last collision, None exactly when the list is empty |
| `CharacterBody.CharacterBody3D.MoveAndSlide` | engine/scene/three_d/character_body_3d/character_body_3d.py:302-349 | without a tree, false and no change; otherwise the answer, the collisions, the body and the motion state are those of the whole frame, and velocity and last motion are stored when nothing raised |
| `CharacterBody.CharacterBody3D.ApplyFloorSnap` | engine/scene/three_d/character_body_3d/character_body_3d.py:362-370 | in grounded mode a snap as if on the floor, whose answer is dropped; in floating mode nothing changes |
| `CharacterBody.OnlyQueriesExclusive` | engine/scene/three_d/character_body_3d/character_body_3d.py:213-243 | at most one of the floor-only, wall-only and ceiling-only queries holds |
| `CharacterBody.PreparedSkipsPreSolve` | engine/scene/three_d/character_body_3d/character_body_3d.py:309-324 | resetting the contacts before the pre-solve means the pre-solve never changes anything |
| `CharacterBody.FinishedState` | engine/scene/three_d/character_body_3d/character_body_3d.py:334-349 | after the solver only the velocity and the floor contact change; the answer is whether a collision was met; floating mode leaves the floor contact and the body alone |
| `CharacterBody.FrameFacts` | engine/scene/three_d/character_body_3d/character_body_3d.py:307-349 | move_and_slide answers whether it met anything, meets at most max_slides collisions, keeps the platform, touches no wall or ceiling when it met nothing, and touches some surface when it met something |
| `CollisionClassifier.SurfaceOf` | engine/scene/three_d/character_body_3d/collision_classifier.py:16-26 | the classification raises ValueError exactly when the dot product with up leaves [-1, 1] |
| `CollisionClassifier.Classify` | engine/scene/three_d/character_body_3d/collision_classifier.py:12-26 | classify records the contact for the surface found and changes nothing when the inverse cosine raises |
| `CollisionClassifier.SurfaceThresholds` | engine/scene/three_d/character_body_3d/collision_classifier.py:18-26 | floor exactly within the floor limit plus 0.01, ceiling exactly beyond it and at least a right angle plus 0.01, wall in between |
| `CollisionClassifier.ClassifiedSetsOneFlag` | engine/scene/three_d/character_body_3d/collision_classifier.py:18-26 | one call raises exactly the flag of the surface found, stores its normal, and leaves every other field; no flag is cleared |
| `CollisionClassifier.Classified` | engine/scene/three_d/character_body_3d/collision_classifier.py:18-26 | the flag of the surface raised and its normal stored; `CollisionClassifier.ClassifiedSetsOneFlag` is its partner |
| `VelocityResolver.Slide` | engine/scene/three_d/character_body_3d/velocity_resolver.py:9-12 | the velocity less its component along the normal; the lemmas below are its partners |
| `VelocityResolver.ProjectOnFloor` | engine/scene/three_d/character_body_3d/velocity_resolver.py:14-17 | the same projection as slide |
| `VelocityResolver.SlideIsPerpendicular` | engine/scene/three_d/character_body_3d/velocity_resolver.py:9-12 | for a unit normal, what slide leaves is perpendicular to the normal |
| `VelocityResolver.SlideKeepsPerpendicular` | engine/scene/three_d/character_body_3d/velocity_resolver.py:9-12 | a velocity with no component along the normal is left alone |
| `VelocityResolver.SlideIsIdempotent` | engine/scene/three_d/character_body_3d/velocity_resolver.py:9-12 | for a unit normal, sliding twice is sliding once |
| `VelocityResolver.SlideOfNormalIsZero` | engine/scene/three_d/character_body_3d/velocity_resolver.py:9-12 | for a unit normal, a velocity straight along it slides to nothing |
| `VelocityResolver.ProjectOnFloorIsPerpendicular` | engine/scene/three_d/character_body_3d/velocity_resolver.py:14-17 | project_on_floor is slide, so it leaves a perpendicular, idempotent result |
| `SlideSolver.ResolveWall` | engine/scene/three_d/character_body_3d/slide_solver.py:150-171 | a nearly still velocity is kept; otherwise both branches give the velocity less its part along the normal |
| `SlideSolver.ResolveFloor` | engine/scene/three_d/character_body_3d/slide_solver.py:124-149 | a floor hit projects the velocity onto the floor, rescaled with constant speed; `SlideSolver.ResolveFloorSpeed` is its partner |
| `SlideSolver.ProjectMotionOnSurface` | engine/scene/three_d/character_body_3d/slide_solver.py:174-199 | the remaining motion projected onto the surface hit; `SlideSolver.NextRemainingFacesAway` is its partner |
| `SlideSolver.SlideRun` | engine/scene/three_d/character_body_3d/slide_solver.py:28-107 | the remaining iterations of the slide loop; `SlideSolver.SlideRunBounded` and `SlideSolver.SlideRunState` are its partners and `SlideSolver.Solve` is proved equal to it |
| `SlideSolver.AfterHitState` | engine/scene/three_d/character_body_3d/slide_solver.py:72-90 | after a hit the platform fields are unchanged, no contact flag is cleared, and some flag is raised |
| `SlideSolver.SlideBudget` | engine/scene/three_d/character_body_3d/slide_solver.py:54 | range(max_slides) runs no iteration for a count below one and max_slides iterations otherwise |
| `SlideSolver.SlideOnce` | engine/scene/three_d/character_body_3d/slide_solver.py:55-104 | one iteration of the loop: the run from here is the hit followed by the run from the next remaining motion, or ends here on a raise, a miss or a short remainder |
| `SlideSolver.PrefixedTwice` | engine/scene/three_d/character_body_3d/slide_solver.py:71 | appending the collisions of two stretches of the loop in turn is appending both at once |
| `SlideSolver.SlideStep` | engine/scene/three_d/character_body_3d/slide_solver.py:54-104 | one pass of the loop body either ends the run or continues it, so the collisions so far followed by the rest always make the whole run |
| `SlideSolver.Solve` | engine/scene/three_d/character_body_3d/slide_solver.py:28-106 | solve returns the collisions of the recursive run, or its exception, and leaves the body and the state where the run ends |
| `SlideSolver.SlideRunBounded` | engine/scene/three_d/character_body_3d/slide_solver.py:54 | a run meets at most max_slides collisions |
| `SlideSolver.SlideRunState` | engine/scene/three_d/character_body_3d/slide_solver.py:50-104 | the loop never touches the platform fields, never clears a contact flag, and changes no state when it met nothing |
| `SlideSolver.SlideRunHitRaisesFlag` | engine/scene/three_d/character_body_3d/slide_solver.py:68-73 | a run that met something and did not raise ends touching a floor, a wall or a ceiling |
| `SlideSolver.NextRemainingFacesAway` | engine/scene/three_d/character_body_3d/slide_solver.py:92-104 | for a unit normal, the motion carried into the next iteration never points into the surface just hit |
| `SlideSolver.FloorCollisionIsClassifiedFloor` | engine/scene/three_d/character_body_3d/slide_solver.py:108-121 | a normal the solver counts as floor is also classified as floor whenever classifying does not raise |
| `SlideSolver.KeepHorizontalSpeedMatches` | engine/scene/three_d/character_body_3d/slide_solver.py:139-146 | with floor_constant_speed, the rescaled projection moves across the up direction exactly at the original speed |
| `SlideSolver.ResolveFloorSpeed` | engine/scene/three_d/character_body_3d/slide_solver.py:123-148 | a floor hit projects the velocity onto the floor; with constant speed and both speeds above 0.0001, the horizontal speed is kept |
| `SlideSolver.WallResolutionIsPerpendicular` | engine/scene/three_d/character_body_3d/slide_solver.py:77-88 | a wall, ceiling, or floor blocked by a wall leaves a moving velocity with no component along a unit normal |
| `FloorSnapper.ValidFloorIsFloorCollision` | engine/scene/three_d/character_body_3d/floor_snapper.py:99-114 | the snapper and the slide solver agree exactly on what a floor is |
| `FloorSnapper.ShouldSnap` | engine/scene/three_d/character_body_3d/floor_snapper.py:77-97 | a positive snap length, on the floor last frame, not on it now and not moving up; `FloorSnapper.NoSnapWhen` is its partner |
| `FloorSnapper.Snapped` | engine/scene/three_d/character_body_3d/floor_snapper.py:25-74 | a test-only probe down by the snap length, and on a valid floor the move and the floor contact; `FloorSnapper.SnapResult` and `FloorSnapper.SnapKeepsMotion` are its partners |
| `FloorSnapper.AttemptSnap` | engine/scene/three_d/character_body_3d/floor_snapper.py:25-74 | attempt_snap's answer, the body's transform and the motion state are those of the snap function: a test-only probe down by the snap length, then on a valid floor a move down to the contact and the floor recorded |
| `FloorSnapper.SnapResult` | engine/scene/three_d/character_body_3d/floor_snapper.py:44-74 | a snap that answers false changes nothing; one that answers true was due, and leaves the character on a valid floor with everything else in the state untouched |
| `FloorSnapper.NoSnapWhen` | engine/scene/three_d/character_body_3d/floor_snapper.py:76-97 | no snap and no query when the snap length is not positive, the character was not on the floor, already is on it, or moves up |
| `FloorSnapper.SnapKeepsMotion` | engine/scene/three_d/character_body_3d/floor_snapper.py:71-73 | a snap never changes the velocity or the platform, and one that does not raise adds no wall or ceiling contact |
| `PlatformTracker.UpdateFromCollision` | engine/scene/three_d/character_body_3d/platform_tracker.py:86-111 | a floor hit against a known collider makes it the platform with zero velocities; anything else changes nothing |
| `PlatformTracker.FromCollision` | engine/scene/three_d/character_body_3d/platform_tracker.py:87-111 | a floor hit against a known collider makes it the platform with zero velocities; anything else changes nothing |
| `PlatformTracker.Carried` | engine/scene/three_d/character_body_3d/platform_tracker.py:26-52 | the platform's velocity is added on the tracked platform when it is nonzero; `PlatformTracker.CarriedOnlyOnSamePlatform` is its partner |
| `PlatformTracker.PlatformTracker.constructor` | engine/scene/three_d/character_body_3d/platform_tracker.py:20-24 | a new tracker tracks nothing |
| `PlatformTracker.PlatformTracker.ApplyPlatformMotion` | engine/scene/three_d/character_body_3d/platform_tracker.py:26-52 | the state takes the carried velocity: the platform's is added only on the same, moving platform |
| `PlatformTracker.PlatformTracker.HandlePlatformLeave` | engine/scene/three_d/character_body_3d/platform_tracker.py:113-135 | only the velocity changes, by the leave momentum of the mode |
| `PlatformTracker.PlatformTracker.UpdateFromState` | engine/scene/three_d/character_body_3d/platform_tracker.py:54-84 | the leave momentum is applied exactly when the character was on the floor, now has no platform and had one; the tracker then mirrors the current platform or is cleared |
| `PlatformTracker.PlatformTracker.Clear` | engine/scene/three_d/character_body_3d/platform_tracker.py:137-142 | afterwards nothing is tracked |
| `PlatformTracker.CarriedOnlyOnSamePlatform` | engine/scene/three_d/character_body_3d/platform_tracker.py:36-46 | only the velocity can change, and only on the tracked platform, by the platform's velocity |
| `PlatformTracker.LeaveMomentum` | engine/scene/three_d/character_body_3d/platform_tracker.py:123-135 | for a unit up direction, mode 0 adds the last platform velocity when nonzero, mode 1 its upward component exactly when positive, other modes nothing |
| `MotionModes.PreSolve` | engine/scene/three_d/character_body_3d/motion_modes.py:53-82 | pre_solve leaves the state as the pre-solve function says: a grounded character on the floor loses a downward velocity and stops on a steep floor below 0.1 horizontal speed; anything else is unchanged |
| `MotionModes.PreSolved` | engine/scene/three_d/character_body_3d/motion_modes.py:53-82 | a grounded character on the floor gets its pre-solve velocity, everything else is kept; `MotionModes.PreSolveNotDownward` is its partner |
| `MotionModes.PostSolved` | engine/scene/three_d/character_body_3d/motion_modes.py:84-115 | with floor_constant_speed on a known floor the velocity is projected and rescaled; `MotionModes.PostSolveKeepsHorizontalSpeed` is its partner |
| `MotionModes.PostSolve` | engine/scene/three_d/character_body_3d/motion_modes.py:84-115 | post_solve leaves the state as the post-solve function says: with floor_constant_speed on a known floor the velocity is projected and rescaled; anything else is unchanged |
| `MotionModes.PreSolveNotDownward` | engine/scene/three_d/character_body_3d/motion_modes.py:67-70 | for a unit up direction a grounded character on the floor never keeps a downward velocity |
| `MotionModes.ModesOnlyTouchVelocity` | engine/scene/three_d/character_body_3d/motion_modes.py:53-140 | both hooks change only the velocity, and change nothing off the floor or in floating mode |
| `MotionModes.PostSolveKeepsHorizontalSpeed` | engine/scene/three_d/character_body_3d/motion_modes.py:95-115 | with both horizontal speeds above 0.0001, post_solve keeps the speed across the up direction |
| `MotionStates.ResetContacts` | engine/scene/three_d/character_body_3d/motion_state.py:38-44 | the three flags are cleared and their normals zeroed; velocity and platform are kept |
| `MotionStates.CharacterMotionState.constructor` | engine/scene/three_d/character_body_3d/motion_state.py:24-36 | a new state is at rest, touching nothing, on no platform |
| `MotionStates.CharacterMotionState.ResetCollisions` | engine/scene/three_d/character_body_3d/motion_state.py:38-44 | the state becomes its reset copy |
| `Colors.Channel8` | engine/math/datatypes/color.py:68-82 | an 8-bit channel lies in [0, 255], is the floor of the clamped, scaled value, and is 0 at or below 0 and 255 at or above 1 |
| `Colors.R8` | engine/math/datatypes/color.py:69-70 | r8 is `Channel8` of the red channel, so it lies in [0, 255] |
| `Colors.G8` | engine/math/datatypes/color.py:73-74 | g8 is `Channel8` of the green channel |
| `Colors.B8` | engine/math/datatypes/color.py:77-78 | b8 is `Channel8` of the blue channel |
| `Colors.A8` | engine/math/datatypes/color.py:81-82 | a8 is `Channel8` of the alpha channel |
| `Colors.HexByte` | engine/math/datatypes/color.py:135-136 | format(n, "02x") writes two lowercase hex digits |
| `Colors.ToHtml` | engine/math/datatypes/color.py:132-136 | to_html writes 8 lowercase hex digits with alpha and 6 without |
| `Colors.StripsOnlyHashes` | engine/math/datatypes/color.py:162 | lstrip("#") removes a leading run of '#' and keeps the rest |
| `Colors.ParsePair` | engine/math/datatypes/color.py:164-172 | int(pair, 16) reads two hex digits of either case as their value, accepts a single digit after a sign or next to whitespace, and raises ValueError on anything else |
| `Colors.FromHex` | engine/math/datatypes/color.py:159-174 | after the leading '#'s, a length other than 6 or 8 gives opaque black; the only exception is ValueError |
| `Colors.FromDigits` | engine/math/datatypes/color.py:163-174 | a length other than 6 or 8 gives opaque black, and the only exception is ValueError |
| `Colors.HexByteParses` | engine/math/datatypes/color.py:135-172 | a pair written by format(n, "02x") reads back as n |
| `Colors.HexRoundTrip` | engine/math/datatypes/color.py:132-174 | the hex written for four channel values reads back as those values over 255, alpha 1 when only six digits were written |
| `Colors.HtmlRoundTrip` | engine/math/datatypes/color.py:132-174 | from_hex of to_html, behind any number of '#', gives the 8-bit channels over 255 back |
| `Colors.Divide` | engine/math/datatypes/color.py:104-108 | dividing by zero gives opaque black instead of raising |
| `Colors.DivideUndoesTimes` | engine/math/datatypes/color.py:98-108 | dividing by a non-zero number and multiplying back restores the colour |
| `Colors.Times` | engine/math/datatypes/color.py:98-99 | every channel, alpha included, times the number; `Colors.DivideUndoesTimes` is its partner |
| `Colors.LerpEnds` | engine/math/datatypes/color.py:111-118 | lerp with weight 0 is the colour itself and with weight 1 the target |
| `Colors.LerpColor` | engine/math/datatypes/color.py:111-118 | lerp on each channel; `Colors.LerpEnds` is its partner |
| `Colors.InvertedInvolution` | engine/math/datatypes/color.py:120-122 | inverted keeps alpha and undoes itself |
| `Colors.Inverted` | engine/math/datatypes/color.py:120-122 | one minus each colour channel, alpha kept; `Colors.InvertedInvolution` is its partner |
| `Colors.WhiteModulates` | engine/math/datatypes/color.py:100-101 | modulating by white changes nothing, from either side |
| `Colors.Modulated` | engine/math/datatypes/color.py:100-101 | the product channel by channel; `Colors.WhiteModulates` is its partner |
| `Colors.LightenDarkenEnds` | engine/math/datatypes/color.py:124-130 | lightening or darkening by 0 changes nothing; by 1 it gives opaque white or black |
| `Colors.Lightened` | engine/math/datatypes/color.py:124-126 | a lerp towards opaque white; `Colors.LightenDarkenEnds` is its partner |
| `Colors.Darkened` | engine/math/datatypes/color.py:128-130 | a lerp towards opaque black; `Colors.LightenDarkenEnds` is its partner |
| `Timers.Timer.constructor` | engine/scene/main/timer.py:7-18 | a new timer waits one second, repeats, does not autostart, is not running and is advanced by the idle loop |
| `Timers.Timer.Start` | engine/scene/main/timer.py:24-34 | a given time, clamped to be non-negative, becomes the wait time; the countdown restarts from it; the timer registers with the loop its callback names |
| `Timers.Timer.Stop` | engine/scene/main/timer.py:36-40 | the timer stops with nothing left and leaves both loops; its settings stay |
| `Timers.Timer.IsStopped` | engine/scene/main/timer.py:42-43 | stopped exactly when not running |
| `Timers.Timer.Ready` | engine/scene/main/timer.py:20-22 | an autostart timer starts with its own wait time; any other is unchanged |
| `Timers.Timer.Advance` | engine/scene/main/timer.py:45-59 | the countdown moves as the tick function says, timeout is counted exactly when it fires, and a one-shot timer that fires is stopped |
| `Timers.Ticked` | engine/scene/main/timer.py:45-59 | the countdown after one step and whether it fired; the lemmas below state its behaviour |
| `Timers.StoppedOrPausedIsInert` | engine/scene/main/timer.py:46-47 | a stopped or paused timer neither moves nor fires |
| `Timers.FiresWhenRunOut` | engine/scene/main/timer.py:49-57 | a running timer fires exactly when the time left less delta is no longer positive; a one-shot one then ends stopped at 0 |
| `Timers.RepeatingFiresOnce` | engine/scene/main/timer.py:54-59 | a repeating timer never stops itself and winds up by one wait time only, however large delta is |
| `Timers.RepeatingStaysWound` | engine/scene/main/timer.py:49-59 | a repeating timer with a positive wait time never has more than that left |
| `Timers.OneShotFiresOnce` | engine/scene/main/timer.py:54-57 | once a one-shot timer has fired, no later step fires it again |
| `Stamina.StaminaComponent.GaugeOf` | game/components/stamina_component.py:16-21 | the gauge holds the current value and the exhausted flag |
| `Stamina.StaminaComponent.constructor` | game/components/stamina_component.py:11-33 | a new meter is full at 100, drains at 20 and refills at 15 per second, and has a 1.5-second one-shot cool-down that is not running |
| `Stamina.StaminaComponent.Ready` | game/components/stamina_component.py:35-37 | the current value is announced once and nothing else changes |
| `Stamina.StaminaComponent.Deplete` | game/components/stamina_component.py:73-83 | the meter drains by decay_rate times delta but not below 0; changed is emitted when it moved, and exhausted(true) when it first reaches 0 |
| `Stamina.StaminaComponent.Regenerate` | game/components/stamina_component.py:85-97 | the meter refills by refill_rate times delta but not above max; changed is emitted when it moved; at max, exhausted(false) if it was exhausted, and recovered every time |
| `Stamina.StaminaComponent.Process` | game/components/stamina_component.py:39-52 | drain while sprinting with stamina left and not exhausted, else refill when allowed and below max; a bounded meter stays bounded for a non-negative delta |
| `Stamina.Depleted` | game/components/stamina_component.py:73-83 | drain by decay_rate times delta but not below 0, with changed and exhausted(true) emitted as the source does |
| `Stamina.Regenerated` | game/components/stamina_component.py:85-97 | refill by refill_rate times delta but not above max, with changed, exhausted(false) and recovered emitted as the source does |
| `Stamina.Processed` | game/components/stamina_component.py:39-52 | drain while sprinting with stamina left and not exhausted, else refill when allowed and below max, else nothing; the lemmas below are its partners |
| `Stamina.CanSprint` | game/components/stamina_component.py:69-71 | stamina left and not exhausted |
| `Stamina.StaminaComponent.RequestSprint` | game/components/stamina_component.py:54-67 | trying to sprint blocks refilling and stops a running cool-down; letting go after a sprint restarts the cool-down from its wait time; the meter does not change |
| `Stamina.StaminaComponent.OnRegenTimerTimeout` | game/components/stamina_component.py:99-101 | refilling is allowed again and nothing else changes |
| `Stamina.StaminaComponent.AdvanceRegenTimer` | game/components/stamina_component.py:36 | the cool-down ticks, and refilling becomes allowed exactly when it fires or already was |
| `Stamina.ProcessedStaysBounded` | game/components/stamina_component.py:73-97 | for non-negative rates and delta, a step keeps the meter between empty and full |
| `Stamina.ExhaustedOnlyAtEnds` | game/components/stamina_component.py:81-96 | the exhausted flag is raised only on an empty meter and lowered only on a full one, each change announced by its exhausted signal and none otherwise |
| `Stamina.ProcessGuards` | game/components/stamina_component.py:39-52 | an exhausted meter never drains; it rises only while not sprinting and allowed, falls only while sprinting is possible, and changed leads the signals exactly when it moved |
| `Ranges.RoundHalfEven` | engine/ui/widgets/range.py:55 | round() gives the integer within half of its argument, the lower one below the half, the upper one above it, and the even one on a tie |
| `Ranges.Clamped` | engine/ui/widgets/range.py:49-52 | below min the value becomes min unless lesser values are allowed, above max it becomes max unless greater ones are; with both clamps on it lies in [min, max]; with both off it is unchanged |
| `Ranges.Adjusted` | engine/ui/widgets/range.py:46-55 | the value clamped, then snapped to a positive step; `Ranges.AdjustedIdempotent` and `Ranges.SettledNearBounds` are its partners |
| `Ranges.Snap` | engine/ui/widgets/range.py:55 | round(value / step) * step; `Ranges.SnapIsNear` and `Ranges.SnapOnStep` are its partners |
| `Ranges.RatioOf` | engine/ui/widgets/range.py:67-70 | the ratio is 0 when the bounds coincide, else the fraction of the way from min to max |
| `Ranges.Range.constructor` | engine/ui/widgets/range.py:7-17 | a new range runs from 0 to 100 in steps of 1, holds 0, clamps both ways and has emitted nothing |
| `Ranges.Range.SetValue` | engine/ui/widgets/range.py:46-62 | the clamped and snapped value is stored and emitted once, unless it equals the value held, in which case nothing changes; bounds, step and flags stay |
| `Ranges.Range.SetMin` | engine/ui/widgets/range.py:19-21 | the new minimum is stored and the held value set again against it |
| `Ranges.Range.SetMax` | engine/ui/widgets/range.py:26-28 | the new maximum is stored and the held value set again against it |
| `Ranges.Range.SetStep` | engine/ui/widgets/range.py:33-37 | a step that is not positive is refused and the old one kept, so the step stays positive; the value is not re-snapped |
| `Ranges.Range.SetAllowGreater` | engine/ui/widgets/range.py:72-73 | only the allow-greater flag changes |
| `Ranges.Range.SetAllowLesser` | engine/ui/widgets/range.py:75-76 | only the allow-lesser flag changes |
| `Ranges.Range.Ratio` | engine/ui/widgets/range.py:67-70 | get_ratio is the ratio of the held value between the bounds |
| `Ranges.SnapIsNear` | engine/ui/widgets/range.py:54-55 | snapping moves a value by at most half a step |
| `Ranges.SettledNearBounds` | engine/ui/widgets/range.py:49-55 | with both clamps on, the settled value leaves [min, max] by at most half a step, since snapping follows clamping |
| `Ranges.SnapOnStep` | engine/ui/widgets/range.py:55 | a snapped value is a whole number of steps |
| `Ranges.AdjustedIdempotent` | engine/ui/widgets/range.py:46-58 | setting a range to the value it settled on settles on the same value, so a second set_value emits nothing |
| `Ranges.RatioInUnit` | engine/ui/widgets/range.py:67-70 | a value within the bounds has a ratio in [0, 1], 0 at min and 1 at max |
| `PlaneMeshes.Positions` | engine/resources/mesh/plane_mesh.py:89-96 | the first n grid points in row-major order, one per point |
| `PlaneMeshes.GridUv` | engine/resources/mesh/plane_mesh.py:89-92 | the texture coordinate (ix / sw, iz / sd); `PlaneMeshes.UvsInUnit` is its partner |
| `PlaneMeshes.PlanePoint` | engine/resources/mesh/plane_mesh.py:93-96 | the point of the plane centred on the origin at texture coordinate (u, v) |
| `PlaneMeshes.GridPoints` | engine/resources/mesh/plane_mesh.py:89-98 | the (sw + 1) * (sd + 1) grid points in row-major order |
| `PlaneMeshes.Uvs` | engine/resources/mesh/plane_mesh.py:89-92 | the first n texture coordinates in row-major order, one per point |
| `PlaneMeshes.Normals` | engine/resources/mesh/plane_mesh.py:97 | every normal points up along +Y |
| `PlaneMeshes.Indices` | engine/resources/mesh/plane_mesh.py:100-108 | six indices per cell for the first n cells in row-major order |
| `PlaneMeshes.Quad` | engine/resources/mesh/plane_mesh.py:102-108 | the six indices of one cell, two triangles; `PlaneMeshes.CellCorner` and `PlaneMeshes.QuadInRange` are its partners |
| `PlaneMeshes.GridIndices` | engine/resources/mesh/plane_mesh.py:100-108 | six indices per cell, 6 * sw * sd in all; `PlaneMeshes.IndicesInRange` is its partner |
| `PlaneMeshes.Plane` | engine/resources/mesh/plane_mesh.py:75-110 | a width or depth count of exactly -1 raises ZeroDivisionError (unless the other is below -1), a count below -1 gives an empty plane, and non-negative counts give (sw+1)(sd+1) points, normals and uvs and 6 sw sd indices |
| `PlaneMeshes.BuildPlaneData` | engine/resources/mesh/plane_mesh.py:69-110 | the nested loops compute exactly the plane data above, error and empty cases included |
| `PlaneMeshes.BuildGridPoints` | engine/resources/mesh/plane_mesh.py:89-98 | the point loops produce the row-major positions, the up normals and the uvs of all (sw+1)(sd+1) grid points |
| `PlaneMeshes.AppendPointRow` | engine/resources/mesh/plane_mesh.py:90-98 | the inner loop appends the sw+1 points of one row |
| `PlaneMeshes.BuildGridIndices` | engine/resources/mesh/plane_mesh.py:100-108 | the cell loops produce two triangles per cell in row-major order |
| `PlaneMeshes.AppendCellRow` | engine/resources/mesh/plane_mesh.py:101-108 | the inner loop appends the sw cells of one row |
| `PlaneMeshes.PointAt` | engine/resources/mesh/plane_mesh.py:89-96 | point k of the plane is grid point (k mod (sw+1), k div (sw+1)) |
| `PlaneMeshes.CellAt` | engine/resources/mesh/plane_mesh.py:100-108 | the six indices of cell c are the two triangles of its row-major place |
| `PlaneMeshes.QuadInRange` | engine/resources/mesh/plane_mesh.py:102-108 | the corners of a cell are grid points of the plane, the last one at most the last grid point |
| `PlaneMeshes.IndicesInRange` | engine/resources/mesh/plane_mesh.py:100-108 | every index names one of the (sw+1)(sd+1) grid points |
| `PlaneMeshes.CellCorner` | engine/resources/mesh/plane_mesh.py:100-108 | the j-th index of cell c names the grid point at the j-th corner of that cell, so the two triangles cover the cell and share its diagonal |
| `PlaneMeshes.UvsInUnit` | engine/resources/mesh/plane_mesh.py:91-98 | every texture coordinate lies in the unit square |
| `PlaneMeshes.PackIndices` | engine/resources/mesh/plane_mesh.py:50 | packing as "H" succeeds exactly when every index is in [0, 65536), and then keeps every index; otherwise struct.error |
| `PlaneMeshes.PlanePacksIff` | engine/resources/mesh/plane_mesh.py:50 | the plane's indices pack as u16 exactly when it has at most 65536 grid points |
| `ObjParse.AddFace` | engine/resources/mesh/loaders/mesh_loader_obj/mesh_loader_obj.py:42-92 | ensure_element opens an element with the current names when none is open, the face goes to the open element, and every element keeps at least one face |
| `ObjParse.KeywordOfPrefix` | engine/resources/mesh/loaders/mesh_loader_obj/mesh_loader_obj.py:70-92 | a line takes the v, vn, vt or f branch exactly when it starts with that keyword and a space, whatever the earlier tests |
| `ObjParse.KeywordOf` | engine/resources/mesh/loaders/mesh_loader_obj/mesh_loader_obj.py:70-92 | the branch a line takes, tested in the source's order; `ObjParse.KeywordOfPrefix` is its partner |
| `ObjParse.Step` | engine/resources/mesh/loaders/mesh_loader_obj/mesh_loader_obj.py:53-95 | one line read: comments and blank lines skipped, names stored and the element closed, coordinates appended or float's error raised, faces added, mtllib stored; the reader stays valid |
| `ObjParse.Parse` | engine/resources/mesh/loaders/mesh_loader_obj/mesh_loader_obj.py:52-97 | all lines read in order, or the first exception; a finished reader is valid |
| `ObjParse.ParseStops` | engine/resources/mesh/loaders/mesh_loader_obj/mesh_loader_obj.py:52-97 | once a line raises, the lines after it are not read and the exception is the result |
| `ObjParse.ReadLine` | engine/resources/mesh/loaders/mesh_loader_obj/mesh_loader_obj.py:54-95 | the loop body computes exactly one reading step |
| `ObjParse.ParseObj` | engine/resources/mesh/loaders/mesh_loader_obj/mesh_loader_obj.py:33-97 | the loop over the file returns the parsed data and the last mtllib name, or the first exception |
| `ObjParse.Parsed` | engine/resources/mesh/loaders/mesh_loader_obj/mesh_loader_obj.py:33-97 | the mesh data and the last mtllib name, or the first exception; `ObjParse.ParseCounts` and `ObjParse.ParseTotal` are its partners |
| `ObjParse.FacesAddFace` | engine/resources/mesh/loaders/mesh_loader_obj/mesh_loader_obj.py:91-92 | a face line lands after all faces read before it |
| `ObjParse.ParseCounts` | engine/resources/mesh/loaders/mesh_loader_obj/mesh_loader_obj.py:70-92 | one position, normal or uv per v, vn or vt line, and the elements hold exactly the file's face lines in file order |
| `ObjParse.StepCounts` | engine/resources/mesh/loaders/mesh_loader_obj/mesh_loader_obj.py:70-92 | one line adds one item to the list of its own keyword and nothing to the others |
| `ObjParse.NamedLineHasName` | engine/resources/mesh/loaders/mesh_loader_obj/mesh_loader_obj.py:58-95 | the IndexError of split(maxsplit=1)[1] cannot happen on a stripped line that starts with o, g, usemtl or mtllib and a space |
| `ObjParse.ParseTotal` | engine/resources/mesh/loaders/mesh_loader_obj/mesh_loader_obj.py:52-97 | when float accepts every token, parsing never fails |
| `ObjParse.NameEndsElement` | engine/resources/mesh/loaders/mesh_loader_obj/mesh_loader_obj.py:58-92 | after an o, g or usemtl line the next face starts a new element with the names as they then stand |
| `ObjParse.FaceJoinsElement` | engine/resources/mesh/loaders/mesh_loader_obj/mesh_loader_obj.py:91-92 | face lines with no naming line between them join the same element |
| `ObjSurface.OptionalIndex` | engine/resources/mesh/loaders/mesh_loader_obj/mesh_loader_obj.py:206-207 | a present, nonempty piece is read with int() and made 0-based, a missing or empty one gives -1, and only ValueError can arise |
| `ObjSurface.TokenKey` | engine/resources/mesh/loaders/mesh_loader_obj/mesh_loader_obj.py:204-207 | a token's key is its position, normal and uv piece read 1-based, or ValueError |
| `ObjSurface.Tokens` | engine/resources/mesh/loaders/mesh_loader_obj/mesh_loader_obj.py:200 | the tokens of a face line after the f |
| `ObjSurface.PyIndex` | engine/resources/mesh/loaders/mesh_loader_obj/mesh_loader_obj.py:173 | a Python index in range names an element of the list, counting from the end when negative |
| `ObjSurface.FaceKeys` | engine/resources/mesh/loaders/mesh_loader_obj/mesh_loader_obj.py:203-208 | every token of a face gets a key whose position exists, or the first ValueError or IndexError ends the face |
| `ObjSurface.AllKeys` | engine/resources/mesh/loaders/mesh_loader_obj/mesh_loader_obj.py:198-208 | one key list per face, or the first exception |
| `ObjSurface.VerticesOf` | engine/resources/mesh/loaders/mesh_loader_obj/mesh_loader_obj.py:185-192 | one packed vertex per inserted key |
| `ObjSurface.VertexAt` | engine/resources/mesh/loaders/mesh_loader_obj/mesh_loader_obj.py:185-192 | the vertex of a key: the position, the normal or (0, 1, 0), the uv or (0, 0); `ObjSurface.PositionOnlyVertex` and `ObjSurface.FullVertex` are its partners |
| `ObjSurface.IndexedFacts` | engine/resources/mesh/loaders/mesh_loader_obj/mesh_loader_obj.py:194-195 | vertex_map holds exactly the inserted keys, each mapped to its insertion position, and has one entry per key |
| `ObjSurface.EmitVertex` | engine/resources/mesh/loaders/mesh_loader_obj/mesh_loader_obj.py:168-196 | a key seen before returns its index; a new key with a position gets the next index and its vertex packed last; a new key without one raises IndexError |
| `ObjSurface.TableAppend` | engine/resources/mesh/loaders/mesh_loader_obj/mesh_loader_obj.py:185-195 | a new key goes last in the vertex table, at index len(vertex_map) |
| `ObjSurface.FirstSeenStep` | engine/resources/mesh/loaders/mesh_loader_obj/mesh_loader_obj.py:170-195 | a key already in the dict leaves the key order as it is, a new one goes last |
| `ObjSurface.FaceKeysStep` | engine/resources/mesh/loaders/mesh_loader_obj/mesh_loader_obj.py:203-208 | one more good token extends the face's keys by its key |
| `ObjSurface.FaceKeysStops` | engine/resources/mesh/loaders/mesh_loader_obj/mesh_loader_obj.py:203-208 | an exception in a token ends the face with that exception |
| `ObjSurface.PositionsKept` | engine/resources/mesh/loaders/mesh_loader_obj/mesh_loader_obj.py:170-195 | an index handed out keeps its meaning while the dict grows |
| `ObjSurface.PositionsAppend` | engine/resources/mesh/loaders/mesh_loader_obj/mesh_loader_obj.py:208 | appending a key's index keeps every index the position of its key |
| `ObjSurface.FaceIndices` | engine/resources/mesh/loaders/mesh_loader_obj/mesh_loader_obj.py:200-208 | the token loop raises exactly when the face's keys do, and otherwise gives each token the position of its key in the grown table |
| `ObjSurface.ReadToken` | engine/resources/mesh/loaders/mesh_loader_obj/mesh_loader_obj.py:204-208 | one pass of the token loop extends the face's keys and indices, or ends with the face's exception |
| `ObjSurface.AppendFan` | engine/resources/mesh/loaders/mesh_loader_obj/mesh_loader_obj.py:211-216 | the triangulation loop appends the fan of the face's indices |
| `ObjSurface.Fan` | engine/resources/mesh/loaders/mesh_loader_obj/mesh_loader_obj.py:211-216 | the fan triangulation (v0, v1, v2), (v0, v2, v3), ...; `ObjSurface.FanShape` is its partner |
| `ObjSurface.FanMapped` | engine/resources/mesh/loaders/mesh_loader_obj/mesh_loader_obj.py:208-216 | triangulating the indices is triangulating the keys and looking each corner up |
| `ObjSurface.FacesPrefix` | engine/resources/mesh/loaders/mesh_loader_obj/mesh_loader_obj.py:198-199 | the faces of earlier elements, then some faces of the current one, come first among all faces |
| `ObjSurface.AllKeysStops` | engine/resources/mesh/loaders/mesh_loader_obj/mesh_loader_obj.py:198-208 | an exception in one face ends the surface with it |
| `ObjSurface.TriangulateFace` | engine/resources/mesh/loaders/mesh_loader_obj/mesh_loader_obj.py:199-216 | one face pass raises exactly when the face's keys do, and otherwise extends the table and indices by that face |
| `ObjSurface.TriangulateElement` | engine/resources/mesh/loaders/mesh_loader_obj/mesh_loader_obj.py:199-216 | the face loop of one element reads its faces after those read before |
| `ObjSurface.ReadFace` | engine/resources/mesh/loaders/mesh_loader_obj/mesh_loader_obj.py:199-216 | one pass of the face loop, against the faces read so far |
| `ObjSurface.AllKeysSnoc` | engine/resources/mesh/loaders/mesh_loader_obj/mesh_loader_obj.py:198-208 | one more face read into a surface |
| `ObjSurface.BuildSurface` | engine/resources/mesh/loaders/mesh_loader_obj/mesh_loader_obj.py:147-255 | _build_surface gives exactly the surface the faces define, None if no triangle, or the first exception |
| `ObjSurface.SurfaceOf` | engine/resources/mesh/loaders/mesh_loader_obj/mesh_loader_obj.py:147-255 | the surface the faces define, none without triangles, or the first exception; `ObjSurface.SurfaceMeaning` and `ObjSurface.SameKeySameIndex` are its partners |
| `ObjSurface.BuiltSurface` | engine/resources/mesh/loaders/mesh_loader_obj/mesh_loader_obj.py:218-255 | what the loops have built after every face is the surface |
| `ObjSurface.CornersStep` | engine/resources/mesh/loaders/mesh_loader_obj/mesh_loader_obj.py:198-216 | one more face adds its fan to the corners and its keys to the keys seen |
| `ObjSurface.VerticesOfAt` | engine/resources/mesh/loaders/mesh_loader_obj/mesh_loader_obj.py:185-195 | the i-th packed vertex is the vertex of the i-th inserted key |
| `ObjSurface.FanIn` | engine/resources/mesh/loaders/mesh_loader_obj/mesh_loader_obj.py:211-216 | every corner of a fan is a corner of its polygon |
| `ObjSurface.CornersIn` | engine/resources/mesh/loaders/mesh_loader_obj/mesh_loader_obj.py:198-216 | every triangle corner is a key of some face |
| `ObjSurface.FanShape` | engine/resources/mesh/loaders/mesh_loader_obj/mesh_loader_obj.py:211-216 | a polygon of k >= 3 corners gives k - 2 triangles, the i-th being (v0, v[i+1], v[i+2]); fewer corners give none |
| `ObjSurface.CornersEmpty` | engine/resources/mesh/loaders/mesh_loader_obj/mesh_loader_obj.py:211-220 | there are no indices exactly when every face has fewer than three corners |
| `ObjSurface.SurfaceMeaning` | engine/resources/mesh/loaders/mesh_loader_obj/mesh_loader_obj.py:168-255 | the surface has one vertex per distinct key and one index per triangle corner, each naming the vertex of that corner's key; it is skipped exactly when no face has three corners |
| `ObjSurface.SameKeySameIndex` | engine/resources/mesh/loaders/mesh_loader_obj/mesh_loader_obj.py:168-196 | two corners share an index exactly when they share the (pi, ni, ti) key |
| `ObjSurface.IndexWidth` | engine/resources/mesh/loaders/mesh_loader_obj/mesh_loader_obj.py:223-231 | 32-bit indices exactly when there are more than 65535 vertices, and 16-bit indices always fit |
| `ObjSurface.IndexType` | engine/resources/mesh/loaders/mesh_loader_obj/mesh_loader_obj.py:224-231 | 1 for 32-bit indices above 65535 vertices, 0 for 16-bit ones otherwise; `ObjSurface.IndexWidth` is its partner |
| `ObjSurface.ShowNoSlash` | engine/resources/mesh/loaders/mesh_loader_obj/mesh_loader_obj.py:204 | a decimal number holds no slash |
| `ObjSurface.SplitOnFirst` | engine/resources/mesh/loaders/mesh_loader_obj/mesh_loader_obj.py:204 | splitting on a separator cuts right after a first piece that lacks it |
| `ObjSurface.TokenPosition` | engine/resources/mesh/loaders/mesh_loader_obj/mesh_loader_obj.py:205-207 | a token p names position p - 1 and neither normal nor uv |
| `ObjSurface.SplitSlashes` | engine/resources/mesh/loaders/mesh_loader_obj/mesh_loader_obj.py:204 | a/b, a//c and a/b/c split into two, three and three pieces |
| `ObjSurface.TokenOfPieces` | engine/resources/mesh/loaders/mesh_loader_obj/mesh_loader_obj.py:205-207 | the key of a token follows from how int() reads its pieces |
| `ObjSurface.TokenFull` | engine/resources/mesh/loaders/mesh_loader_obj/mesh_loader_obj.py:205-207 | p/t names uv t - 1, p//n normal n - 1, and p/t/n both, all 1-based, position first |
| `ObjSurface.PositionOnlyVertex` | engine/resources/mesh/loaders/mesh_loader_obj/mesh_loader_obj.py:173-183 | a corner p in range gets that position, the normal (0, 1, 0) and the uv (0, 0) |
| `ObjSurface.FullVertex` | engine/resources/mesh/loaders/mesh_loader_obj/mesh_loader_obj.py:173-183 | a corner p/t/n in range is read from the three lists |
| `ObjSurface.RelativeIndexShift` | engine/resources/mesh/loaders/mesh_loader_obj/mesh_loader_obj.py:173-205 | the token -1 becomes pi = -2, which names the second-to-last position |
| `ObjMesh.KeysOf` | engine/resources/mesh/loaders/mesh_loader_obj/mesh_loader_obj.py:128-136 | one bucket key per element: its material, group or object name by split mode |
| `ObjMesh.GroupElements` | engine/resources/mesh/loaders/mesh_loader_obj/mesh_loader_obj.py:128-138 | after the loop the dict's keys are the distinct element keys in first-seen order, and each maps to exactly the elements with that key, in order |
| `ObjMesh.Bucketed` | engine/resources/mesh/loaders/mesh_loader_obj/mesh_loader_obj.py:128-138 | the state of the bucket loop: the keys in first-seen order, each with its elements so far; `ObjMesh.BucketMembers` and `ObjMesh.BucketsPartition` are its partners |
| `ObjMesh.BucketedStep` | engine/resources/mesh/loaders/mesh_loader_obj/mesh_loader_obj.py:138 | setdefault(key, []).append adds the element to the end of its key's list, creating the list last when the key is new |
| `ObjMesh.BucketedAppend` | engine/resources/mesh/loaders/mesh_loader_obj/mesh_loader_obj.py:138 | an element whose key has a list joins the end of it |
| `ObjMesh.BucketedAdd` | engine/resources/mesh/loaders/mesh_loader_obj/mesh_loader_obj.py:138 | an element with a new key starts a list of its own, whose key goes last |
| `ObjMesh.BucketMembers` | engine/resources/mesh/loaders/mesh_loader_obj/mesh_loader_obj.py:128-138 | an element is in a bucket exactly when the bucket is for its key |
| `ObjMesh.KeysOfAt` | engine/resources/mesh/loaders/mesh_loader_obj/mesh_loader_obj.py:128-136 | the i-th key is the key of the i-th element |
| `ObjMesh.BucketNonEmpty` | engine/resources/mesh/loaders/mesh_loader_obj/mesh_loader_obj.py:128-140 | a bucket holds something exactly when some element has its key, so no empty bucket reaches _build_surface |
| `ObjMesh.BucketsPartition` | engine/resources/mesh/loaders/mesh_loader_obj/mesh_loader_obj.py:128-138 | the bucket sizes over the distinct keys add up to the number of elements |
| `ObjMesh.SizeSumGrow` | engine/resources/mesh/loaders/mesh_loader_obj/mesh_loader_obj.py:138 | one more element adds one to the bucket of its key |
| `ObjMesh.MaterialFor` | engine/resources/mesh/loaders/mesh_loader_obj/mesh_loader_obj.py:141 | a bucket gets a material exactly when its key is a nonempty name the MTL library defines, and then that one |
| `ObjMesh.SurfacesSnoc` | engine/resources/mesh/loaders/mesh_loader_obj/mesh_loader_obj.py:140-142 | one more bucket adds its surface, if it has one, after the others |
| `ObjMesh.SurfacesStop` | engine/resources/mesh/loaders/mesh_loader_obj/mesh_loader_obj.py:140-142 | an exception in one bucket ends the mesh |
| `ObjMesh.SurfacesOf` | engine/resources/mesh/loaders/mesh_loader_obj/mesh_loader_obj.py:140-142 | the surfaces of the buckets in key order, skipping those without triangles, or the first exception |
| `ObjMesh.MeshOf` | engine/resources/mesh/loaders/mesh_loader_obj/mesh_loader_obj.py:99-144 | the surfaces _build_mesh adds; `ObjMesh.SurfacesShape` is its partner and `ObjMesh.BuildMesh` is proved equal to it |
| `ObjMesh.BuildMesh` | engine/resources/mesh/loaders/mesh_loader_obj/mesh_loader_obj.py:99-144 | _build_mesh gives one surface per bucket that has triangles, in first-seen key order, or the first exception |
| `ObjMesh.SurfacesShape` | engine/resources/mesh/loaders/mesh_loader_obj/mesh_loader_obj.py:140-142 | at most one surface per key, each with triangles, and any material it has is defined by the MTL library |
| `ObjMesh.Load` | engine/resources/mesh/loaders/mesh_loader_obj/mesh_loader_obj.py:19-30 | load parses, uses the MTL library only when the file names one, and builds the mesh split by material |
| `ObjMesh.LoadOf` | engine/resources/mesh/loaders/mesh_loader_obj/mesh_loader_obj.py:19-30 | the parsed file built into a mesh split by material; `ObjMesh.Load` is proved equal to it |
| `DictOrder.Position` | engine/resources/mesh/loaders/mesh_loader_obj/mesh_loader_obj.py:194-195 | a key's index is the place of its first insertion: found there, and not before it |
| `DictOrder.FirstSeen` | engine/resources/mesh/loaders/mesh_loader_obj/mesh_loader_obj.py:138-140 | a dict's keys are exactly the keys inserted, without repeats |
| `DictOrder.PositionOfDistinct` | engine/resources/mesh/loaders/mesh_loader_obj/mesh_loader_obj.py:194-195 | among keys without repeats each is found where it stands |
| `DictOrder.PositionAppend` | engine/resources/mesh/loaders/mesh_loader_obj/mesh_loader_obj.py:194-195 | inserting a key does not move the keys already present |
| `DictOrder.FirstSeenOrder` | engine/resources/mesh/loaders/mesh_loader_obj/mesh_loader_obj.py:140 | items() visits the keys in the order of their first insertion |
| `DictOrder.DistinctSnoc` | engine/resources/mesh/loaders/mesh_loader_obj/mesh_loader_obj.py:194-195 | a new key keeps the key list free of repeats |
| `DictOrder.PositionAppendNew` | engine/resources/mesh/loaders/mesh_loader_obj/mesh_loader_obj.py:194-195 | a new key is found at the end, at index len(vertex_map) |
| `DictOrder.PositionPrefix` | engine/resources/mesh/loaders/mesh_loader_obj/mesh_loader_obj.py:170-171 | a key's index stays what it was while later keys are added |
| `PyStrings.LStrip` | engine/resources/mesh/loaders/mesh_loader_obj/mesh_loader_obj.py:54 | the leading whitespace is gone and the end is kept |
| `PyStrings.RStrip` | engine/resources/mesh/loaders/mesh_loader_obj/mesh_loader_obj.py:54 | the trailing whitespace is gone and the start is kept |
| `PyStrings.Strip` | engine/resources/mesh/loaders/mesh_loader_obj/mesh_loader_obj.py:54 | strip() leaves neither end whitespace and never lengthens the line |
| `PyStrings.WordLength` | engine/resources/mesh/loaders/mesh_loader_obj/mesh_loader_obj.py:71 | the first word is no longer than the string |
| `PyStrings.WordRun` | engine/resources/mesh/loaders/mesh_loader_obj/mesh_loader_obj.py:71 | the first word is a run of non-whitespace that whitespace or the end stops |
| `PyStrings.SplitWords` | engine/resources/mesh/loaders/mesh_loader_obj/mesh_loader_obj.py:71 | the words of split() are nonempty and hold no whitespace |
| `PyStrings.AfterFirstWord` | engine/resources/mesh/loaders/mesh_loader_obj/mesh_loader_obj.py:59 | split(maxsplit=1)[1] is the nonempty rest after the first word and its whitespace, or an IndexError |
| `PyStrings.SplitOn` | engine/resources/mesh/loaders/mesh_loader_obj/mesh_loader_obj.py:204 | split("/") gives at least one piece |
| `PyStrings.IndexOf` | engine/resources/mesh/loaders/mesh_loader_obj/mesh_loader_obj.py:204 | the first separator is found where it stands |
| `PyStrings.SplitOnJoin` | engine/resources/mesh/loaders/mesh_loader_obj/mesh_loader_obj.py:204 | joining the pieces with the separator gives the token back |
| `PyStrings.DigitsValue` | engine/resources/mesh/loaders/mesh_loader_obj/mesh_loader_obj.py:205 | a nonempty run of digits, with single underscores between digits, has a value; anything else has none |
| `PyStrings.ParseInt` | engine/resources/mesh/loaders/mesh_loader_obj/mesh_loader_obj.py:205-207 | int() raises nothing but ValueError |
| `PyStrings.DigitChar` | engine/resources/mesh/loaders/mesh_loader_obj/mesh_loader_obj.py:205 | a digit character has its own value |
| `PyStrings.Decimal` | engine/resources/mesh/loaders/mesh_loader_obj/mesh_loader_obj.py:205 | str(n) of a natural number is a nonempty run of digits |
| `PyStrings.Show` | engine/resources/mesh/loaders/mesh_loader_obj/mesh_loader_obj.py:205 | str(n) is a sign or digit, then digits |
| `PyStrings.DecimalValue` | engine/resources/mesh/loaders/mesh_loader_obj/mesh_loader_obj.py:205 | the digits of str(n) read back as n |
| `PyStrings.ParseShow` | engine/resources/mesh/loaders/mesh_loader_obj/mesh_loader_obj.py:205 | int(str(n)) is n for every integer |
| `PyStrings.StripsNothing` | engine/resources/mesh/loaders/mesh_loader_obj/mesh_loader_obj.py:54 | a string with no whitespace at either end is its own strip |
| `PyStrings.WordLengthOfPrefix` | engine/resources/mesh/loaders/mesh_loader_obj/mesh_loader_obj.py:59 | a word followed by whitespace is exactly as long as the first word |
| `PyStrings.LStripKeepsLast` | engine/resources/mesh/loaders/mesh_loader_obj/mesh_loader_obj.py:59 | stripping the front keeps a string that ends in non-whitespace nonempty |
| `PyStrings.AfterKeyword` | engine/resources/mesh/loaders/mesh_loader_obj/mesh_loader_obj.py:58-68 | a stripped line made of a keyword, a space and more has a second word, so indexing it cannot fail |
| `CanvasStore.ListRemove` | engine/servers/rendering/canvas/storage.py:75 | list.remove takes away exactly one occurrence of the value and nothing else |
| `CanvasStore.UpdateEach` | engine/servers/rendering/canvas/storage.py:48-51 | updating the listed records keeps the table's keys and each record's id |
| `CanvasStore.UpdateEachMeaning` | engine/servers/rendering/canvas/storage.py:48-51 | with an idempotent update, each listed item gets it and every other item is left as it was |
| `CanvasStore.ForEachItem` | engine/servers/rendering/canvas/storage.py:48-51 | the loop over the listed ids updates exactly the records UpdateEach describes |
| `CanvasStore.CanvasFreed` | engine/servers/rendering/canvas/storage.py:44-52 | freeing a canvas removes that canvas alone and keeps every item and the other canvases |
| `CanvasStore.CanvasFreedMeaning` | engine/servers/rendering/canvas/storage.py:44-52 | an unknown canvas changes nothing; otherwise exactly the items the canvas listed lose their canvas and all else stays |
| `CanvasStore.ItemFreed` | engine/servers/rendering/canvas/storage.py:67-87 | freeing an item removes its record alone and keeps every other record's id |
| `CanvasStore.FreeItem` | engine/servers/rendering/canvas/storage.py:68-85 | the steps of canvas_item_free compute exactly the freed tree |
| `CanvasStore.ItemFreedMeaning` | engine/servers/rendering/canvas/storage.py:67-87 | the parent loses one occurrence of the item, each child loses its parent, the canvas loses one occurrence of it, and every other record is unchanged |
| `CanvasStore.CanvasStorage.constructor` | engine/servers/rendering/canvas/storage.py:26-35 | a new storage has empty tables and hands out ids from 1 |
| `CanvasStore.CanvasStorage.CanvasCreate` | engine/servers/rendering/canvas/storage.py:37-42 | a fresh id, used by no table, gets an empty canvas; nothing else changes and the state is marked dirty |
| `CanvasStore.CanvasStorage.CanvasItemCreate` | engine/servers/rendering/canvas/storage.py:60-65 | a fresh id, used by no table, gets a default item; nothing else changes and the state is marked dirty |
| `CanvasStore.CanvasStorage.CanvasLayerCreate` | engine/servers/rendering/canvas/storage.py:95-100 | a fresh id, used by no table, gets a layer on no canvas; nothing else changes and the state is marked dirty |
| `CanvasStore.CanvasStorage.CanvasFree` | engine/servers/rendering/canvas/storage.py:44-52 | the tree becomes the freed tree, the layers stay, and only a known canvas marks the state dirty |
| `CanvasStore.CanvasStorage.CanvasItemFree` | engine/servers/rendering/canvas/storage.py:67-87 | the tree becomes the freed tree, the layers stay, and only a known item marks the state dirty |
| `CanvasStore.CanvasStorage.CanvasLayerFree` | engine/servers/rendering/canvas/storage.py:102-104 | the layer goes if it was there, and the state is marked dirty either way |
| `CanvasStore.CanvasStorage.Clear` | engine/servers/rendering/canvas/storage.py:112-115 | every table empties while the id counter and the dirty flag stay |
| `CanvasServers.Detached` | engine/servers/rendering/canvas/server.py:72-83 | detaching keeps every table's keys and every record's id |
| `CanvasServers.SetParentOf` | engine/servers/rendering/canvas/server.py:42-70 | re-parenting keeps every table's keys and every record's id |
| `CanvasServers.DetachedMeaning` | engine/servers/rendering/canvas/server.py:72-83 | the item leaves exactly one place: its parent's children if it has a parent, else its canvas's roots; it ends with neither parent nor canvas and all else stays |
| `CanvasServers.SetParentToCanvas` | engine/servers/rendering/canvas/server.py:57-61 | a canvas parent makes the item the canvas's last root, with no parent item |
| `CanvasServers.SetParentToItem` | engine/servers/rendering/canvas/server.py:62-68 | an item parent that is no canvas id makes the item its last child, on the parent's canvas |
| `CanvasServers.SetParentUnknown` | engine/servers/rendering/canvas/server.py:62-65 | an unknown parent id leaves the item detached and the state unmarked |
| `CanvasServers.SelfParent` | engine/servers/rendering/canvas/server.py:62-68 | with no cycle check, an item can become its own parent and child |
| `CanvasServers.ItemParentAdopts` | engine/servers/rendering/canvas/server.py:57-68 | when no id names both a canvas and an item, an existing item parent adopts the item |
| `CanvasServers.SeparateCountersShadow` | engine/servers/rendering/canvas/server.py:57-68 | with three counters from 1, making item 2 a child of item 1 on canvas 1 makes it a root of canvas 1 instead |
| `CanvasServers.Detach` | engine/servers/rendering/canvas/server.py:72-83 | the steps of _detach_item compute exactly the detached tree |
| `CanvasServers.Reparent` | engine/servers/rendering/canvas/server.py:47-70 | the steps of canvas_item_set_parent compute the re-parented tree, and mark dirty exactly when the item exists and the parent is None, a canvas or an item |
| `CanvasServers.Rendered` | engine/servers/rendering/canvas/server.py:263-271 | one render command per draw command of the item |
| `CanvasServers.RenderedAt` | engine/servers/rendering/canvas/server.py:263-271 | draw command k becomes render command k, at the item's z and modulation |
| `CanvasServers.CollectedAllStops` | engine/servers/rendering/canvas/server.py:233-240 | once one root raises, the list raises the same |
| `CanvasServers.InsertByZ` | engine/servers/rendering/canvas/server.py:241 | inserting one command into the list adds exactly it |
| `CanvasServers.InsertSorted` | engine/servers/rendering/canvas/server.py:241 | inserting into a list sorted by z keeps it sorted |
| `CanvasServers.SortByZ` | engine/servers/rendering/canvas/server.py:241 | sort(key=z) gives a permutation of the list that is sorted by z |
| `CanvasServers.AtZAppend` | engine/servers/rendering/canvas/server.py:241 | the commands at one z of two lists joined are those of each in turn |
| `CanvasServers.InsertStable` | engine/servers/rendering/canvas/server.py:241 | an inserted command stays ahead of the commands of its own z |
| `CanvasServers.SortStable` | engine/servers/rendering/canvas/server.py:241 | the sort is stable: commands of equal z keep their order |
| `CanvasServers.RenderListMeaning` | engine/servers/rendering/canvas/server.py:226-242 | the render list is the collected commands, sorted by z stably, and nothing more or less |
| `CanvasServers.Shift` | engine/servers/rendering/canvas/server.py:259 | raising z by k keeps the number of commands |
| `CanvasServers.ShiftAt` | engine/servers/rendering/canvas/server.py:259 | each command's z is raised by k and nothing else changes |
| `CanvasServers.CollectedShift` | engine/servers/rendering/canvas/server.py:259-280 | where every z is relative, drawing a subtree from another parent z shifts every command's z by the difference and changes nothing else |
| `CanvasServers.CollectedAllShift` | engine/servers/rendering/canvas/server.py:273-280 | the same for a list of children |
| `CanvasServers.CollectedFromVisible` | engine/servers/rendering/canvas/server.py:252-280 | every collected command is a draw command of a visible item |
| `CanvasServers.CollectedAllFromVisible` | engine/servers/rendering/canvas/server.py:233-240 | the same for the roots of a canvas |
| `CanvasServers.RenderItem` | engine/servers/rendering/canvas/server.py:263-271 | the command loop appends exactly the item's render commands |
| `CanvasServers.CollectItem` | engine/servers/rendering/canvas/server.py:244-280 | _collect_item yields nothing for a missing or hidden item, else its own commands then its children's, or RecursionError past the limit |
| `CanvasServers.CollectEach` | engine/servers/rendering/canvas/server.py:233-240 | the loop over roots or children collects each in turn, stopping at the first RecursionError |
| `CanvasServers.HiddenDrawsNothing` | engine/servers/rendering/canvas/server.py:253-254 | a hidden item draws nothing, its subtree included |
| `CanvasServers.ModulateReachesRender` | engine/servers/rendering/canvas/server.py:261-271 | with modulate_rgba set, a visible root draws its own commands first, in order, in exactly that colour |
| `CanvasServers.ModulateAsWrittenIgnored` | engine/servers/rendering/canvas/server.py:113-121 | as written, an item left at white draws its first command in its parent's modulation whatever it was set to |
| `CanvasServers.CanvasServer.constructor` | engine/servers/rendering/canvas/server.py:26-28 | a new server owns a fresh, empty storage |
| `CanvasServers.CanvasServer.SetParent` | engine/servers/rendering/canvas/server.py:42-70 | the tree becomes the re-parented tree, the layers stay, and the dirty flag is marked as the source marks it |
| `CanvasServers.CanvasServer.SetVisible` | engine/servers/rendering/canvas/server.py:92-97 | a known item takes the visibility and marks dirty; an unknown one changes nothing |
| `CanvasServers.CanvasServer.SetZIndex` | engine/servers/rendering/canvas/server.py:99-104 | a known item takes the z index and marks dirty; an unknown one changes nothing |
| `CanvasServers.CanvasServer.SetZAsRelative` | engine/servers/rendering/canvas/server.py:106-111 | a known item takes the flag and marks dirty; an unknown one changes nothing |
| `CanvasServers.CanvasServer.SetModulateAsWritten` | engine/servers/rendering/canvas/server.py:113-121 | as written, no record changes; only a known item marks dirty |
| `CanvasServers.CanvasServer.SetModulate` | engine/servers/rendering/canvas/server.py:113-121 | as intended, a known item's modulate_rgba becomes the colour and marks dirty |
| `CanvasServers.CanvasServer.AddRect` | engine/servers/rendering/canvas/server.py:140-155 | a known item gains a rect command last, and the dirty flag is untouched |
| `CanvasServers.CanvasServer.AddTextureRect` | engine/servers/rendering/canvas/server.py:157-192 | a known item gains a texture command last, and the dirty flag is untouched |
| `CanvasServers.CanvasServer.ClearCommands` | engine/servers/rendering/canvas/server.py:194-197 | a known item loses all its commands, and the dirty flag is untouched |
| `CanvasServers.CanvasServer.LayerSetCanvas` | engine/servers/rendering/canvas/server.py:205-210 | a known layer takes any canvas id and marks dirty; an unknown one changes nothing |
| `CanvasServers.CanvasServer.LayerSetOrder` | engine/servers/rendering/canvas/server.py:212-217 | a known layer takes the order and marks dirty; an unknown one changes nothing |
| `CanvasServers.CanvasServer.BuildRenderList` | engine/servers/rendering/canvas/server.py:226-242 | an unknown canvas gives no commands; otherwise the sorted collected commands of its roots, or RecursionError |
| `Bodies.ShapeList.constructor` | engine/servers/physics/storage/body.py:19 | a body's shape list starts empty |
| `Bodies.ShapeList.Append` | engine/servers/physics/storage/body.py:111 | list.append puts the entry last and keeps the entries before it |
| `Gjk.LoopDoesNotRaise` | engine/servers/physics/solver/gjk.py:35-62 | once the first support point exists, the iteration loop never raises, whatever EPA answers |
| `Capsules.ShortCapsuleSegmentRaises` | engine/servers/physics/solver/capsule.py:81-87 | for a capsule no taller than its caps, the closest-point query on its inner segment divides by zero |
| `Capsules.RaisingSegmentRaises` | engine/servers/physics/solver/capsule.py:81-87 | a ZeroDivisionError of the closest-point query ends capsule_vs_sphere with the same error |
| `Colors.ChannelParses` | engine/math/datatypes/color.py:164-170 | from_hex reads the two hex digits at a channel's place as that channel's value over 255 |
| `Colors.HexChannels` | engine/math/datatypes/color.py:132-136 | the channels are written as 8 lowercase hex digits with alpha and 6 without |

## Left out

### Arithmetic

- **Floating point.** Python floats and numpy float32 are modelled as `real`. Rounding, NaN and infinity are not modelled.
- **Maths oracle.** `math.sqrt`, `acos`, `pi`, the trigonometric functions, Basis rotation (`Transform3D.rotated`) and matrix inverse have no definition in Dafny. They are fields of the `Maths` parameter.
  - Properties are proved for every such oracle, or for every lawful square root.
  - So angle tests and normalisations hold whatever values those functions return.
- PhysicsServer.PhysicsServer3DStorage.BodySetCollisionLayer: layers are `bv32`, so a layer outside [0, 2^32) (a negative or wider Python int, which `&` reads in infinite two's complement) is not modelled.
- PhysicsServer.PhysicsServer3DStorage.BodySetCollisionMask: masks are `bv32` for the same reason, so a mask outside [0, 2^32) is not modelled.

### Physics

- **EPA.** solver/epa.py is not part of this model. `Gjk` takes its penetration result as a function parameter.
- **Space narrowphase.** The space consults its narrowphase (solve_static with the server's maths and EPA) as a parameter of its step and motion queries.
- **Body transform aliasing.** A Body3D's transform and the cached transform in its storage record are separate values. Python shares one Transform3D object between them, and that sharing is not modelled. sync_state copies the value back, as the engine does.
- **Shared shapes list.** This aliasing is modelled: a `ShapeList` object is shared by the record and the runtime body (see Findings).
- **Partial contacts.** When a solver raises in the middle of a space step, the model reports the exception. It does not state which contacts were already added to bodies before it.
- **Unread settings.** `wakeup` and `get_direct_state` beyond the Space3D they wrap are not modelled. Neither is the space's `flush_queries` or `set_active` on the software server, which do nothing in the engine.
- **BVH.** math/datatypes/bvh.py is not part of this model. It calls AABB members that aabb.py does not define.
- **Margin.** `_sweep_test` takes a margin but never reads it. The model passes it along and does not read it either.
- PhysicsBody.PhysicsBody3D.constructor: the registration with the server is not modelled. The node takes its rid as a parameter; `body_create`, `body_set_mode(BODY_MODE_KINEMATIC)` and the calls that copy the collision layer and mask are not made, so nothing ties the node to a kinematic record in `PhysicsServer3DStorage`.

### Character controller

- **Platform rotation.** The angular-velocity branch of apply_platform_motion does nothing in the engine, and the model has no branch for it.
- **Scene tree.** The scene tree and global transforms of nodes above a body are not modelled. A node's global transform is a field, and the physics delta (None without a scene tree) is a parameter of move_and_slide.

### 2D canvas

- **Canvas transforms.** `canvas_item_set_transform` and `canvas_layer_set_transform` (local and global transforms), `canvas_item_set_self_modulate` and `canvas_item_set_update` are not modelled. They write item attributes that nothing in the modelled render list reads.
- **Canvas pass-throughs.** The canvas server's `canvas_create`/`canvas_free` pass-throughs and the storage's `canvas_get`/`canvas_exists` getters are not modelled separately. The model uses the storage members directly.
- **Render state.** The render state is reduced to its `canvas_dirty` flag.
- **Recursion limit.** Python's recursion limit in `_collect_item` is a `depth` parameter. Exceeding it gives `RecursionError`.

### Resources and I/O

- **File and MTL reading.** Reading an OBJ file from disk, the MTL loader and the Logger are not modelled.
  - The OBJ loader takes the file's lines.
  - The MTL library is the set of material names it defines.
- **float().** Python's `float()` on a token is the `FloatParser` parameter. The model does not parse decimal floats.
- **int().** The model's `int()` accepts ASCII decimal digits only. Python also accepts other Unicode decimal digits.
- **Struct packing.**
  - The vertex-data packing of PlaneMesh and of the OBJ surface builder (`struct.pack` of eight floats per vertex) is not modelled. The model keeps the per-vertex values.
  - Index packing is modelled by its width only: PlaneMesh's u16 packing as a range check (`PlaneMeshes.PackIndices`), and the OBJ surface's choice of 16- or 32-bit indices. The bytes themselves are not modelled.
- **ObjSurface.FullVertex.** It is a plain statement about the data a key reads, with no proof work of its own.

### UI and scene

- **Range redraw.** `queue_redraw` in Range is a no-op here: drawing is out of scope.
- **Signals.** Signals are modelled as event logs on the objects that emit them: Stamina's `events` and Range's `emitted`. The Timer's `Advance` returns whether timeout fired.
- **Timer process and pause.** Timer's process hook is modelled as `Advance` with `is_paused()` as a parameter.

## Findings

| source | as written | input that shows it | evidently intended | confidence | as-written member | corrected member |
|---|---|---|---|---|---|---|
| engine/servers/physics/bodies/body_3d.py:170-182 | `self.axis_lock & PhysicsServer3DEnums.BODY_AXIS_LINEAR_X` applies `&` to the int `axis_lock` and an `enum.auto()` placeholder (the enums class is not an Enum), which raises TypeError | any non-static body: integrate_velocities raises at the first lock test | locked axes zero the matching velocity component | not executed | `Bodies.VelocitiesIntegratedAsWritten` | `Bodies.VelocitiesIntegrated` |
| engine/servers/physics/bodies/body_3d.py:165-166 | `self.biased_linear_velocity or self.linear_velocity` always picks the biased velocity, since a Vector3 is always truthy | a body with velocity (1, 0, 0) and no biased velocity moves by nothing (`Bodies.BiasedChoiceIgnoresVelocity`) | the biased velocity when it is non-zero, the plain velocity otherwise | not executed | `Bodies.ChosenVelocityAsWritten` | `Bodies.ChosenVelocity` |
| engine/servers/physics/solver/sat.py:16-42 | the separating axis test indexes a Vector3 by position, which raises TypeError | any two boxes with shape data | the 15-axis scan returns the minimum-penetration axis or no collision | not executed | `Sat.BoxVsBoxSatAsWritten` | `Sat.BoxVsBoxSat` |
| engine/math/geometry.py:42 | when the first segment is proper and the second is a point, line 42 reads a variable that no branch assigned, which raises UnboundLocalError | a segment of length 1 against a single point (`Geometry.SegmentSegmentRaisesOnPoint`); a capsule against a capsule no taller than its caps (`Capsules.CapsuleVsShortCapsuleRaises`) | clamp the parameter on the first segment and return the closest pair | not executed | `Geometry.ClosestSegmentSegmentAsWritten` | `Geometry.ClosestSegmentSegment` |
| engine/math/geometry.py:62 | closest_point_on_segment divides by `ab.dot(ab)` without a guard, which raises ZeroDivisionError | a segment whose ends coincide (`Geometry.ClosestPointOnPointSegmentRaises`); a capsule no taller than its caps against a sphere (`Capsules.ShortCapsuleVsSphereRaises`) | a degenerate segment's closest point is its end | not executed | `Geometry.ClosestPointOnSegmentAsWritten` | `Geometry.ClosestPointOnSegment` |
| engine/servers/physics/solver/gjk.py:76-84 | `temp = direction` aliases the vector, so the y and z lines read components that have already been overwritten | ab = (1, 2, 1), ao = (1, 1, 1) gives (2, -3, 7), which is not perpendicular to ab (`Gjk.LineDirectionAsWrittenIsSkewed`) | direction (ab × ao) × ab | not executed | `Gjk.LineDirectionAsWritten` | `Gjk.LineDirection` |
| engine/servers/physics/storage/body.py:31 | bodies, shapes and spaces take ids from three counters that all start at 1, and RIDs compare by id | the first body and the first shape both get id 1, and free_rid of that shape frees the body (`PhysicsServer.SeparateCountersCollide`) | handles of different kinds never coincide | not executed | `PhysicsServer.SeparateCountersCollide` | `PhysicsServer.PhysicsServer3DStorage.FreeRid` |
| engine/servers/physics/storage/body.py:110-115 | after the body joins a space, the runtime body's shapes list is the record's list, so the entry is appended to it twice | body_add_shape on a body attached to a space | each call adds the shape once | not executed | `PhysicsServer.PhysicsServer3DStorage.BodyAddShapeAsWritten` | `PhysicsServer.PhysicsServer3DStorage.BodyAddShape` |
| engine/servers/rendering/canvas/storage.py:33-35 | canvases, items and layers take ids from three counters that all start at 1, and set_parent looks a parent up among canvases first | item 2 made a child of item 1 while canvas 1 exists becomes a root of canvas 1 (`CanvasServers.SeparateCountersShadow`) | an item parent always adopts the item | not executed | `CanvasServers.SeparateCountersShadow` | `CanvasServers.ItemParentAdopts` |
| engine/servers/rendering/canvas/server.py:119-120 | set_modulate writes `modulate_r` and the other channels, attributes the render list never reads | an item set to red still draws in its parent's modulation (`CanvasServers.ModulateAsWrittenIgnored`) | the colour set reaches the item's render commands (`CanvasServers.ModulateReachesRender`) | not executed | `CanvasServers.CanvasServer.SetModulateAsWritten` | `CanvasServers.CanvasServer.SetModulate` |
