// engine/scene/three_d/physics_body_3d.py and kinematic_collision_3d.py: a body node that
// moves itself by asking the physics server's body_test_motion how far it can go.
module PhysicsBody {
  import opened Wrappers
  import opened Vectors
  import opened Bodies
  import opened Space
  import opened PhysicsServer

  /** KinematicCollision3D: what move_and_collide reports about a hit. */
  datatype KinematicCollision = KinematicCollision(
    position: Vec3, normal: Vec3, collider: Option<Body3D>, colliderRid: Option<Rid>,
    remainder: Vec3, depth: real)

  /** The physics server's body_test_motion, as seen by a node during one frame: the
      world does not change while the node queries it. */
  type MotionQuery = (Rid, MotionParameters) -> Outcome<MotionResult>

  /** Lines 43-49: every key given, and the body's own rid as the only exclusion. */
  function CollideParameters(from: Transform, motion: Vec3, margin: real, recovery: bool, rid: Rid): (p: MotionParameters)
    ensures p.from == Some(from) && p.motion == Some(motion) && p.margin == Some(margin)
    ensures p.recoveryAsCollision == Some(recovery)
    ensures p.exclude.Some? && rid in p.exclude.value && |p.exclude.value| == 1
  {
    MotionParameters(Some(from), Some(motion), Some(margin), Some([rid]), Some(recovery))
  }

  /** Lines 53-60: the collision copies the hit's point, normal, collider, remainder and
      depth. */
  function CollisionOf(r: MotionResult): (c: KinematicCollision)
    ensures c.position == r.point && c.normal == r.normal && c.remainder == r.remainder && c.depth == r.depth
    ensures c.collider == r.collider && c.colliderRid == r.colliderRid
  {
    KinematicCollision(r.point, r.normal, r.collider, r.colliderRid, r.remainder, r.depth)
  }

  /** What one move_and_collide call reports, and where it leaves the body. */
  datatype Moved = Moved(collision: Option<KinematicCollision>, transform: Transform)

  /** move_and_collide on a body at `from`: no shapes means no query and no move; a hit
      moves the body by the travel, a miss by the whole motion, unless only testing. */
  function Collide(query: MotionQuery, rid: Rid, hasShapes: bool, from: Transform, motion: Vec3, testOnly: bool,
                   margin: real, recovery: bool): (r: Outcome<Moved>)
    ensures !hasShapes ==> r == Ok(Moved(None, from))
    ensures hasShapes ==> r.Raised? == query(rid, CollideParameters(from, motion, margin, recovery, rid)).Raised?
    ensures r.Ok? && r.value.collision.Some? ==>
              var q := query(rid, CollideParameters(from, motion, margin, recovery, rid));
              hasShapes && q.Ok? && q.value.collided && r.value.collision.value == CollisionOf(q.value)
              && r.value.transform == (if testOnly then from else Translated(from, q.value.travel))
    ensures hasShapes && r.Ok? && r.value.collision.None? ==>
              r.value.transform == (if testOnly then from else Translated(from, motion))
    ensures testOnly && r.Ok? ==> r.value.transform == from
  {
    if !hasShapes then Ok(Moved(None, from))
    else
      match query(rid, CollideParameters(from, motion, margin, recovery, rid))
      case Raised(e) => Raised(e)
      case Ok(res) =>
        if res.collided then Ok(Moved(Some(CollisionOf(res)), if testOnly then from else Translated(from, res.travel)))
        else Ok(Moved(None, if testOnly then from else Translated(from, motion)))
  }

  /** PhysicsBody3D: the node's rid, its global transform (the scene tree above it is
      not modelled) and the number of shapes it owns. */
  class PhysicsBody3D {
    const rid: Rid
    var transform: Transform
    var shapeCount: nat

    constructor(rid: Rid, transform: Transform, shapeCount: nat)
      ensures this.rid == rid && this.transform == transform && this.shapeCount == shapeCount
    {
      this.rid := rid;
      this.transform := transform;
      this.shapeCount := shapeCount;
    }

    /** CollisionObject3D.has_shapes. */
    predicate HasShapes()
      reads this
    {
      shapeCount > 0
    }

    /** move_and_collide: the report and the new transform are those of Collide; an
        exception from the query leaves the body where it was. */
    method MoveAndCollide(query: MotionQuery, motion: Vec3, testOnly: bool, safeMargin: real, recovery: bool)
      returns (r: Outcome<Option<KinematicCollision>>)
      modifies this
      ensures shapeCount == old(shapeCount)
      ensures var s := Collide(query, rid, old(HasShapes()), old(transform), motion, testOnly, safeMargin, recovery);
              (s.Raised? ==> r == Raised(s.exc) && transform == old(transform))
              && (s.Ok? ==> r == Ok(s.value.collision) && transform == s.value.transform)
    {
      if !HasShapes() {
        return Ok(None);
      }
      var parameters := CollideParameters(transform, motion, safeMargin, recovery, rid);
      var result := query(rid, parameters);
      if result.Raised? {
        return Raised(result.exc);
      }
      if result.value.collided {
        var collision := CollisionOf(result.value);
        if !testOnly {
          transform := Translated(transform, result.value.travel);
        }
        return Ok(Some(collision));
      }
      if !testOnly {
        transform := Translated(transform, motion);
      }
      r := Ok(None);
    }
  }
}
