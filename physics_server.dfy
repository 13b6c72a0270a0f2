// engine/servers/physics/storage/body.py, storage/space.py, physics_server_3d_storage.py
// and physics_server_3d_software.py: the handle tables of the software physics server
// and the calls that drive its spaces. The software server adds no state of its own to
// the combined storage, so its methods sit on the same class.
module PhysicsServer {
  import opened Wrappers
  import opened Vectors
  import opened Bodies
  import opened ShapeStore
  import opened Shapes
  import opened Broadphase
  import opened Space
  import opened DictOrder
  import Areas

  /** RID.__bool__: the id 0 is the invalid handle, and None is false too. */
  predicate Truthy(rid: Option<Rid>) {
    rid.Some? && rid.value != 0
  }

  /** BodyStateEnums. */
  datatype BodyStateKind = StateTransform | StateLinearVelocity | StateAngularVelocity | StateSleeping | StateCanSleep

  /** The values body_set_state takes and body_get_state returns. */
  datatype StateValue = TransformValue(t: Transform) | VectorValue(v: Vec3) | BoolValue(b: bool) | NoneValue

  /** bool(value): Transform3D and Vector3 define no truth value, so they are true. */
  predicate TruthValue(v: StateValue) {
    match v
    case BoolValue(b) => b
    case NoneValue => false
    case _ => true
  }

  /** BodyStorage.BodyData. `shapes` is a list object that an attached runtime body
      shares. The cached axis lock 0 is the empty set of locked axes. */
  datatype BodyData = BodyData(
    mode: BodyMode,
    space: Option<Rid>,
    transform: Transform,
    shapes: ShapeList,
    collisionLayer: bv32, collisionMask: bv32,
    axisLock: set<BodyAxis>,
    linearVelocity: Vec3, angularVelocity: Vec3,
    runtime: Option<Body3D>)

  /** A new BodyData: rigid, in no space, identity transform, layer and mask 1, at rest. */
  function NewBodyData(shapes: ShapeList): (b: BodyData)
    ensures b.mode == Rigid && !Truthy(b.space) && b.runtime.None? && b.shapes == shapes
    ensures b.collisionLayer == 1 && b.collisionMask == 1 && b.linearVelocity == Zero && b.angularVelocity == Zero
  {
    BodyData(Rigid, None, IdentityTransform, shapes, 1, 1, {}, Zero, Zero, None)
  }

  /** SpaceStorage.SpaceData: the Space3D it creates, and the handles of the bodies
      and areas placed in it, which the storage updates in place. */
  class SpaceData {
    const space3d: Space3D
    var bodyRids: set<Rid>
    var areaRids: set<Rid>

    constructor(rid: Rid, store: ShapeStorage)
      ensures fresh(space3d) && fresh(space3d.broadphase)
      ensures space3d.rid == rid && space3d.shapeStorage == store && space3d.Valid()
      ensures space3d.bodies == [] && space3d.areas == [] && space3d.broadphase.entries == []
      ensures bodyRids == {} && areaRids == {}
    {
      space3d := new Space3D(rid, store);
      bodyRids := {};
      areaRids := {};
    }
  }

  /** The cached fields body_set_state writes: a transform, or one of the velocities,
      when the value has the right type; everything else leaves the record alone. */
  function CachedStateSet(b: BodyData, state: BodyStateKind, value: StateValue): (r: BodyData)
    ensures r.(transform := b.transform, linearVelocity := b.linearVelocity, angularVelocity := b.angularVelocity) == b
    ensures state == StateTransform && value.TransformValue? ==> r.transform == value.t
    ensures state == StateLinearVelocity && value.VectorValue? ==> r.linearVelocity == value.v
    ensures state == StateAngularVelocity && value.VectorValue? ==> r.angularVelocity == value.v
    ensures !(state == StateTransform && value.TransformValue?) && !(state in {StateLinearVelocity, StateAngularVelocity} && value.VectorValue?)
            ==> r == b
  {
    match state
    case StateTransform => if value.TransformValue? then b.(transform := value.t) else b
    case StateLinearVelocity => if value.VectorValue? then b.(linearVelocity := value.v) else b
    case StateAngularVelocity => if value.VectorValue? then b.(angularVelocity := value.v) else b
    case _ => b
  }

  /** The runtime fields body_set_state writes: the cached ones, and can_sleep from the
      truth value of anything given for BODY_STATE_CAN_SLEEP. */
  function RuntimeStateSet(s: BodyState, state: BodyStateKind, value: StateValue): (r: BodyState)
    ensures state == StateCanSleep ==> r == s.(canSleep := TruthValue(value))
    ensures r.(transform := s.transform, linearVelocity := s.linearVelocity, angularVelocity := s.angularVelocity,
               canSleep := s.canSleep) == s
    ensures state == StateTransform && value.TransformValue? ==> r.transform == value.t
    ensures state == StateLinearVelocity && value.VectorValue? ==> r.linearVelocity == value.v
    ensures state == StateAngularVelocity && value.VectorValue? ==> r.angularVelocity == value.v
    ensures state == StateSleeping ==> r == s
  {
    match state
    case StateTransform => if value.TransformValue? then s.(transform := value.t) else s
    case StateLinearVelocity => if value.VectorValue? then s.(linearVelocity := value.v) else s
    case StateAngularVelocity => if value.VectorValue? then s.(angularVelocity := value.v) else s
    case StateCanSleep => s.(canSleep := TruthValue(value))
    case StateSleeping => s
  }

  /** The value body_get_state reads from a transform and two velocities. */
  function StateRead(state: BodyStateKind, t: Transform, lin: Vec3, ang: Vec3): (r: Option<StateValue>)
    ensures r.None? <==> state in {StateSleeping, StateCanSleep}
  {
    match state
    case StateTransform => Some(TransformValue(t))
    case StateLinearVelocity => Some(VectorValue(lin))
    case StateAngularVelocity => Some(VectorValue(ang))
    case _ => None
  }

  /** sync_state for one record: an attached body's transform and velocities are copied back. */
  function Synced(b: BodyData): (r: BodyData)
    reads if b.runtime.Some? then {b.runtime.value} else {}
    ensures b.runtime.None? ==> r == b
    ensures b.runtime.Some? ==>
              r.transform == b.runtime.value.st.transform && r.linearVelocity == b.runtime.value.st.linearVelocity
              && r.angularVelocity == b.runtime.value.st.angularVelocity
    ensures r.(transform := b.transform, linearVelocity := b.linearVelocity, angularVelocity := b.angularVelocity) == b
  {
    if b.runtime.Some? then
      var s := b.runtime.value.st;
      b.(transform := s.transform, linearVelocity := s.linearVelocity, angularVelocity := s.angularVelocity)
    else b
  }

  // ------------------------------------------------------------------- free_rid
  /** The table free_rid frees a handle from. */
  datatype RidKind = BodyKind | ShapeKind | SpaceKind | NoKind

  /** Lines 22-36 of physics_server_3d_storage.py: bodies are tried first, then shapes,
      then spaces. */
  function FreedKind(rid: Rid, bodies: set<Rid>, shapes: set<Rid>, spaces: set<Rid>): RidKind {
    if rid in bodies then BodyKind
    else if rid in shapes then ShapeKind
    else if rid in spaces then SpaceKind
    else NoKind
  }

  /** Handle tables whose keys never meet. */
  predicate Disjoint3(bodies: set<Rid>, shapes: set<Rid>, spaces: set<Rid>) {
    bodies !! shapes && bodies !! spaces && shapes !! spaces
  }

  /** With keys that never meet, free_rid frees a handle from the table that holds it,
      whatever the dispatch order. */
  lemma DisjointTablesFreeOwnKind(rid: Rid, bodies: set<Rid>, shapes: set<Rid>, spaces: set<Rid>)
    requires Disjoint3(bodies, shapes, spaces)
    ensures FreedKind(rid, bodies, shapes, spaces) == BodyKind <==> rid in bodies
    ensures FreedKind(rid, bodies, shapes, spaces) == ShapeKind <==> rid in shapes
    ensures FreedKind(rid, bodies, shapes, spaces) == SpaceKind <==> rid in spaces
    ensures FreedKind(rid, bodies, shapes, spaces) == NoKind <==> rid !in bodies + shapes + spaces
  {
  }

  /** As written, body, shape and space ids come from three counters that all start at
      1, and RIDs compare by id: the first body, the first shape and the first space get
      the same handle, and free_rid of that shape frees the body instead. */
  method SeparateCountersCollide() returns (bodyRid: Rid, shapeRid: Rid, spaceRid: Rid)
    ensures bodyRid == 1 && shapeRid == 1 && spaceRid == 1
    ensures FreedKind(shapeRid, {bodyRid}, {shapeRid}, {spaceRid}) == BodyKind
  {
    var bodyIds := new RidCounter();
    var shapeIds := new RidCounter();
    var spaceIds := new RidCounter();
    bodyRid := bodyIds.Take();
    shapeRid := shapeIds.Take();
    spaceRid := spaceIds.Take();
  }

  // ------------------------------------------------------- table invariants
  /** Every handle of a table lies below the counter's next id. */
  predicate IdsBelow(keys: set<Rid>, next: nat) {
    forall r :: r in keys ==> r < next
  }

  /** The runtime bodies held by the spaces of a table. */
  ghost function BodiesOf(spaces: map<Rid, SpaceData>, owner: set<Space3D>): set<Body3D>
    reads owner
  {
    set r, b | r in spaces && spaces[r].space3d in owner && b in spaces[r].space3d.bodies :: b
  }

  /** The Space3D objects of the spaces order names, in that order. */
  function SpacesAt(spaces: map<Rid, SpaceData>, order: seq<Rid>): (xs: seq<Space3D>)
    requires forall i :: 0 <= i < |order| ==> order[i] in spaces
    ensures |xs| == |order| && forall i :: 0 <= i < |order| ==> xs[i] == spaces[order[i]].space3d
  {
    seq(|order|, i requires 0 <= i < |order| => spaces[order[i]].space3d)
  }

  /** The spaces of a table whose handles are in active. */
  function ActiveOf(spaces: map<Rid, SpaceData>, active: set<Rid>): (sub: map<Rid, SpaceData>)
    ensures forall q :: q in sub <==> q in spaces && q in active
    ensures forall q :: q in sub ==> sub[q] == spaces[q]
  {
    map q | q in spaces && q in active :: spaces[q]
  }

  /** The broadphases of the spaces of a table. */
  function BroadphasesOf(spaces: map<Rid, SpaceData>): set<Broadphase3D> {
    set q | q in spaces :: spaces[q].space3d.broadphase
  }

  /** What stepping the spaces order names in turn may change lies among the bodies
      and broadphases of the active spaces, when order lists active spaces only. */
  lemma ListedWithin(spaces: map<Rid, SpaceData>, active: set<Rid>, owner: set<Space3D>, order: seq<Rid>)
    requires forall q :: q in order ==> q in spaces && q in active && spaces[q].space3d in owner
    ensures forall i :: 0 <= i < |order| ==> order[i] in spaces
    ensures BodiesFrom(SpacesAt(spaces, order), 0) <= BodiesOf(ActiveOf(spaces, active), owner)
    ensures BroadphasesFrom(SpacesAt(spaces, order), 0) <= BroadphasesOf(ActiveOf(spaces, active))
  {
    assert forall i :: 0 <= i < |order| ==> order[i] in order;
    var xs := SpacesAt(spaces, order);
    forall b | b in BodiesFrom(xs, 0)
      ensures b in BodiesOf(ActiveOf(spaces, active), owner)
    {
      var i :| 0 <= i < |xs| && b in xs[i].bodies;
      assert order[i] in ActiveOf(spaces, active);
    }
    forall p | p in BroadphasesFrom(xs, 0)
      ensures p in BroadphasesOf(ActiveOf(spaces, active))
    {
      var i :| 0 <= i < |xs| && p == xs[i].broadphase;
      assert order[i] in ActiveOf(spaces, active);
    }
  }

  /** The snapshots in sns of the spaces order names, in that order. */
  function SnapsAt(sns: map<Rid, SpaceSnap>, order: seq<Rid>): (ss: seq<SpaceSnap>)
    requires forall i :: 0 <= i < |order| ==> order[i] in sns
    ensures |ss| == |order| && forall i :: 0 <= i < |order| ==> ss[i] == sns[order[i]]
  {
    seq(|order|, i requires 0 <= i < |order| => sns[order[i]])
  }

  /** list(s): the elements of a set, each once, in an order the set does not fix. */
  method ListOf(s: set<Rid>) returns (order: seq<Rid>)
    ensures Distinct(order) && forall q :: q in order <==> q in s
  {
    order := [];
    var left := s;
    while left != {}
      invariant left <= s && Distinct(order)
      invariant forall q :: q in order <==> q in s && q !in left
      decreases |left|
    {
      var q :| q in left;
      order, left := order + [q], left - {q};
    }
  }

  /** A sound Space3D over the given shape storage. */
  ghost predicate SpaceOk(sd: SpaceData, store: ShapeStorage)
    reads sd.space3d, sd.space3d.broadphase
  {
    sd.space3d.Valid() && sd.space3d.shapeStorage == store
  }

  /** Each space has a Space3D and a broadphase of its own (and so a record of its own):
      the two maps send each of them back to the handle of its space. */
  predicate Owned(spaces: map<Rid, SpaceData>, owner: map<Space3D, Rid>, bpOwner: map<Broadphase3D, Rid>)
  {
    forall r :: r in spaces ==>
      spaces[r].space3d in owner && owner[spaces[r].space3d] == r
      && spaces[r].space3d.broadphase in bpOwner && bpOwner[spaces[r].space3d.broadphase] == r
  }

  /** No runtime body is held by two spaces of a table. */
  ghost predicate BodiesApart(spaces: map<Rid, SpaceData>, owner: set<Space3D>)
    reads owner
  {
    forall q1, q2, b :: q1 in spaces && q2 in spaces && spaces[q1].space3d in owner && spaces[q2].space3d in owner && b in spaces[q1].space3d.bodies && b in spaces[q2].space3d.bodies ==> q1 == q2
  }

  /** A new space with no bodies keeps the bodies of a table apart. */
  lemma ApartAdded(spaces: map<Rid, SpaceData>, owner: set<Space3D>, rid: Rid, sd: SpaceData)
    requires BodiesApart(spaces, owner) && rid !in spaces && sd.space3d.bodies == []
    ensures BodiesApart(spaces[rid := sd], owner + {sd.space3d})
  {
  }

  /** The spaces of an owned table whose bodies lie apart, listed without repeats, are
      apart as Space3D objects. */
  lemma SpacesAtApart(spaces: map<Rid, SpaceData>, owner: map<Space3D, Rid>, bpOwner: map<Broadphase3D, Rid>,
                      order: seq<Rid>)
    requires Owned(spaces, owner, bpOwner) && BodiesApart(spaces, owner.Keys)
    requires Distinct(order) && forall i :: 0 <= i < |order| ==> order[i] in spaces
    ensures Apart(SpacesAt(spaces, order))
  {
    var xs := SpacesAt(spaces, order);
    forall i, j | 0 <= i < j < |xs|
      ensures xs[i] != xs[j] && xs[i].broadphase != xs[j].broadphase
      ensures forall b :: b in xs[i].bodies ==> b !in xs[j].bodies
    {
      assert order[i] != order[j];
    }
  }

  /** Every space of a table is sound. */
  ghost predicate SpacesOk(spaces: map<Rid, SpaceData>, store: ShapeStorage, owner: map<Space3D, Rid>,
                           bpOwner: map<Broadphase3D, Rid>)
    reads owner.Keys, bpOwner.Keys
  {
    forall r {:trigger SpaceOk(spaces[r], store)} :: r in spaces ==>
      spaces[r].space3d in owner && spaces[r].space3d.broadphase in bpOwner && SpaceOk(spaces[r], store)
  }

  /** A new space with parts of its own extends a sound, owned table. */
  lemma SpaceAdded(spaces: map<Rid, SpaceData>, store: ShapeStorage, owner: map<Space3D, Rid>,
                   bpOwner: map<Broadphase3D, Rid>, rid: Rid, sd: SpaceData)
    requires Owned(spaces, owner, bpOwner) && SpacesOk(spaces, store, owner, bpOwner)
    requires rid !in spaces && sd.space3d !in owner && sd.space3d.broadphase !in bpOwner
    requires SpaceOk(sd, store)
    ensures Owned(spaces[rid := sd], owner[sd.space3d := rid], bpOwner[sd.space3d.broadphase := rid])
    ensures SpacesOk(spaces[rid := sd], store, owner[sd.space3d := rid], bpOwner[sd.space3d.broadphase := rid])
  {
    var sp := spaces[rid := sd];
    forall r | r in sp
      ensures SpaceOk(sp[r], store)
    {
      if r != rid {
        assert SpaceOk(spaces[r], store);
      }
    }
  }

  /** A record that differs from another at most in its space and runtime body. */
  predicate CacheKept(b: BodyData, was: BodyData) {
    b.(space := was.space, runtime := was.runtime) == was
  }

  /** Lines 68-75: the runtime body of a record, as it is created; the shape list is
      the record's own, not a copy. */
  function Attached(b: BodyData): (st: BodyState)
    ensures st.mode == b.mode && st.transform == b.transform && st.shapes == b.shapes
    ensures st.collisionLayer == b.collisionLayer && st.collisionMask == b.collisionMask
    ensures st.linearVelocity == b.linearVelocity && st.angularVelocity == b.angularVelocity && st.axisLock == b.axisLock
  {
    BodyState(b.mode, b.transform, b.linearVelocity, b.angularVelocity, Zero, Zero, 1.0, Vec3(1.0, 1.0, 1.0), 1.0,
              Zero, 0.0, 0.0, Zero, Zero, [], b.collisionLayer, b.collisionMask, b.shapes, false, b.axisLock, true)
  }

  /** Lines 68-75: a fresh runtime body for the record. */
  method NewRuntime(body: Rid, b: BodyData) returns (rt: Body3D)
    ensures fresh(rt) && rt.rid == body && rt.st == Attached(b)
  {
    rt := new Body3D(body, b.mode);
    rt.st := Attached(b);
  }

  // --------------------------------------------------------------- the storage
  /** PhysicsServer3DStorage, with the software server's calls. Every id is drawn from
      one counter shared by the three tables, so no two tables share a key. */
  class PhysicsServer3DStorage {
    var bodies: map<Rid, BodyData>
    const shapeStore: ShapeStorage
    var spaces: map<Rid, SpaceData>
    var activeSpaces: set<Rid>
    const ids: RidCounter
    /** The space each Space3D and broadphase belongs to. */
    ghost var Owner: map<Space3D, Rid>
    ghost var BroadphaseOwner: map<Broadphase3D, Rid>

    /** Every id in use was drawn from the shared counter, no two tables share one, and
        every space is sound and owns its parts. */
    ghost predicate Valid()
      reads this, ids, shapeStore, Owner.Keys, BroadphaseOwner.Keys
    {
      shapeStore.ids == ids && ids.next > 0
      && IdsBelow(bodies.Keys, ids.next) && IdsBelow(shapeStore.shapes.Keys, ids.next) && IdsBelow(spaces.Keys, ids.next)
      && Disjoint3(bodies.Keys, shapeStore.shapes.Keys, spaces.Keys)
      && Owned(spaces, Owner, BroadphaseOwner)
      && SpacesOk(spaces, shapeStore, Owner, BroadphaseOwner)
      && BodiesApart(spaces, Owner.Keys)
    }

    /** Valid but for the soundness of each space, which reads the space's broadphase. */
    ghost predicate TableValid()
      reads this, ids, shapeStore, Owner.Keys
    {
      shapeStore.ids == ids && ids.next > 0
      && IdsBelow(bodies.Keys, ids.next) && IdsBelow(shapeStore.shapes.Keys, ids.next) && IdsBelow(spaces.Keys, ids.next)
      && Disjoint3(bodies.Keys, shapeStore.shapes.Keys, spaces.Keys)
      && Owned(spaces, Owner, BroadphaseOwner)
      && BodiesApart(spaces, Owner.Keys)
    }

    constructor()
      ensures Valid()
      ensures bodies == map[] && spaces == map[] && activeSpaces == {} && shapeStore.shapes == map[]
      ensures fresh(ids) && fresh(shapeStore) && ids.next == 1
    {
      var counter := new RidCounter();
      ids := counter;
      shapeStore := new ShapeStorage(counter);
      bodies := map[];
      spaces := map[];
      activeSpaces := {};
      Owner := map[];
      BroadphaseOwner := map[];
    }

    // ------------------------------------------------------------ body storage
    /** body_create: a fresh id and a default record with a new, empty shape list. */
    method BodyCreate() returns (rid: Rid)
      requires Valid()
      modifies this, ids
      ensures Valid()
      ensures rid == old(ids.next) && ids.next == rid + 1 && rid > 0
      ensures rid !in old(bodies) && rid !in shapeStore.shapes && rid !in spaces
      ensures rid in bodies && bodies == old(bodies)[rid := NewBodyData(bodies[rid].shapes)]
      ensures fresh(bodies[rid].shapes) && bodies[rid].shapes.items == []
      ensures spaces == old(spaces) && activeSpaces == old(activeSpaces)
    {
      rid := ids.Take();
      var shapes := new ShapeList();
      bodies := bodies[rid := NewBodyData(shapes)];
    }

    /** body_set_space: an unknown body changes nothing. A body in a known space first
        leaves it (its runtime body is dropped); then the new space is recorded, and a
        known new space gets a fresh runtime body that copies the record, shares its
        shape list and is added to the Space3D (which may raise while boxing it). */
    method BodySetSpace(body: Rid, space: Rid) returns (r: Outcome<()>)
      requires Valid()
      modifies this, spaces.Values, Owner.Keys, BroadphaseOwner.Keys
      ensures Valid()
      ensures spaces == old(spaces) && activeSpaces == old(activeSpaces) && bodies.Keys == old(bodies.Keys)
      ensures body !in old(bodies) ==> bodies == old(bodies) && r == Ok(())
      ensures forall q :: q in bodies && q != body ==> bodies[q] == old(bodies)[q]
      ensures body in old(bodies) ==> bodies[body].space == Some(space) && CacheKept(bodies[body], old(bodies)[body])
      ensures body in old(bodies) && old(InKnownSpace(bodies[body])) && old(bodies)[body].space.value != space ==>
                var from := old(bodies)[body].space.value;
                spaces[from].bodyRids == old(spaces[from].bodyRids) - {body} && !HasBody(spaces[from].space3d.bodies, body)
      ensures body in old(bodies) && Joins(space) ==>
                spaces[space].bodyRids == old(spaces[space].bodyRids) + {body}
                && bodies[body].runtime.Some? && fresh(bodies[body].runtime.value)
                && bodies[body].runtime.value.rid == body
                && bodies[body].runtime.value.st == Attached(old(bodies)[body])
                && HasBody(spaces[space].space3d.bodies, body)
      ensures body in old(bodies) && !Joins(space) ==>
                r == Ok(()) && bodies[body].runtime == if old(InKnownSpace(bodies[body])) then None else old(bodies)[body].runtime
      ensures body in old(bodies) ==>
                forall q :: q in spaces && q != space && !(old(InKnownSpace(bodies[body])) && q == old(bodies)[body].space.value)
                  ==> spaces[q].bodyRids == old(spaces[q].bodyRids)
    {
      if body !in bodies {
        return Ok(());
      }
      Relocate(body, space);
      if Joins(space) {
        r := Attach(body, space);
      } else {
        r := Ok(());
      }
    }

    /** Lines 50-59: the body leaves a known old space (losing its runtime body) and
        records the new space handle. */
    method Relocate(body: Rid, space: Rid)
      requires Valid() && body in bodies
      modifies this, spaces.Values, Owner.Keys, BroadphaseOwner.Keys
      ensures Valid()
      ensures spaces == old(spaces) && activeSpaces == old(activeSpaces)
      ensures Owner == old(Owner) && BroadphaseOwner == old(BroadphaseOwner)
      ensures bodies.Keys == old(bodies.Keys)
      ensures bodies == old(bodies)[body := old(bodies)[body].(space := Some(space),
                runtime := if old(InKnownSpace(bodies[body])) then None else old(bodies)[body].runtime)]
      ensures old(InKnownSpace(bodies[body])) ==>
                var from := old(bodies)[body].space.value;
                spaces[from].bodyRids == old(spaces[from].bodyRids) - {body}
                && !HasBody(spaces[from].space3d.bodies, body)
                && forall q :: q in spaces && q != from ==> spaces[q].bodyRids == old(spaces[q].bodyRids)
      ensures !old(InKnownSpace(bodies[body])) ==> forall q :: q in spaces ==> spaces[q].bodyRids == old(spaces[q].bodyRids)
    {
      var b := bodies[body];
      var left := InKnownSpace(b);
      if left {
        LeaveSpace(b.space.value, body);
      }
      bodies := bodies[body := b.(space := Some(space), runtime := if left then None else b.runtime)];
    }

    /** A space handle that is true and names a space of the table. */
    predicate Joins(space: Rid)
      reads this
    {
      space != 0 && space in spaces
    }

    /** A record that names a space of the table. */
    predicate InKnownSpace(b: BodyData)
      reads this
    {
      Truthy(b.space) && b.space.value in spaces
    }

    /** Lines 52-55: the body leaves one space's membership and its Space3D; the other
        spaces keep theirs. */
    method LeaveSpace(x: Rid, body: Rid)
      requires Valid() && x in spaces
      modifies spaces[x], spaces[x].space3d, spaces[x].space3d.broadphase
      ensures Valid()
      ensures spaces[x].bodyRids == old(spaces[x].bodyRids) - {body}
      ensures !HasBody(spaces[x].space3d.bodies, body)
      ensures forall q :: q in spaces && q != x ==> spaces[q].bodyRids == old(spaces[q].bodyRids)
    {
      assert SpaceOk(spaces[x], shapeStore);
      var sd := spaces[x];
      sd.bodyRids := sd.bodyRids - {body};
      sd.space3d.RemoveBody(body);
    }

    /** Lines 61-78: a fresh runtime body copies the record, joins the membership and
        is added to the Space3D. */
    method Attach(body: Rid, space: Rid) returns (r: Outcome<()>)
      requires Valid() && body in bodies && space in spaces
      modifies this, spaces.Values, Owner.Keys, BroadphaseOwner.Keys
      ensures Valid()
      ensures spaces == old(spaces) && activeSpaces == old(activeSpaces)
      ensures spaces[space].bodyRids == old(spaces[space].bodyRids) + {body}
      ensures forall q :: q in spaces && q != space ==>
                spaces[q].bodyRids == old(spaces[q].bodyRids) && spaces[q].space3d.bodies == old(spaces[q].space3d.bodies)
      ensures bodies.Keys == old(bodies.Keys) && bodies[body].runtime.Some?
      ensures bodies == old(bodies)[body := old(bodies)[body].(runtime := bodies[body].runtime)]
      ensures fresh(bodies[body].runtime.value) && bodies[body].runtime.value.rid == body
      ensures bodies[body].runtime.value.st == Attached(old(bodies)[body])
      ensures HasBody(spaces[space].space3d.bodies, body)
      ensures r.Raised? ==> BodyAabb(bodies[body].transform, bodies[body].shapes.items, shapeStore.shapes).Raised?
    {
      var b := bodies[body];
      var rt;
      rt, r := JoinSpace(space, body, b);
      SetRecord(body, b.(runtime := Some(rt)));
    }

    /** Lines 63-78: a runtime body built from the record joins one space's membership
        and its Space3D; the other spaces keep theirs. */
    method JoinSpace(x: Rid, body: Rid, b: BodyData) returns (rt: Body3D, r: Outcome<()>)
      requires Valid() && x in spaces
      modifies spaces[x], spaces[x].space3d, spaces[x].space3d.broadphase
      ensures Valid()
      ensures fresh(rt) && rt.rid == body && rt.st == Attached(b)
      ensures spaces[x].bodyRids == old(spaces[x].bodyRids) + {body}
      ensures HasBody(spaces[x].space3d.bodies, body)
      ensures forall q :: q in spaces && q != x ==>
                spaces[q].bodyRids == old(spaces[q].bodyRids) && spaces[q].space3d.bodies == old(spaces[q].space3d.bodies)
      ensures r.Raised? ==> BodyAabb(b.transform, b.shapes.items, shapeStore.shapes).Raised?
    {
      rt := NewRuntime(body, b);
      r := AddTo(x, rt);
    }

    /** Lines 63, 65 and 78: a body held by no space joins the membership of space x and
        its Space3D; the other spaces keep theirs. */
    method AddTo(x: Rid, rt: Body3D) returns (r: Outcome<()>)
      requires Valid() && x in spaces
      requires forall q :: q in spaces ==> rt !in spaces[q].space3d.bodies
      modifies spaces[x], spaces[x].space3d, spaces[x].space3d.broadphase
      ensures Valid()
      ensures spaces[x].bodyRids == old(spaces[x].bodyRids) + {rt.rid}
      ensures HasBody(spaces[x].space3d.bodies, rt.rid)
      ensures forall q :: q in spaces && q != x ==>
                spaces[q].bodyRids == old(spaces[q].bodyRids) && spaces[q].space3d.bodies == old(spaces[q].space3d.bodies)
      ensures r.Raised? ==> BodyAabb(rt.st.transform, rt.st.shapes.items, shapeStore.shapes).Raised?
    {
      var sd := spaces[x];
      sd.bodyRids := sd.bodyRids + {rt.rid};
      assert SpaceOk(spaces[x], shapeStore);
      var s := spaces[x].space3d;
      forall q | q in spaces && q != x
        ensures spaces[q].space3d != s && spaces[q].space3d.broadphase != s.broadphase
      {
        assert Owner[spaces[q].space3d] == q && BroadphaseOwner[spaces[q].space3d.broadphase] == q;
      }
      r := s.AddBody(rt);
      if !HasBody(old(s.bodies), rt.rid) {
        assert s.bodies[|s.bodies| - 1] == rt;
      }
      forall q1, q2, c | q1 in spaces && q2 in spaces && c in spaces[q1].space3d.bodies && c in spaces[q2].space3d.bodies
        ensures q1 == q2
      {
        if q1 != x || q2 != x {
          assert c != rt;
        }
      }
    }

    /** One known record replaced; the table keeps its keys, so the storage stays sound. */
    method SetRecord(body: Rid, nb: BodyData)
      requires Valid() && body in bodies
      modifies this
      ensures Valid()
      ensures bodies == old(bodies)[body := nb]
      ensures spaces == old(spaces) && activeSpaces == old(activeSpaces)
    {
      bodies := bodies[body := nb];
    }

    /** body_set_mode: the record's mode, and an attached body's set_mode. */
    method BodySetMode(body: Rid, mode: BodyMode)
      requires Valid()
      modifies this, if body in bodies && bodies[body].runtime.Some? then {bodies[body].runtime.value} else {}
      ensures Valid()
      ensures bodies == if body in old(bodies) then old(bodies)[body := old(bodies)[body].(mode := mode)] else old(bodies)
      ensures body in bodies && bodies[body].runtime.Some? ==>
                bodies[body].runtime.value.st == ModeSet(old(bodies[body].runtime.value.st), mode)
      ensures spaces == old(spaces) && activeSpaces == old(activeSpaces)
    {
      if body in bodies {
        var b := bodies[body];
        SetRecord(body, b.(mode := mode));
        if b.runtime.Some? {
          b.runtime.value.SetMode(mode);
        }
      }
    }

    /** body_set_collision_layer: the record only, never an attached body. */
    method BodySetCollisionLayer(body: Rid, layer: bv32)
      requires Valid()
      modifies this
      ensures Valid()
      ensures bodies == if body in old(bodies) then old(bodies)[body := old(bodies)[body].(collisionLayer := layer)] else old(bodies)
      ensures spaces == old(spaces) && activeSpaces == old(activeSpaces)
    {
      if body in bodies {
        bodies := bodies[body := bodies[body].(collisionLayer := layer)];
      }
    }

    /** body_set_collision_mask: the record only, never an attached body. */
    method BodySetCollisionMask(body: Rid, mask: bv32)
      requires Valid()
      modifies this
      ensures Valid()
      ensures bodies == if body in old(bodies) then old(bodies)[body := old(bodies)[body].(collisionMask := mask)] else old(bodies)
      ensures spaces == old(spaces) && activeSpaces == old(activeSpaces)
    {
      if body in bodies {
        bodies := bodies[body := bodies[body].(collisionMask := mask)];
      }
    }

    /** body_add_shape, as intended: the entry is appended once to the list that the
        record and an attached runtime body share. */
    method BodyAddShape(body: Rid, shape: Rid, transform: Option<Transform>, disabled: bool)
      modifies if body in bodies then {bodies[body].shapes} else {}
      ensures body in bodies ==>
                bodies[body].shapes.items
                == old(bodies[body].shapes.items) + [ShapeInfo(shape, transform.GetOr(IdentityTransform), disabled)]
    {
      if body in bodies {
        bodies[body].shapes.Append(ShapeInfo(shape, transform.GetOr(IdentityTransform), disabled));
      }
    }

    /** body_add_shape as written (lines 110-115): the entry is appended to the record's
        list and then to the runtime body's list, which is the same list once the body
        is attached, so the entry appears twice. */
    method BodyAddShapeAsWritten(body: Rid, shape: Rid, transform: Option<Transform>, disabled: bool)
      modifies if body in bodies then {bodies[body].shapes} else {}
      modifies if body in bodies && bodies[body].runtime.Some? then {bodies[body].runtime.value.st.shapes} else {}
      ensures body in bodies && bodies[body].runtime.Some? && bodies[body].runtime.value.st.shapes == bodies[body].shapes ==>
                var info := ShapeInfo(shape, transform.GetOr(IdentityTransform), disabled);
                bodies[body].shapes.items == old(bodies[body].shapes.items) + [info, info]
    {
      if body !in bodies {
        return;
      }
      var info := ShapeInfo(shape, transform.GetOr(IdentityTransform), disabled);
      var b := bodies[body];
      b.shapes.Append(info);
      if b.runtime.Some? {
        b.runtime.value.st.shapes.Append(info);
      }
    }

    /** body_set_state: values of the wrong type are ignored; an attached body gets the
        same update, and can_sleep only ever reaches the runtime body. */
    method BodySetState(body: Rid, state: BodyStateKind, value: StateValue)
      requires Valid()
      modifies this, if body in bodies && bodies[body].runtime.Some? then {bodies[body].runtime.value} else {}
      ensures Valid()
      ensures bodies == if body in old(bodies) then old(bodies)[body := CachedStateSet(old(bodies)[body], state, value)]
                        else old(bodies)
      ensures body in bodies && bodies[body].runtime.Some? ==>
                bodies[body].runtime.value.st == RuntimeStateSet(old(bodies[body].runtime.value.st), state, value)
      ensures body in bodies && ((state == StateTransform && value.TransformValue?)
                                 || (state in {StateLinearVelocity, StateAngularVelocity} && value.VectorValue?)) ==>
                BodyGetState(body, state) == Some(value)
      ensures spaces == old(spaces) && activeSpaces == old(activeSpaces)
    {
      if body !in bodies {
        return;
      }
      var b := bodies[body];
      SetRecord(body, CachedStateSet(b, state, value));
      if b.runtime.Some? {
        var rt := b.runtime.value;
        rt.st := RuntimeStateSet(rt.st, state, value);
      }
    }

    /** body_get_state: None for an unknown body; an attached body's transform and
        velocities are read from the runtime body, otherwise from the record. */
    function BodyGetState(body: Rid, state: BodyStateKind): (r: Option<StateValue>)
      reads this, if body in bodies && bodies[body].runtime.Some? then {bodies[body].runtime.value} else {}
      ensures body !in bodies ==> r.None?
      ensures state in {StateSleeping, StateCanSleep} ==> r.None?
      ensures body in bodies && bodies[body].runtime.Some? ==>
                var s := bodies[body].runtime.value.st;
                r == StateRead(state, s.transform, s.linearVelocity, s.angularVelocity)
      ensures body in bodies && bodies[body].runtime.None? ==>
                var b := bodies[body];
                r == StateRead(state, b.transform, b.linearVelocity, b.angularVelocity)
    {
      if body !in bodies then None
      else
        var b := bodies[body];
        if b.runtime.Some? && state in {StateTransform, StateLinearVelocity, StateAngularVelocity} then
          var s := b.runtime.value.st;
          StateRead(state, s.transform, s.linearVelocity, s.angularVelocity)
        else StateRead(state, b.transform, b.linearVelocity, b.angularVelocity)
    }

    /** _get_runtime_body. */
    function GetRuntimeBody(body: Rid): (r: Option<Body3D>)
      reads this
      ensures body !in bodies ==> r.None?
      ensures body in bodies ==> r == bodies[body].runtime
    {
      if body in bodies then bodies[body].runtime else None
    }

    // ----------------------------------------------------------- shape storage
    /** shape_create through the shared counter. */
    method ShapeCreate(kind: ShapeType) returns (rid: Rid)
      requires Valid()
      modifies shapeStore, ids
      ensures Valid()
      ensures rid == old(ids.next) && rid > 0 && rid !in bodies && rid !in spaces && rid !in old(shapeStore.shapes)
      ensures shapeStore.shapes == old(shapeStore.shapes)[rid := ShapeRecord(kind, None)]
    {
      rid := shapeStore.ShapeCreate(kind);
    }

    // ----------------------------------------------------------- space storage
    /** space_create: a fresh id and an empty Space3D over this storage's shapes. */
    method SpaceCreate() returns (rid: Rid)
      requires Valid()
      modifies this, ids
      ensures Valid()
      ensures rid == old(ids.next) && ids.next == rid + 1 && rid > 0
      ensures rid !in old(spaces) && rid !in bodies && rid !in shapeStore.shapes
      ensures rid in spaces && spaces == old(spaces)[rid := spaces[rid]] && fresh(spaces[rid])
      ensures var s := spaces[rid].space3d;
              fresh(s) && s.rid == rid && s.shapeStorage == shapeStore
              && s.bodies == [] && s.areas == [] && s.broadphase.entries == []
      ensures spaces[rid].bodyRids == {} && spaces[rid].areaRids == {}
      ensures bodies == old(bodies) && activeSpaces == old(activeSpaces)
    {
      var sd := new SpaceData(ids.next, shapeStore);
      rid := Register(sd);
    }

    /** Draws the handle a new space record was built for and enters the record in the
        table. */
    method Register(sd: SpaceData) returns (rid: Rid)
      requires Valid() && sd.space3d.rid == ids.next && SpaceOk(sd, shapeStore)
      requires sd.space3d !in Owner && sd.space3d.broadphase !in BroadphaseOwner && sd.space3d.bodies == []
      modifies this, ids
      ensures Valid()
      ensures rid == old(ids.next) && ids.next == rid + 1
      ensures rid !in old(spaces) && rid !in bodies && rid !in shapeStore.shapes
      ensures spaces == old(spaces)[rid := sd]
      ensures bodies == old(bodies) && activeSpaces == old(activeSpaces)
    {
      rid := ids.Take();
      Enter(rid, sd);
    }

    /** Enters a space record under a handle just drawn. */
    method Enter(rid: Rid, sd: SpaceData)
      requires Valid() && rid + 1 == ids.next && rid !in spaces && rid !in bodies && rid !in shapeStore.shapes
      requires SpaceOk(sd, shapeStore) && sd.space3d !in Owner && sd.space3d.broadphase !in BroadphaseOwner
      requires sd.space3d.bodies == []
      modifies this
      ensures Valid()
      ensures spaces == old(spaces)[rid := sd]
      ensures bodies == old(bodies) && activeSpaces == old(activeSpaces)
    {
      SpaceAdded(spaces, shapeStore, Owner, BroadphaseOwner, rid, sd);
      ApartAdded(spaces, Owner.Keys, rid, sd);
      spaces, Owner, BroadphaseOwner := spaces[rid := sd], Owner[sd.space3d := rid], BroadphaseOwner[sd.space3d.broadphase := rid];
    }

    /** space_set_active: an unknown space changes nothing. */
    method SpaceSetActive(space: Rid, active: bool)
      requires Valid()
      modifies this
      ensures Valid()
      ensures activeSpaces == if space !in spaces then old(activeSpaces)
                              else if active then old(activeSpaces) + {space} else old(activeSpaces) - {space}
      ensures old(activeSpaces) <= old(spaces.Keys) ==> activeSpaces <= spaces.Keys
      ensures bodies == old(bodies) && spaces == old(spaces)
    {
      if space !in spaces {
        return;
      }
      if active {
        activeSpaces := activeSpaces + {space};
      } else {
        activeSpaces := activeSpaces - {space};
      }
    }

    /** _get_space_3d, and space_get_direct_state up to the query object it wraps
        around the Space3D: None for an unknown space. */
    function GetSpace3D(space: Rid): (r: Option<Space3D>)
      reads this
      ensures space !in spaces ==> r.None?
      ensures space in spaces ==> r == Some(spaces[space].space3d)
    {
      if space in spaces then Some(spaces[space].space3d) else None
    }

    /** _free_space: the Space3D is emptied, then the space leaves the table and the
        active set. An unknown space changes nothing. */
    method FreeSpace(space: Rid)
      requires Valid()
      modifies this, Owner.Keys, BroadphaseOwner.Keys
      ensures Valid()
      ensures space in old(spaces) ==>
                var s := old(spaces)[space].space3d;
                s.bodies == [] && s.areas == [] && s.broadphase.entries == []
      ensures activeSpaces == if space in old(spaces) then old(activeSpaces) - {space} else old(activeSpaces)
      ensures spaces == old(spaces) - {space} && bodies == old(bodies)
      ensures forall q :: q in spaces ==>
                spaces[q].space3d.bodies == old(spaces[q].space3d.bodies)
                && spaces[q].space3d.broadphase.entries == old(spaces[q].space3d.broadphase.entries)
    {
      if space in spaces {
        EmptySpace(space);
        spaces, activeSpaces := spaces - {space}, activeSpaces - {space};
      }
    }

    /** Lines 51-53: the Space3D's bodies, areas and broadphase are cleared. */
    method EmptySpace(x: Rid)
      requires Valid() && x in spaces
      modifies spaces[x].space3d, spaces[x].space3d.broadphase
      ensures Valid()
      ensures spaces[x].space3d.bodies == [] && spaces[x].space3d.areas == [] && spaces[x].space3d.broadphase.entries == []
    {
      assert SpaceOk(spaces[x], shapeStore);
      var s := spaces[x].space3d;
      s.bodies := [];
      s.areas := [];
      s.broadphase.Clear();
      assert SpaceOk(spaces[x], shapeStore);
    }

    /** free_rid: a body leaves its space's membership and its Space3D, then the table
        (its shapes stay); else a shape is freed; else a space. The handle is then in no
        table. */
    method FreeRid(rid: Rid)
      requires Valid()
      modifies this, shapeStore, spaces.Values, Owner.Keys, BroadphaseOwner.Keys
      ensures Valid()
      ensures rid !in bodies && rid !in shapeStore.shapes && rid !in spaces
      ensures FreedKind(rid, old(bodies.Keys), old(shapeStore.shapes.Keys), old(spaces.Keys)) == BodyKind ==>
                bodies == old(bodies) - {rid} && shapeStore.shapes == old(shapeStore.shapes)
                && spaces == old(spaces) && activeSpaces == old(activeSpaces)
      ensures FreedKind(rid, old(bodies.Keys), old(shapeStore.shapes.Keys), old(spaces.Keys)) == BodyKind
              && old(InKnownSpace(bodies[rid])) ==>
                var from := old(bodies)[rid].space.value;
                spaces[from].bodyRids == old(spaces[from].bodyRids) - {rid} && !HasBody(spaces[from].space3d.bodies, rid)
      ensures FreedKind(rid, old(bodies.Keys), old(shapeStore.shapes.Keys), old(spaces.Keys)) == ShapeKind ==>
                bodies == old(bodies) && shapeStore.shapes == old(shapeStore.shapes) - {rid} && spaces == old(spaces)
      ensures FreedKind(rid, old(bodies.Keys), old(shapeStore.shapes.Keys), old(spaces.Keys)) == SpaceKind ==>
                bodies == old(bodies) && shapeStore.shapes == old(shapeStore.shapes) && spaces == old(spaces) - {rid}
                && activeSpaces == old(activeSpaces) - {rid}
      ensures FreedKind(rid, old(bodies.Keys), old(shapeStore.shapes.Keys), old(spaces.Keys)) == NoKind ==>
                bodies == old(bodies) && shapeStore.shapes == old(shapeStore.shapes) && spaces == old(spaces)
                && activeSpaces == old(activeSpaces)
    {
      DisjointTablesFreeOwnKind(rid, bodies.Keys, shapeStore.shapes.Keys, spaces.Keys);
      if rid in bodies {
        FreeBody(rid);
      } else if rid in shapeStore.shapes {
        shapeStore.FreeShape(rid);
      } else if rid in spaces {
        FreeSpace(rid);
      }
    }

    /** Lines 23-30: a body leaves a known space's membership and its Space3D, then its
        record is deleted; its shapes stay in the shape table. */
    method FreeBody(rid: Rid)
      requires Valid() && rid in bodies
      modifies this, spaces.Values, Owner.Keys, BroadphaseOwner.Keys
      ensures Valid()
      ensures bodies == old(bodies) - {rid} && spaces == old(spaces) && activeSpaces == old(activeSpaces)
      ensures old(InKnownSpace(bodies[rid])) ==>
                var from := old(bodies)[rid].space.value;
                spaces[from].bodyRids == old(spaces[from].bodyRids) - {rid} && !HasBody(spaces[from].space3d.bodies, rid)
    {
      var b := bodies[rid];
      if InKnownSpace(b) {
        LeaveSpace(b.space.value, rid);
      }
      bodies := bodies - {rid};
    }

    // ------------------------------------------------------ the software server
    /** physics_server_3d_software.body_test_motion: an unknown body reports the default
        result (no travel, the whole motion left); a body outside a known space, or
        without a runtime body, travels the whole motion; otherwise the Space3D decides,
        with the start transform, exclude list and recovery flag defaulting to the
        identity, [] and false. */
    method BodyTestMotion(m: Maths, solve: Narrowphase, body: Rid, params: MotionParameters) returns (r: Outcome<MotionResult>)
      requires SqrtLaw(m)
      ensures body !in bodies ==> r == Ok(DefaultResult(params.motion.GetOr(Zero)))
      ensures body in bodies && !(InKnownSpace(bodies[body]) && bodies[body].runtime.Some?) ==>
                r == Ok(Unobstructed(params.motion.GetOr(Zero)))
      ensures body in bodies && InKnownSpace(bodies[body]) && bodies[body].runtime.Some? ==>
                r == spaces[bodies[body].space.value].space3d.TestMotion(
                       m, solve, bodies[body].runtime.value, params.from.GetOr(IdentityTransform), params.motion.GetOr(Zero),
                       params.exclude.GetOr([]), params.recoveryAsCollision.GetOr(false))
    {
      var motion := params.motion.GetOr(Zero);
      if body !in bodies {
        return Ok(DefaultResult(motion));
      }
      var b := bodies[body];
      // A Space3D object is always true, so the `not space_3d` branch never runs.
      if !InKnownSpace(b) || b.runtime.None? {
        return Ok(Unobstructed(motion));
      }
      r := RuntimeTestMotion(m, solve, spaces[b.space.value].space3d, b.runtime.value, params);
    }

    /** The Space3D's test with the defaults filled in. */
    static method RuntimeTestMotion(m: Maths, solve: Narrowphase, space3d: Space3D, rt: Body3D, params: MotionParameters)
      returns (r: Outcome<MotionResult>)
      requires SqrtLaw(m)
      ensures r == space3d.TestMotion(m, solve, rt, params.from.GetOr(IdentityTransform), params.motion.GetOr(Zero),
                                      params.exclude.GetOr([]), params.recoveryAsCollision.GetOr(false))
    {
      r := space3d.BodyTestMotion(m, solve, rt, params.from.GetOr(IdentityTransform), params.motion.GetOr(Zero),
                                  params.margin.GetOr(DefaultMargin), params.exclude.GetOr([]),
                                  params.recoveryAsCollision.GetOr(false));
    }

    /** step: nothing for delta <= 0; otherwise the active spaces still in the table are
        listed in an order the set does not fix, and each is stepped in turn until one
        raises. sns holds the snapshot of every space at the call and recs[i] the record
        of the step of order[i]: order[..n] are stepped from their snapshots, the rest of
        the table still matches its snapshot, and when no exception stops the step
        RecordHeld holds of every record. */
    method Step(m: Maths, solve: Narrowphase, delta: real, ghost sns: map<Rid, SpaceSnap>)
      returns (r: Outcome<()>, order: seq<Rid>, ghost n: nat, ghost recs: map<nat, StepRecord>)
      requires Valid() && SqrtLaw(m)
      requires forall q :: q in spaces ==> q in sns && Kept(spaces[q].space3d, sns[q])
      modifies BodiesOf(ActiveOf(spaces, activeSpaces), Owner.Keys), BroadphasesOf(ActiveOf(spaces, activeSpaces))
      ensures Valid()
      ensures delta <= 0.0 ==> r == Ok(()) && order == []
                               && unchanged(BodiesOf(ActiveOf(spaces, activeSpaces), Owner.Keys))
                               && unchanged(BroadphasesOf(ActiveOf(spaces, activeSpaces)))
      ensures delta > 0.0 ==> Distinct(order) && forall q :: q in order <==> q in activeSpaces && q in spaces
      ensures n <= |order| && (r.Ok? ==> n == |order|)
      ensures forall i :: 0 <= i < |order| ==> order[i] in spaces && order[i] in sns
      ensures forall i :: n <= i < |order| ==> Kept(SpacesAt(spaces, order)[i], SnapsAt(sns, order)[i])
      ensures forall i :: 0 <= i < n ==> i in recs && Done(SpacesAt(spaces, order)[i], SnapsAt(sns, order)[i], recs[i])
      ensures delta > 0.0 && r.Ok? ==> forall i :: 0 <= i < n ==> i in recs && RecordHeld(m, solve, delta, recs[i])
    {
      r, order, n, recs := Ok(()), [], 0, map[];
      if delta <= 0.0 {
        return;
      }
      order := ListOf(activeSpaces * spaces.Keys);
      ListedWithin(spaces, activeSpaces, Owner.Keys, order);
      r, n, recs := StepOrder(m, solve, delta, order, sns);
      assert Valid();
      StepsLeftElim(m, solve, delta, SpacesAt(spaces, order), SnapsAt(sns, order), r.Ok?, n, recs, 0);
    }

    /** The spaces order names, stepped in that order until one raises; the rest of the
        table is left as it was. */
    method StepOrder(m: Maths, solve: Narrowphase, delta: real, order: seq<Rid>, ghost sns: map<Rid, SpaceSnap>)
      returns (r: Outcome<()>, ghost n: nat, ghost recs: map<nat, StepRecord>)
      requires Valid() && SqrtLaw(m) && Distinct(order) && forall q :: q in order ==> q in spaces
      requires forall q :: q in spaces ==> q in sns && Kept(spaces[q].space3d, sns[q])
      modifies BodiesFrom(SpacesAt(spaces, order), 0), BroadphasesFrom(SpacesAt(spaces, order), 0)
      ensures TableValid() && SpacesOk(spaces, shapeStore, Owner, BroadphaseOwner)
      ensures n <= |order| && (r.Ok? ==> n == |order|)
      ensures forall i :: 0 <= i < |order| ==> order[i] in sns
      ensures StepsLeft(m, solve, delta, SpacesAt(spaces, order), SnapsAt(sns, order), delta > 0.0 && r.Ok?, n, recs, 0)
    {
      ListedReady(order, sns);
      ghost var bps := BroadphasesFrom(SpacesAt(spaces, order), 0);
      var xs := SpacesAt(spaces, order);
      assert TableValid();
      r, n, recs := StepAll(m, solve, delta, xs, SnapsAt(sns, order));
      assert unchanged(this, ids, shapeStore) && unchanged(Owner.Keys);
      ListedOk(order, xs);
      forall q | q in spaces && q !in order
        ensures SpaceOk(spaces[q], shapeStore)
      {
        assert spaces[q].space3d.broadphase !in bps;
      }
    }

    /** After the step, the spaces order names are sound again. */
    lemma ListedOk(order: seq<Rid>, xs: seq<Space3D>)
      requires forall q :: q in order ==> q in spaces
      requires xs == SpacesAt(spaces, order)
      requires forall i :: 0 <= i < |xs| ==> xs[i].Valid() && xs[i].shapeStorage == shapeStore
      ensures forall q :: q in order ==> SpaceOk(spaces[q], shapeStore)
    {
      forall q | q in order
        ensures SpaceOk(spaces[q], shapeStore)
      {
        var i :| 0 <= i < |order| && order[i] == q;
        assert xs[i].Valid();
      }
    }

    lemma ListedReady(order: seq<Rid>, sns: map<Rid, SpaceSnap>)
      requires Valid() && Distinct(order) && forall q :: q in order ==> q in spaces
      requires forall q :: q in spaces ==> q in sns && Kept(spaces[q].space3d, sns[q])
      ensures forall i :: 0 <= i < |order| ==> order[i] in spaces && order[i] in sns
      ensures Apart(SpacesAt(spaces, order))
      ensures forall i :: 0 <= i < |order| ==>
                SpacesAt(spaces, order)[i].Valid() && Kept(SpacesAt(spaces, order)[i], SnapsAt(sns, order)[i])
                && SpacesAt(spaces, order)[i].shapeStorage == shapeStore
      ensures BodiesFrom(SpacesAt(spaces, order), 0) <= BodiesOf(spaces, Owner.Keys)
      ensures BroadphasesFrom(SpacesAt(spaces, order), 0) <= BroadphaseOwner.Keys
      ensures forall q :: q in spaces && q !in order ==>
                spaces[q].space3d.broadphase !in BroadphasesFrom(SpacesAt(spaces, order), 0)
                && forall b :: b in spaces[q].space3d.bodies ==> b !in BodiesFrom(SpacesAt(spaces, order), 0)
    {
      assert forall i :: 0 <= i < |order| ==> order[i] in order;
      var xs := SpacesAt(spaces, order);
      SpacesAtApart(spaces, Owner, BroadphaseOwner, order);
      forall i | 0 <= i < |xs|
        ensures xs[i].Valid() && Kept(xs[i], SnapsAt(sns, order)[i]) && xs[i].shapeStorage == shapeStore
      {
        assert SpaceOk(spaces[order[i]], shapeStore);
      }
    }

    /** sync_state: every attached body's transform and velocities are copied back to its
        record, so reading the record then gives the runtime values. */
    method SyncState()
      requires Valid()
      modifies this
      ensures Valid()
      ensures bodies.Keys == old(bodies.Keys)
      ensures forall q :: q in bodies ==> bodies[q] == Synced(old(bodies[q]))
      ensures forall q :: q in bodies && bodies[q].runtime.Some? ==>
                bodies[q].transform == bodies[q].runtime.value.st.transform
                && bodies[q].linearVelocity == bodies[q].runtime.value.st.linearVelocity
                && bodies[q].angularVelocity == bodies[q].runtime.value.st.angularVelocity
      ensures spaces == old(spaces) && activeSpaces == old(activeSpaces)
    {
      bodies := SyncAll(bodies);
    }
  }

  /** The loop of sync_state over a table of records. */
  method SyncAll(bs: map<Rid, BodyData>) returns (synced: map<Rid, BodyData>)
    ensures synced.Keys == bs.Keys
    ensures forall q :: q in bs ==> synced[q] == Synced(bs[q])
  {
    synced := bs;
    var todo := bs.Keys;
    while todo != {}
      invariant todo <= bs.Keys && synced.Keys == bs.Keys
      invariant forall q :: q in bs ==> synced[q] == if q in todo then bs[q] else Synced(bs[q])
      decreases |todo|
    {
      var q :| q in todo;
      todo := todo - {q};
      synced := synced[q := Synced(bs[q])];
    }
  }

  /** The parameters dictionary of body_test_motion; a missing key is None. */
  datatype MotionParameters = MotionParameters(
    from: Option<Transform>, motion: Option<Vec3>, margin: Option<real>,
    exclude: Option<seq<Rid>>, recoveryAsCollision: Option<bool>)

  /** The margin body_test_motion passes on when none is given. */
  const DefaultMargin: real := 0.001

  /** The two results body_test_motion answers without asking a Space3D still split
      the motion: nothing travelled and all of it left, or all of it travelled. */
  lemma FallbackResultsSplit(motion: Vec3)
    ensures Splits(DefaultResult(motion), motion) && Splits(Unobstructed(motion), motion)
  {
    assert Add(Zero, motion) == motion;
    assert Add(motion, Zero) == motion;
  }
}
