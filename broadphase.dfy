// engine/servers/physics/spaces/broadphase/broadphase_3d.py: the O(n^2) broadphase
// and the body AABB it stores. The entry dictionary is keyed by body rid and
// iterates in insertion order, so it is a sequence of entries with distinct rids.
module Broadphase {
  import opened Wrappers
  import opened Vectors
  import opened Aabbs
  import opened Shapes
  import opened Primitives
  import opened Bodies
  import opened ShapeStore

  /** The default of every query's collision mask. */
  const AllLayers: bv32 := 0xFFFF_FFFF

  /** BroadphaseEntry: the layer and mask are copied from the body when it is added. */
  datatype Entry = Entry(body: Body3D, aabb: AABB, layer: bv32, mask: bv32)

  // -------------------------------------------------------------- the dictionary
  predicate UniqueRids(es: seq<Entry>) {
    forall i, j :: 0 <= i < j < |es| ==> es[i].body.rid != es[j].body.rid
  }

  /** The position of the entry with the given key. */
  function IndexOf(es: seq<Entry>, rid: Rid): (r: Option<nat>)
    ensures r.Some? ==> r.value < |es| && es[r.value].body.rid == rid
    ensures r.None? <==> forall k :: 0 <= k < |es| ==> es[k].body.rid != rid
  {
    if |es| == 0 then None
    else if es[|es| - 1].body.rid == rid then Some(|es| - 1)
    else IndexOf(es[..|es| - 1], rid)
  }

  /** `self._entries.get(rid)`. */
  function Lookup(es: seq<Entry>, rid: Rid): Option<Entry> {
    match IndexOf(es, rid)
    case Some(k) => Some(es[k])
    case None => None
  }

  /** With distinct keys, the entry at position k is the one found under its key. */
  lemma LookupAt(es: seq<Entry>, k: nat)
    requires UniqueRids(es) && k < |es|
    ensures Lookup(es, es[k].body.rid) == Some(es[k])
  {
  }

  lemma LookupAbsent(es: seq<Entry>, rid: Rid)
    requires forall k :: 0 <= k < |es| ==> es[k].body.rid != rid
    ensures Lookup(es, rid) == None
  {
  }

  /** `self._entries[rid] = entry`: a known key keeps its place, a new one goes last. */
  function Upsert(es: seq<Entry>, e: Entry): seq<Entry> {
    match IndexOf(es, e.body.rid)
    case Some(k) => es[k := e]
    case None => es + [e]
  }

  /** `del self._entries[rid]` when the key is present. */
  function RemoveKey(es: seq<Entry>, rid: Rid): seq<Entry> {
    match IndexOf(es, rid)
    case Some(k) => es[..k] + es[k + 1..]
    case None => es
  }

  /** `self._entries[rid].aabb = aabb` when the key is present. */
  function SetAabb(es: seq<Entry>, rid: Rid, aabb: AABB): seq<Entry> {
    match IndexOf(es, rid)
    case Some(k) => es[k := es[k].(aabb := aabb)]
    case None => es
  }

  /** add_body inserts or overwrites the entry under the body's rid and keeps the keys
      distinct. */
  lemma {:induction false} UpsertIsInsert(es: seq<Entry>, e: Entry, q: Rid)
    requires UniqueRids(es)
    ensures UniqueRids(Upsert(es, e))
    ensures Lookup(Upsert(es, e), q) == if q == e.body.rid then Some(e) else Lookup(es, q)
  {
    var r := Upsert(es, e);
    match IndexOf(es, e.body.rid)
    case Some(k) =>
      assert r == es[k := e];
      assert UniqueRids(r);
      if q == e.body.rid {
        LookupAt(r, k);
      } else {
        assert forall i :: 0 <= i < |es| && es[i].body.rid == q ==> r[i] == es[i];
        KeyMoves(es, r, q);
      }
    case None =>
      assert r == es + [e];
      assert UniqueRids(r);
      if q == e.body.rid {
        LookupAt(r, |es|);
      } else {
        assert forall i :: 0 <= i < |es| ==> r[i] == es[i];
        KeyMoves(es, r, q);
      }
  }

  /** Two key-distinct tables that hold the same entries under key q agree on q. */
  lemma KeyMoves(es: seq<Entry>, r: seq<Entry>, q: Rid)
    requires UniqueRids(es) && UniqueRids(r)
    requires forall k :: 0 <= k < |es| && es[k].body.rid == q ==> es[k] in r
    requires forall k :: 0 <= k < |r| && r[k].body.rid == q ==> r[k] in es
    ensures Lookup(r, q) == Lookup(es, q)
  {
    match IndexOf(es, q)
    case Some(k) =>
      var j :| 0 <= j < |r| && r[j] == es[k];
      LookupAt(r, j);
    case None =>
      forall j | 0 <= j < |r|
        ensures r[j].body.rid != q
      {
      }
      LookupAbsent(r, q);
  }

  /** remove_body deletes exactly the body's key; an unknown rid changes nothing. */
  lemma {:induction false} RemoveKeyIsDelete(es: seq<Entry>, rid: Rid, q: Rid)
    requires UniqueRids(es)
    ensures UniqueRids(RemoveKey(es, rid))
    ensures Lookup(RemoveKey(es, rid), q) == if q == rid then None else Lookup(es, q)
    ensures Lookup(es, rid).None? ==> RemoveKey(es, rid) == es
  {
    var r := RemoveKey(es, rid);
    match IndexOf(es, rid)
    case Some(k) =>
      assert r == es[..k] + es[k + 1..];
      assert forall i :: 0 <= i < |r| ==> r[i] == (if i < k then es[i] else es[i + 1]);
      assert UniqueRids(r);
      if q == rid {
        LookupAbsent(r, q);
      } else {
        forall i | 0 <= i < |es| && es[i].body.rid == q
          ensures es[i] in r
        {
          if i < k { assert r[i] == es[i]; } else { assert i > k; assert r[i - 1] == es[i]; }
        }
        KeyMoves(es, r, q);
      }
    case None =>
  }

  /** Every entry after an insert is an old entry or the new one. */
  lemma UpsertMembers(es: seq<Entry>, e: Entry)
    ensures forall x :: x in Upsert(es, e) ==> x in es || x == e
  {
    match IndexOf(es, e.body.rid)
    case Some(k) =>
      forall x | x in es[k := e]
        ensures x in es || x == e
      {
        var i :| 0 <= i < |es| && es[k := e][i] == x;
      }
    case None =>
  }

  /** Every entry after a removal is an old entry under another key. */
  lemma RemoveKeyMembers(es: seq<Entry>, rid: Rid)
    requires UniqueRids(es)
    ensures forall x :: x in RemoveKey(es, rid) ==> x in es && x.body.rid != rid
  {
    match IndexOf(es, rid)
    case Some(k) =>
      var r := es[..k] + es[k + 1..];
      forall x | x in r
        ensures x in es && x.body.rid != rid
      {
        var i :| 0 <= i < |r| && r[i] == x;
        if i < k { assert r[i] == es[i]; } else { assert r[i] == es[i + 1]; }
      }
    case None =>
  }

  /** update_body changes only the aabb of a known entry. */
  lemma {:induction false} SetAabbChangesOnlyThatBox(es: seq<Entry>, rid: Rid, aabb: AABB, q: Rid)
    requires UniqueRids(es)
    ensures UniqueRids(SetAabb(es, rid, aabb)) && |SetAabb(es, rid, aabb)| == |es|
    ensures forall k :: 0 <= k < |es| ==>
              SetAabb(es, rid, aabb)[k] == (if es[k].body.rid == rid then es[k].(aabb := aabb) else es[k])
    ensures Lookup(es, rid).None? ==> SetAabb(es, rid, aabb) == es
  {
    match IndexOf(es, rid)
    case Some(k) =>
    case None =>
  }

  // ------------------------------------------------------------ collision pairs
  /** Lines 63-68: both masks meet the other's layer and the boxes overlap. */
  predicate Accepts(a: Entry, b: Entry) {
    a.mask & b.layer != 0 && b.mask & a.layer != 0 && Intersects(a.aabb, b.aabb)
  }

  /** The pairs (es[i], es[k]) for i < k < j, in loop order. */
  function Row(es: seq<Entry>, i: nat, j: nat): (r: seq<(Body3D, Body3D)>)
    requires i < j <= |es|
    decreases j
  {
    if j == i + 1 then []
    else Row(es, i, j - 1) + (if Accepts(es[i], es[j - 1]) then [(es[i].body, es[j - 1].body)] else [])
  }

  /** The pairs found by the first n rounds of the outer loop; a static first entry
      contributes no row. */
  function PairsBefore(es: seq<Entry>, n: nat): seq<(Body3D, Body3D)>
    requires n <= |es|
    reads set k | 0 <= k < |es| :: es[k].body
  {
    if n == 0 then []
    else PairsBefore(es, n - 1) + (if es[n - 1].body.IsStatic() then [] else Row(es, n - 1, |es|))
  }

  function CollisionPairs(es: seq<Entry>): seq<(Body3D, Body3D)>
    reads set k | 0 <= k < |es| :: es[k].body
  {
    PairsBefore(es, |es|)
  }

  /** Whether the body of each entry is static. */
  function StaticsOf(es: seq<Entry>): (r: seq<bool>)
    reads set k | 0 <= k < |es| :: es[k].body
    ensures |r| == |es|
    ensures forall k :: 0 <= k < |es| ==> r[k] == es[k].body.IsStatic()
  {
    if |es| == 0 then [] else [es[0].body.IsStatic()] + StaticsOf(es[1..])
  }

  /** PairsBefore with whether each entry's body is static given as `statics`. */
  function PairsFlagged(es: seq<Entry>, statics: seq<bool>, n: nat): seq<(Body3D, Body3D)>
    requires n <= |es| == |statics|
  {
    if n == 0 then []
    else PairsFlagged(es, statics, n - 1) + (if statics[n - 1] then [] else Row(es, n - 1, |es|))
  }

  /** The pairs depend on the bodies only through whether each one is static. */
  lemma {:induction false} PairsByStatics(es: seq<Entry>, statics: seq<bool>, n: nat)
    requires n <= |es| == |statics|
    requires forall k :: 0 <= k < |es| ==> statics[k] == es[k].body.IsStatic()
    ensures PairsBefore(es, n) == PairsFlagged(es, statics, n)
  {
    if n > 0 {
      PairsByStatics(es, statics, n - 1);
    }
  }

  /** Every pair of row i comes from some later entry that es[i] accepts. */
  lemma {:induction false} RowSound(es: seq<Entry>, i: nat, j: nat, p: (Body3D, Body3D)) returns (k: nat)
    requires i < j <= |es| && p in Row(es, i, j)
    ensures i < k < j && Accepts(es[i], es[k]) && p == (es[i].body, es[k].body)
    decreases j
  {
    if p in Row(es, i, j - 1) {
      k := RowSound(es, i, j - 1, p);
    } else {
      k := j - 1;
    }
  }

  /** p is the pair of es[i] and a later es[k] that the non-static es[i] accepts. */
  predicate Found(es: seq<Entry>, i: nat, k: nat, p: (Body3D, Body3D))
    reads set k | 0 <= k < |es| :: es[k].body
  {
    i < k < |es| && !es[i].body.IsStatic() && Accepts(es[i], es[k]) && p == (es[i].body, es[k].body)
  }

  /** Every pair found comes from some i < k with a non-static es[i] that accepts es[k]. */
  lemma {:induction false} PairsBeforeSound(es: seq<Entry>, n: nat, p: (Body3D, Body3D)) returns (i: nat, k: nat)
    requires n <= |es| && p in PairsBefore(es, n)
    ensures i < n && Found(es, i, k, p)
  {
    PairsBeforeSplit(es, n, p);
    if p in PairsBefore(es, n - 1) {
      i, k := PairsBeforeSound(es, n - 1, p);
    } else {
      i := n - 1;
      k := RowSound(es, n - 1, |es|, p);
      FoundInRow(es, i, k, p);
    }
  }

  lemma FoundInRow(es: seq<Entry>, i: nat, k: nat, p: (Body3D, Body3D))
    requires i < k < |es| && !es[i].body.IsStatic() && Accepts(es[i], es[k]) && p == (es[i].body, es[k].body)
    ensures Found(es, i, k, p)
  {
  }

  /** Every such i < k is found once round i is done. */
  lemma {:induction false} PairsBeforeComplete(es: seq<Entry>, n: nat, i: nat, k: nat)
    requires n <= |es| && i < n && i < k < |es| && !es[i].body.IsStatic() && Accepts(es[i], es[k])
    ensures (es[i].body, es[k].body) in PairsBefore(es, n)
  {
    if i < n - 1 {
      PairsBeforeComplete(es, n - 1, i, k);
      PairsBeforeKeeps(es, n, (es[i].body, es[k].body));
    } else {
      RowHas(es, i, |es|, k);
      PairsBeforeTakesRow(es, n, (es[i].body, es[k].body));
    }
  }

  /** A pair found by round n was found earlier or is in the row of a non-static es[n - 1]. */
  lemma PairsBeforeSplit(es: seq<Entry>, n: nat, p: (Body3D, Body3D))
    requires n <= |es| && p in PairsBefore(es, n)
    ensures n > 0
    ensures p !in PairsBefore(es, n - 1) ==> !es[n - 1].body.IsStatic() && p in Row(es, n - 1, |es|)
  {
  }

  /** A round keeps the pairs found before it. */
  lemma PairsBeforeKeeps(es: seq<Entry>, n: nat, p: (Body3D, Body3D))
    requires 0 < n <= |es| && p in PairsBefore(es, n - 1)
    ensures p in PairsBefore(es, n)
  {
  }

  /** A round of a non-static entry adds its row. */
  lemma PairsBeforeTakesRow(es: seq<Entry>, n: nat, p: (Body3D, Body3D))
    requires 0 < n <= |es| && !es[n - 1].body.IsStatic() && p in Row(es, n - 1, |es|)
    ensures p in PairsBefore(es, n)
  {
  }

  lemma {:induction false} RowHas(es: seq<Entry>, i: nat, j: nat, k: nat)
    requires i < k < j <= |es| && Accepts(es[i], es[k])
    ensures (es[i].body, es[k].body) in Row(es, i, j)
    decreases j
  {
    if k < j - 1 {
      RowHas(es, i, j - 1, k);
    }
  }

  lemma PairsBeforeMembers(es: seq<Entry>, n: nat, p: (Body3D, Body3D))
    requires n <= |es|
    ensures p in PairsBefore(es, n) <==>
              exists i, k :: 0 <= i < n && i < k < |es| && !es[i].body.IsStatic() && Accepts(es[i], es[k])
                             && p == (es[i].body, es[k].body)
  {
    if p in PairsBefore(es, n) {
      var i, k := PairsBeforeSound(es, n, p);
    }
    if exists i, k :: 0 <= i < n && i < k < |es| && !es[i].body.IsStatic() && Accepts(es[i], es[k])
                      && p == (es[i].body, es[k].body) {
      var i, k :| 0 <= i < n && i < k < |es| && !es[i].body.IsStatic() && Accepts(es[i], es[k])
                  && p == (es[i].body, es[k].body);
      PairsBeforeComplete(es, n, i, k);
    }
  }

  /** get_collision_pairs returns exactly the pairs (i, k), i < k, whose earlier entry
      is not static, whose masks accept each other's layers and whose boxes overlap. */
  lemma CollisionPairsMeaning(es: seq<Entry>, p: (Body3D, Body3D))
    ensures p in CollisionPairs(es) <==>
              exists i, k :: 0 <= i < k < |es| && !es[i].body.IsStatic() && Accepts(es[i], es[k])
                             && p == (es[i].body, es[k].body)
  {
    PairsBeforeMembers(es, |es|, p);
  }

  /** With distinct keys no body is paired with itself. */
  lemma NoSelfPairs(es: seq<Entry>, b: Body3D)
    requires UniqueRids(es)
    ensures (b, b) !in CollisionPairs(es)
  {
    CollisionPairsMeaning(es, (b, b));
  }

  // -------------------------------------------------------------------- queries
  /** The bodies of the first n entries whose layer meets the mask and whose box
      overlaps the query box, in entry order. */
  function QueryBefore(es: seq<Entry>, box: AABB, mask: bv32, n: nat): seq<Body3D>
    requires n <= |es|
  {
    if n == 0 then []
    else QueryBefore(es, box, mask, n - 1) + (if Hits(es[n - 1], box, mask) then [es[n - 1].body] else [])
  }

  /** Lines 87-90: the entry's layer meets the mask and its box overlaps the query. */
  predicate Hits(e: Entry, box: AABB, mask: bv32) {
    mask & e.layer != 0 && Intersects(box, e.aabb)
  }

  function Query(es: seq<Entry>, box: AABB, mask: bv32): seq<Body3D> {
    QueryBefore(es, box, mask, |es|)
  }

  lemma {:induction false} QueryBeforeMembers(es: seq<Entry>, box: AABB, mask: bv32, n: nat, b: Body3D)
    requires n <= |es|
    ensures b in QueryBefore(es, box, mask, n) <==>
              exists k :: 0 <= k < n && es[k].body == b && mask & es[k].layer != 0 && Intersects(box, es[k].aabb)
  {
    if n > 0 {
      QueryBeforeMembers(es, box, mask, n - 1, b);
    }
  }

  /** query_aabb returns exactly the bodies of the entries whose layer meets the mask
      and whose box overlaps the query. */
  lemma QueryMeaning(es: seq<Entry>, box: AABB, mask: bv32, b: Body3D)
    ensures b in Query(es, box, mask) <==>
              exists k :: 0 <= k < |es| && es[k].body == b && mask & es[k].layer != 0 && Intersects(box, es[k].aabb)
  {
    QueryBeforeMembers(es, box, mask, |es|, b);
  }

  /** The box spanned by the two ends of a ray. */
  function RayAabb(from: Vec3, to: Vec3): (r: AABB)
    ensures Contains(r, from) && Contains(r, to)
  {
    var lo := Vec3(Min(from.x, to.x), Min(from.y, to.y), Min(from.z, to.z));
    var hi := Vec3(Max(from.x, to.x), Max(from.y, to.y), Max(from.z, to.z));
    AABB(lo, Vec3(hi.x - lo.x, hi.y - lo.y, hi.z - lo.z))
  }

  // ------------------------------------------------------------------ the class
  class Broadphase3D {
    var entries: seq<Entry>

    constructor()
      ensures entries == []
    {
      entries := [];
    }

    method AddBody(body: Body3D, aabb: AABB)
      modifies this
      ensures entries == Upsert(old(entries), Entry(body, aabb, body.st.collisionLayer, body.st.collisionMask))
    {
      var entry := Entry(body, aabb, body.st.collisionLayer, body.st.collisionMask);
      entries := Upsert(entries, entry);
    }

    method RemoveBody(body: Body3D)
      modifies this
      ensures entries == RemoveKey(old(entries), body.rid)
    {
      entries := RemoveKey(entries, body.rid);
    }

    method UpdateBody(body: Body3D, aabb: AABB)
      modifies this
      ensures entries == SetAabb(old(entries), body.rid, aabb)
    {
      entries := SetAabb(entries, body.rid, aabb);
    }

    method GetCollisionPairs() returns (pairs: seq<(Body3D, Body3D)>)
      ensures pairs == CollisionPairs(entries)
    {
      pairs := [];
      var es := entries;
      var i := 0;
      while i < |es|
        invariant 0 <= i <= |es|
        invariant pairs == PairsBefore(es, i)
      {
        var a := es[i];
        if a.body.IsStatic() {
          i := i + 1;
          continue;
        }
        ghost var before := pairs;
        var j := i + 1;
        while j < |es|
          invariant i + 1 <= j <= |es|
          invariant pairs == before + Row(es, i, j)
        {
          var b := es[j];
          assert Row(es, i, j + 1) == Row(es, i, j) + (if Accepts(a, b) then [(a.body, b.body)] else []);
          if Accepts(a, b) {
            pairs := pairs + [(a.body, b.body)];
          }
          j := j + 1;
        }
        i := i + 1;
      }
    }

    method QueryAabb(aabb: AABB, collisionMask: bv32) returns (results: seq<Body3D>)
      ensures results == Query(entries, aabb, collisionMask)
    {
      results := [];
      var i := 0;
      while i < |entries|
        invariant 0 <= i <= |entries|
        invariant results == QueryBefore(entries, aabb, collisionMask, i)
      {
        var entry := entries[i];
        if Hits(entry, aabb, collisionMask) {
          results := results + [entry.body];
        }
        i := i + 1;
      }
    }

    /** raycast: the query box is spanned by the two ends of the ray. */
    method Raycast(from: Vec3, to: Vec3, collisionMask: bv32) returns (results: seq<Body3D>)
      ensures results == Query(entries, RayAabb(from, to), collisionMask)
    {
      results := QueryAabb(RayAabb(from, to), collisionMask);
    }

    method Clear()
      modifies this
      ensures entries == []
    {
      entries := [];
    }

    /** __len__. */
    function Len(): (n: nat)
      reads this
      ensures n == |entries|
    {
      |entries|
    }
  }

  // --------------------------------------------------------- compute_body_aabb
  /** The kinds whose branch of _compute_shape_aabb reads the data dictionary. */
  predicate BoxReadsData(t: ShapeType) { t.Sphere? || t.Box? || t.Capsule? }

  /** The corners in the order of lines 229-238: x sign from bit 2, y from bit 1 and
      z from bit 0 of i, a set bit meaning minus. */
  function ListedCorner(he: Vec3, i: int): Vec3 {
    Vec3(if (i / 4) % 2 == 0 then he.x else -he.x,
         if (i / 2) % 2 == 0 then he.y else -he.y,
         if i % 2 == 0 then he.z else -he.z)
  }

  function TransformedCorners(xf: Transform, he: Vec3): (cs: seq<Vec3>)
    ensures |cs| == 8
  {
    seq(8, i => Xform(xf, ListedCorner(he, i)))
  }

  const PlaneHalfSize: real := 10000.0

  /** _compute_shape_aabb. */
  function ShapeBox(t: ShapeType, xf: Transform, data: ShapeData): (r: Outcome<AABB>)
    ensures r.Raised? <==> BoxReadsData(t) && data.None?
    ensures r.Raised? ==> r.exc == AttributeError
    ensures t.Sphere? && data.Some? ==>
              var rad := Radius(data.value);
              r == Ok(AABB(Sub(xf.origin, Vec3(rad, rad, rad)), Vec3(rad * 2.0, rad * 2.0, rad * 2.0)))
    ensures t.Box? && data.Some? ==> r == Ok(Bounds(TransformedCorners(xf, HalfExtents(data.value))))
    ensures t.Plane? ==> r == Ok(AABB(Sub(xf.origin, Vec3(PlaneHalfSize, 0.1, PlaneHalfSize)), Vec3(PlaneHalfSize * 2.0, 0.2, PlaneHalfSize * 2.0)))
    ensures !BoxReadsData(t) && !t.Plane? ==> r == Ok(AABB(Sub(xf.origin, Vec3(0.5, 0.5, 0.5)), Vec3(1.0, 1.0, 1.0)))
  {
    if BoxReadsData(t) && data.None? then Raised(AttributeError)
    else match t
      case Sphere =>
        var rad := Radius(data.value);
        Ok(AABB(Sub(xf.origin, Vec3(rad, rad, rad)), Vec3(rad * 2.0, rad * 2.0, rad * 2.0)))
      case Box => Ok(Bounds(TransformedCorners(xf, HalfExtents(data.value))))
      case Capsule =>
        var rad := Radius(data.value);
        Ok(SegmentAabb(xf, CapsuleHalfHeight(rad, Height(data.value)), rad))
      case Plane =>
        Ok(AABB(Sub(xf.origin, Vec3(PlaneHalfSize, 0.1, PlaneHalfSize)), Vec3(PlaneHalfSize * 2.0, 0.2, PlaneHalfSize * 2.0)))
      case _ => Ok(AABB(Sub(xf.origin, Vec3(0.5, 0.5, 0.5)), Vec3(1.0, 1.0, 1.0)))
  }

  /** A box shape's AABB holds all eight of its transformed corners. */
  lemma BoxShapeHoldsCorners(xf: Transform, p: ShapeParams, i: nat)
    requires i < 8
    ensures Contains(ShapeBox(Box, xf, Some(p)).value, Xform(xf, ListedCorner(HalfExtents(p), i)))
  {
    var cs := TransformedCorners(xf, HalfExtents(p));
    BoundsAreTight(cs);
    assert cs[i] == Xform(xf, ListedCorner(HalfExtents(p), i));
    assert ShapeBox(Box, xf, Some(p)) == Ok(Bounds(cs));
  }

  /** `outer` covers `inner` on every axis. */
  predicate Covers(outer: AABB, inner: AABB) {
    outer.position.x <= inner.position.x && End(inner).x <= End(outer).x
    && outer.position.y <= inner.position.y && End(inner).y <= End(outer).y
    && outer.position.z <= inner.position.z && End(inner).z <= End(outer).z
  }

  lemma CoversTransitive(a: AABB, b: AABB, c: AABB)
    requires Covers(a, b) && Covers(b, c)
    ensures Covers(a, c)
  {
  }

  /** Lines 197-207: the box from the smaller minimum to the larger maximum. */
  function Merge(a: AABB, b: AABB): (r: AABB)
    ensures Covers(r, a) && Covers(r, b)
  {
    var lo := Vec3(Min(a.position.x, b.position.x), Min(a.position.y, b.position.y), Min(a.position.z, b.position.z));
    var hi := Vec3(Max(End(a).x, End(b).x), Max(End(a).y, End(b).y), Max(End(a).z, End(b).z));
    AABB(lo, Sub(hi, lo))
  }

  /** The box of one shape entry: None when its shape is unknown, else the box of its
      kind at body transform * shape transform. */
  function EntryBox(xf: Transform, info: ShapeInfo, shapes: map<Rid, ShapeRecord>): Option<Outcome<AABB>> {
    if info.shape in shapes then
      var rec := shapes[info.shape];
      Some(ShapeBox(rec.kind, Compose(xf, info.transform), rec.data))
    else None
  }

  /** The merge loop of lines 181-207 over the remaining entries. */
  function MergeRest(acc: AABB, xf: Transform, infos: seq<ShapeInfo>, shapes: map<Rid, ShapeRecord>): Outcome<AABB>
    decreases |infos|
  {
    if |infos| == 0 then Ok(acc)
    else if infos[0].disabled then MergeRest(acc, xf, infos[1..], shapes)
    else match EntryBox(xf, infos[0], shapes)
      case None => MergeRest(acc, xf, infos[1..], shapes)
      case Some(Raised(e)) => Raised(e)
      case Some(Ok(box)) => MergeRest(Merge(acc, box), xf, infos[1..], shapes)
  }

  /** Lines 160-165: the first entry, or the first enabled one when the first entry is
      disabled; still the first entry when every entry is disabled. */
  function FirstShapeInfo(infos: seq<ShapeInfo>): (f: ShapeInfo)
    requires |infos| > 0
    ensures f in infos
    ensures !infos[0].disabled ==> f == infos[0]
    ensures f.disabled ==> forall k :: 0 <= k < |infos| ==> infos[k].disabled
  {
    if !infos[0].disabled then infos[0] else FirstEnabled(infos, infos[0])
  }

  function FirstEnabled(infos: seq<ShapeInfo>, fallback: ShapeInfo): (f: ShapeInfo)
    ensures f in infos || f == fallback
    ensures !f.disabled || f == fallback
    ensures f == fallback && fallback.disabled ==> forall k :: 0 <= k < |infos| ==> infos[k].disabled
  {
    if |infos| == 0 then fallback
    else if !infos[0].disabled then infos[0]
    else FirstEnabled(infos[1..], fallback)
  }

  /** A 0.2 cube around a point. */
  function SmallCube(p: Vec3): AABB {
    AABB(Sub(p, Vec3(0.1, 0.1, 0.1)), Vec3(0.2, 0.2, 0.2))
  }

  /** compute_body_aabb. */
  function BodyAabb(xf: Transform, infos: seq<ShapeInfo>, shapes: map<Rid, ShapeRecord>): (r: Outcome<AABB>)
    ensures |infos| == 0 ==> r == Ok(SmallCube(xf.origin))
    ensures |infos| > 0 && FirstShapeInfo(infos).shape !in shapes ==> r == Ok(SmallCube(xf.origin))
  {
    if |infos| == 0 then Ok(SmallCube(xf.origin))
    else
      var first := FirstShapeInfo(infos);
      match EntryBox(xf, first, shapes)
      case None => Ok(SmallCube(xf.origin))
      case Some(Raised(e)) => Raised(e)
      case Some(Ok(box)) => MergeRest(box, xf, infos[1..], shapes)
  }

  /** The merge covers its start box and the box of every enabled entry whose shape is
      known. */
  lemma {:induction false} MergeRestCovers(acc: AABB, xf: Transform, infos: seq<ShapeInfo>, shapes: map<Rid, ShapeRecord>)
    requires MergeRest(acc, xf, infos, shapes).Ok?
    decreases |infos|
    ensures Covers(MergeRest(acc, xf, infos, shapes).value, acc)
    ensures forall k :: 0 <= k < |infos| && !infos[k].disabled && infos[k].shape in shapes ==>
              EntryBox(xf, infos[k], shapes).value.Ok?
              && Covers(MergeRest(acc, xf, infos, shapes).value, EntryBox(xf, infos[k], shapes).value.value)
  {
    if |infos| > 0 {
      var r := MergeRest(acc, xf, infos, shapes).value;
      var rest := infos[1..];
      if infos[0].disabled || EntryBox(xf, infos[0], shapes).None? {
        MergeRestCovers(acc, xf, rest, shapes);
        assert forall k :: 1 <= k < |infos| ==> infos[k] == rest[k - 1];
      } else {
        var box := EntryBox(xf, infos[0], shapes).value.value;
        var next := Merge(acc, box);
        MergeRestCovers(next, xf, rest, shapes);
        CoversTransitive(r, next, acc);
        CoversTransitive(r, next, box);
        assert forall k :: 1 <= k < |infos| ==> infos[k] == rest[k - 1];
      }
    }
  }

  /** The body AABB covers the box of every enabled shape entry whose shape is known,
      as long as the entry it starts from names a known shape. */
  lemma {:induction false} BodyAabbCoversShapes(xf: Transform, infos: seq<ShapeInfo>, shapes: map<Rid, ShapeRecord>, k: nat)
    requires BodyAabb(xf, infos, shapes).Ok?
    requires |infos| > 0 && FirstShapeInfo(infos).shape in shapes
    requires k < |infos| && !infos[k].disabled && infos[k].shape in shapes
    ensures EntryBox(xf, infos[k], shapes).value.Ok?
    ensures Covers(BodyAabb(xf, infos, shapes).value, EntryBox(xf, infos[k], shapes).value.value)
  {
    var first := FirstShapeInfo(infos);
    var box := EntryBox(xf, first, shapes).value.value;
    MergeRestCovers(box, xf, infos[1..], shapes);
    if k == 0 {
      assert first == infos[0];
    } else {
      assert infos[k] == infos[1..][k - 1];
    }
  }

  /** compute_body_aabb, with its two loops. */
  method ComputeBodyAabb(body: Body3D, store: ShapeStorage) returns (r: Outcome<AABB>)
    ensures r == BodyAabb(body.st.transform, body.st.shapes.items, store.shapes)
  {
    var xf := body.st.transform;
    var infos := body.st.shapes.items;
    if |infos| == 0 {
      return Ok(SmallCube(xf.origin));
    }
    var first := FindFirstShape(infos);
    var rec := store.GetShapeData(first.shape);
    if rec.None? {
      return Ok(SmallCube(xf.origin));
    }
    var start := ShapeBox(rec.value.kind, Compose(xf, first.transform), rec.value.data);
    if start.Raised? {
      return Raised(start.exc);
    }
    r := MergeShapes(start.value, xf, infos[1..], store);
  }

  /** Lines 160-165: the scan for the first enabled entry when the first is disabled. */
  method FindFirstShape(infos: seq<ShapeInfo>) returns (first: ShapeInfo)
    requires |infos| > 0
    ensures first == FirstShapeInfo(infos)
  {
    first := infos[0];
    if first.disabled {
      var i := 0;
      while i < |infos|
        invariant 0 <= i <= |infos|
        invariant FirstEnabled(infos[i..], infos[0]) == FirstShapeInfo(infos)
      {
        assert infos[i..][1..] == infos[i + 1..];
        if !infos[i].disabled {
          first := infos[i];
          break;
        }
        i := i + 1;
      }
    }
  }

  /** Lines 181-207: merging the boxes of the remaining enabled, known entries. */
  method MergeShapes(start: AABB, xf: Transform, rest: seq<ShapeInfo>, store: ShapeStorage) returns (r: Outcome<AABB>)
    ensures r == MergeRest(start, xf, rest, store.shapes)
  {
    var combined := start;
    var j := 0;
    while j < |rest|
      invariant 0 <= j <= |rest|
      invariant MergeRest(combined, xf, rest[j..], store.shapes) == MergeRest(start, xf, rest, store.shapes)
    {
      assert rest[j..][1..] == rest[j + 1..];
      var info := rest[j];
      if info.disabled {
        j := j + 1;
        continue;
      }
      var data := store.GetShapeData(info.shape);
      if data.None? {
        j := j + 1;
        continue;
      }
      var box := ShapeBox(data.value.kind, Compose(xf, info.transform), data.value.data);
      if box.Raised? {
        return Raised(box.exc);
      }
      combined := Merge(combined, box.value);
      j := j + 1;
    }
    r := Ok(combined);
  }
}
