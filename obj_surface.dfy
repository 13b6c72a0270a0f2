// The building half of the OBJ loader for one surface (MeshLoaderOBJ._build_surface): the
// faces of a bucket of elements become a table of distinct vertices, one per
// (position, normal, uv) key in first-seen order, and a fan-triangulated index list.
module ObjSurface {
  import opened Wrappers
  import opened Vectors
  import opened PyStrings
  import opened DictOrder
  import opened ObjParse

  /** The (pi, ni, ti) key of a face corner: 0-based indices into positions, normals and
      texture coordinates, -1 where the token leaves one out. */
  datatype Key = Key(pi: int, ni: int, ti: int)

  /** One vertex of the interleaved vertex buffer: position, normal, uv. */
  datatype Vertex = Vertex(position: Vec3, normal: Vec3, uv: (real, real))

  /** What add_surface receives: the vertices, the triangle indices, the index type
      (0 for 16-bit, 1 for 32-bit indices) and the material. */
  datatype Surface = Surface(vertices: seq<Vertex>, indices: seq<nat>, indexType: nat, material: Option<string>)

  const Up := Vec3(0.0, 1.0, 0.0)

  /** `int(parts[k]) - 1 if len(parts) > k and parts[k] else -1`. */
  function OptionalIndex(parts: seq<string>, k: nat): (r: Outcome<int>)
    ensures r.Raised? ==> r.exc == ValueError
  {
    if |parts| > k && |parts[k]| > 0 then
      match ParseInt(parts[k])
      case Raised(e) => Raised(e)
      case Ok(v) => Ok(v - 1)
    else Ok(-1)
  }

  /** The key of one face token `p`, `p/t`, `p//n` or `p/t/n`, read with int(); anything
      int() refuses raises ValueError. */
  function TokenKey(token: string): (r: Outcome<Key>)
    ensures r.Raised? ==> r.exc == ValueError
  {
    var parts := SplitOn(token, '/');
    match ParseInt(parts[0])
    case Raised(e) => Raised(e)
    case Ok(p) =>
      match OptionalIndex(parts, 1)
      case Raised(e) => Raised(e)
      case Ok(ti) =>
        match OptionalIndex(parts, 2)
        case Raised(e) => Raised(e)
        case Ok(ni) => Ok(Key(p - 1, ni, ti))
  }

  /** `data.positions[pi]` succeeds: Python also accepts a negative index down to -len. */
  predicate Resolvable(data: ObjData, key: Key) {
    -|data.positions| <= key.pi < |data.positions|
  }

  /** Python's reading of a list index that is in range. */
  function PyIndex(n: nat, i: int): (k: nat)
    requires -(n as int) <= i < n
    ensures k < n
  {
    if i < 0 then i + n else i
  }

  /** The vertex emit_vertex packs for a key: the position (by Python indexing), the normal
      if ni is in range and (0, 1, 0) otherwise, the uv if ti is in range and (0, 0)
      otherwise. For a key whose position is out of range there is no vertex; the origin
      stands in for it. */
  function VertexAt(data: ObjData, key: Key): Vertex {
    var position := if Resolvable(data, key) then data.positions[PyIndex(|data.positions|, key.pi)] else Vec3(0.0, 0.0, 0.0);
    var normal := if 0 <= key.ni < |data.normals| then data.normals[key.ni] else Up;
    var uv := if 0 <= key.ti < |data.uvs| then data.uvs[key.ti] else (0.0, 0.0);
    Vertex(position, normal, uv)
  }

  /** `face.split()[1:]`: the tokens after the `f`. */
  function Tokens(face: string): seq<string> {
    var words := Split(face);
    if |words| == 0 then [] else words[1..]
  }

  /** The keys of the tokens of a face, token by token: the first token int() refuses
      raises ValueError, the first whose position does not exist raises IndexError. */
  function FaceKeys(data: ObjData, tokens: seq<string>): (r: Outcome<seq<Key>>)
    ensures r.Ok? ==> |r.value| == |tokens| && forall i :: 0 <= i < |tokens| ==> Resolvable(data, r.value[i])
    ensures r.Raised? ==> r.exc in {ValueError, IndexError}
  {
    if |tokens| == 0 then Ok([])
    else
      match FaceKeys(data, tokens[..|tokens| - 1])
      case Raised(e) => Raised(e)
      case Ok(keys) =>
        match TokenKey(tokens[|tokens| - 1])
        case Raised(e) => Raised(e)
        case Ok(key) => if Resolvable(data, key) then Ok(keys + [key]) else Raised(IndexError)
  }

  /** The keys of every face, face by face, or the first exception. */
  function AllKeys(data: ObjData, faces: seq<string>): (r: Outcome<seq<seq<Key>>>)
    ensures r.Ok? ==> |r.value| == |faces|
  {
    if |faces| == 0 then Ok([])
    else
      match AllKeys(data, faces[..|faces| - 1])
      case Raised(e) => Raised(e)
      case Ok(done) =>
        match FaceKeys(data, Tokens(faces[|faces| - 1]))
        case Raised(e) => Raised(e)
        case Ok(keys) => Ok(done + [keys])
  }

  /** Every key of every face, in order. */
  function Flatten<T>(faces: seq<seq<T>>): seq<T> {
    if |faces| == 0 then [] else Flatten(faces[..|faces| - 1]) + faces[|faces| - 1]
  }

  /** The fan triangulation of a polygon: (v0, v1, v2), (v0, v2, v3), ... */
  function Fan<T>(v: seq<T>): seq<T> {
    if |v| < 3 then [] else Fan(v[..|v| - 1]) + [v[0], v[|v| - 2], v[|v| - 1]]
  }

  /** The triangle corners of every face, face by face. */
  function Corners<T>(faces: seq<seq<T>>): seq<T> {
    if |faces| == 0 then [] else Corners(faces[..|faces| - 1]) + Fan(faces[|faces| - 1])
  }

  function IndexType(vertexCount: nat): nat {
    if vertexCount > 65535 then 1 else 0
  }

  /** What _build_surface adds to the mesh, if anything: the distinct keys in first-seen
      order give the vertices, each triangle corner is the position of its key among
      them, and a surface without triangles is skipped. */
  function SurfaceOf(data: ObjData, elements: seq<Element>, material: Option<string>): Outcome<Option<Surface>> {
    match AllKeys(data, Faces(elements))
    case Raised(e) => Raised(e)
    case Ok(faces) =>
      var order := FirstSeen(Flatten(faces));
      var corners := Corners(faces);
      if |corners| == 0 then Ok(None)
      else
        Ok(Some(Surface(
          VerticesOf(data, order),
          seq(|corners|, t requires 0 <= t < |corners| => Position(order, corners[t])),
          IndexType(|order|),
          material)))
  }

  /** vertex_map for keys inserted in this order: each key to its position. */
  ghost function Indexed(order: seq<Key>): map<Key, nat> {
    if |order| == 0 then map[] else Indexed(order[..|order| - 1])[order[|order| - 1] := |order| - 1]
  }

  /** The vertices of keys inserted in this order, one after the other. */
  function VerticesOf(data: ObjData, order: seq<Key>): (v: seq<Vertex>)
    ensures |v| == |order|
  {
    if |order| == 0 then [] else VerticesOf(data, order[..|order| - 1]) + [VertexAt(data, order[|order| - 1])]
  }

  /** For keys without repeats, Indexed holds exactly those keys and finds each where it is. */
  lemma {:induction false} IndexedFacts(order: seq<Key>, key: Key)
    requires Distinct(order)
    ensures key in Indexed(order) <==> key in order
    ensures key in order ==> Indexed(order)[key] == Position(order, key)
    ensures |Indexed(order)| == |order|
  {
    if |order| > 0 {
      var init := order[..|order| - 1];
      var last := order[|order| - 1];
      assert order == init + [last];
      IndexedFacts(init, key);
      IndexedFacts(init, last);
      if key in init {
        PositionAppend(init, last, key);
      } else if key == last {
        PositionAppendNew(init, last);
      }
    }
  }

  /** The state of emit_vertex's closure: vertex_map and vertex_data for the keys of
      `order`, the dict's key order, each of which has a position. */
  ghost predicate Table(data: ObjData, order: seq<Key>, vertexMap: map<Key, nat>, vertices: seq<Vertex>) {
    && Distinct(order) && vertexMap == Indexed(order) && vertices == VerticesOf(data, order)
    && forall k :: k in order ==> Resolvable(data, k)
  }

  /** emit_vertex: the index of a key seen before, or the next index for a new key, whose
      vertex is packed after the others; `data.positions[pi]` raises IndexError for a new
      key whose position does not exist. */
  method EmitVertex(data: ObjData, key: Key, vertexMap: map<Key, nat>, vertices: seq<Vertex>, ghost order: seq<Key>)
    returns (index: Outcome<nat>, vertexMap': map<Key, nat>, vertices': seq<Vertex>, ghost order': seq<Key>)
    requires Table(data, order, vertexMap, vertices)
    ensures index.Raised? <==> key !in order && !Resolvable(data, key)
    ensures index.Raised? ==> index.exc == IndexError
    ensures index.Ok? ==>
      && Resolvable(data, key)
      && Table(data, order', vertexMap', vertices')
      && order' == (if key in order then order else order + [key])
      && index.value == Position(order', key)
  {
    IndexedFacts(order, key);
    if key in vertexMap {
      return Ok(vertexMap[key]), vertexMap, vertices, order;
    }
    if !Resolvable(data, key) {
      return Raised(IndexError), vertexMap, vertices, order;
    }
    var position := data.positions[PyIndex(|data.positions|, key.pi)];
    var normal := if 0 <= key.ni < |data.normals| then data.normals[key.ni] else Up;
    var uv := if 0 <= key.ti < |data.uvs| then data.uvs[key.ti] else (0.0, 0.0);
    assert Vertex(position, normal, uv) == VertexAt(data, key);
    vertices' := vertices + [Vertex(position, normal, uv)];
    TableAppend(data, order, vertexMap, vertices, key);
    var next := |vertexMap|;
    vertexMap' := vertexMap[key := next];
    order' := order + [key];
    index := Ok(next);
  }

  /** A new key with a position goes last in the table. */
  lemma TableAppend(data: ObjData, order: seq<Key>, vertexMap: map<Key, nat>, vertices: seq<Vertex>, key: Key)
    requires Table(data, order, vertexMap, vertices) && key !in order && Resolvable(data, key)
    ensures |vertexMap| == |order|
    ensures Table(data, order + [key], vertexMap[key := |order|], vertices + [VertexAt(data, key)])
    ensures Position(order + [key], key) == |order|
  {
    IndexedFacts(order, key);
    var order' := order + [key];
    assert order'[..|order|] == order;
    DistinctSnoc(order, key);
    PositionAppendNew(order, key);
  }

  /** A key already in the dict leaves its key order as it is; a new one goes last. */
  lemma FirstSeenStep(seen: seq<Key>, keys: seq<Key>, key: Key)
    ensures FirstSeen(seen + (keys + [key])) == if key in FirstSeen(seen + keys) then FirstSeen(seen + keys) else FirstSeen(seen + keys) + [key]
  {
    assert seen + (keys + [key]) == (seen + keys) + [key];
    assert (seen + keys + [key])[..|seen + keys|] == seen + keys;
  }

  /** One more token read into a face. */
  lemma FaceKeysStep(data: ObjData, tokens: seq<string>, t: nat, keys: seq<Key>, key: Key)
    requires t < |tokens| && FaceKeys(data, tokens[..t]) == Ok(keys)
    requires TokenKey(tokens[t]) == Ok(key) && Resolvable(data, key)
    ensures FaceKeys(data, tokens[..t + 1]) == Ok(keys + [key])
  {
    assert tokens[..t + 1][..t] == tokens[..t];
  }

  /** An exception in a token ends the face. */
  lemma {:induction false} FaceKeysStops(data: ObjData, tokens: seq<string>, k: nat)
    requires k <= |tokens| && FaceKeys(data, tokens[..k]).Raised?
    ensures FaceKeys(data, tokens) == FaceKeys(data, tokens[..k])
    decreases |tokens| - k
  {
    if k < |tokens| {
      var init := tokens[..|tokens| - 1];
      assert init[..k] == tokens[..k];
      FaceKeysStops(data, init, k);
    } else {
      assert tokens[..k] == tokens;
    }
  }

  /** Indices found by position keep their value while the dict grows. */
  lemma PositionsKept(keys: seq<Key>, faceIndices: seq<nat>, order: seq<Key>, order': seq<Key>)
    requires |faceIndices| == |keys| && order <= order'
    requires forall i :: 0 <= i < |keys| ==> keys[i] in order && faceIndices[i] == Position(order, keys[i])
    ensures forall i :: 0 <= i < |keys| ==> keys[i] in order' && faceIndices[i] == Position(order', keys[i])
  {
    forall i | 0 <= i < |keys|
      ensures keys[i] in order' && faceIndices[i] == Position(order', keys[i])
    {
      PositionPrefix(order, order', keys[i]);
    }
  }

  lemma PositionsAppend(keys: seq<Key>, faceIndices: seq<nat>, order: seq<Key>, key: Key, index: nat)
    requires |faceIndices| == |keys|
    requires forall i :: 0 <= i < |keys| ==> keys[i] in order && faceIndices[i] == Position(order, keys[i])
    requires key in order && index == Position(order, key)
    ensures var keys', faceIndices' := keys + [key], faceIndices + [index];
      forall i :: 0 <= i < |keys'| ==> keys'[i] in order && faceIndices'[i] == Position(order, keys'[i])
  {
  }

  /** The loop over the tokens of one face: the index of each token's vertex. */
  method FaceIndices(data: ObjData, tokens: seq<string>, vertexMap: map<Key, nat>, vertices: seq<Vertex>, ghost order: seq<Key>, ghost seen: seq<Key>)
    returns (r: Outcome<seq<nat>>, vertexMap': map<Key, nat>, vertices': seq<Vertex>, ghost order': seq<Key>, ghost keys: seq<Key>)
    requires Table(data, order, vertexMap, vertices) && order == FirstSeen(seen)
    ensures r.Raised? <==> FaceKeys(data, tokens).Raised?
    ensures r.Raised? ==> r.exc == FaceKeys(data, tokens).exc
    ensures r.Ok? ==>
      && keys == FaceKeys(data, tokens).value
      && Table(data, order', vertexMap', vertices') && order' == FirstSeen(seen + keys) && order <= order'
      && |r.value| == |keys|
      && forall i :: 0 <= i < |keys| ==> keys[i] in order' && r.value[i] == Position(order', keys[i])
  {
    vertexMap', vertices', order', keys := vertexMap, vertices, order, [];
    assert seen + keys == seen;
    var faceIndices: seq<nat> := [];
    for t := 0 to |tokens|
      invariant FaceKeys(data, tokens[..t]) == Ok(keys)
      invariant Table(data, order', vertexMap', vertices') && order' == FirstSeen(seen + keys) && order <= order'
      invariant |faceIndices| == |keys|
      invariant forall i :: 0 <= i < |keys| ==> keys[i] in order' && faceIndices[i] == Position(order', keys[i])
    {
      var index;
      ghost var key;
      index, vertexMap', vertices', order', key := ReadToken(data, tokens, t, vertexMap', vertices', order', seen, keys, faceIndices);
      if index.Raised? {
        return Raised(index.exc), vertexMap', vertices', order', keys;
      }
      keys := keys + [key];
      faceIndices := faceIndices + [index.value];
    }
    assert tokens[..|tokens|] == tokens;
    r := Ok(faceIndices);
  }

  /** One pass of the token loop: the token's key, then the index emit_vertex gives it. */
  method ReadToken(data: ObjData, tokens: seq<string>, t: nat, vertexMap: map<Key, nat>, vertices: seq<Vertex>, ghost order: seq<Key>,
                   ghost seen: seq<Key>, ghost keys: seq<Key>, faceIndices: seq<nat>)
    returns (index: Outcome<nat>, vertexMap': map<Key, nat>, vertices': seq<Vertex>, ghost order': seq<Key>, ghost key: Key)
    requires t < |tokens| && FaceKeys(data, tokens[..t]) == Ok(keys)
    requires Table(data, order, vertexMap, vertices) && order == FirstSeen(seen + keys)
    requires |faceIndices| == |keys|
    requires forall i :: 0 <= i < |keys| ==> keys[i] in order && faceIndices[i] == Position(order, keys[i])
    ensures index.Raised? ==> FaceKeys(data, tokens) == Raised(index.exc)
    ensures index.Ok? ==>
      && FaceKeys(data, tokens[..t + 1]) == Ok(keys + [key])
      && Table(data, order', vertexMap', vertices') && order' == FirstSeen(seen + (keys + [key])) && order <= order'
      && forall i :: 0 <= i < |keys| + 1 ==> (keys + [key])[i] in order' && (faceIndices + [index.value])[i] == Position(order', (keys + [key])[i])
  {
    var parsed := TokenKey(tokens[t]);
    if parsed.Raised? {
      assert FaceKeys(data, tokens) == Raised(parsed.exc) by {
        assert tokens[..t + 1][..t] == tokens[..t];
        FaceKeysStops(data, tokens, t + 1);
      }
      return Raised(parsed.exc), vertexMap, vertices, order, Key(0, 0, 0);
    }
    var k := parsed.value;
    key := k;
    index, vertexMap', vertices', order' := EmitVertex(data, k, vertexMap, vertices, order);
    if index.Raised? {
      assert FaceKeys(data, tokens) == Raised(index.exc) by {
        assert tokens[..t + 1][..t] == tokens[..t];
        FaceKeysStops(data, tokens, t + 1);
      }
      return;
    }
    TokenRead(data, tokens, t, order, seen, keys, faceIndices, key, order', index.value);
  }

  /** The facts one successful pass of the token loop re-establishes. */
  lemma TokenRead(data: ObjData, tokens: seq<string>, t: nat, order: seq<Key>, seen: seq<Key>, keys: seq<Key>,
                  faceIndices: seq<nat>, key: Key, order': seq<Key>, index: nat)
    requires t < |tokens| && FaceKeys(data, tokens[..t]) == Ok(keys)
    requires order == FirstSeen(seen + keys) && |faceIndices| == |keys|
    requires forall i :: 0 <= i < |keys| ==> keys[i] in order && faceIndices[i] == Position(order, keys[i])
    requires TokenKey(tokens[t]) == Ok(key) && Resolvable(data, key)
    requires order' == (if key in order then order else order + [key]) && index == Position(order', key)
    ensures FaceKeys(data, tokens[..t + 1]) == Ok(keys + [key])
    ensures order' == FirstSeen(seen + (keys + [key])) && order <= order'
    ensures forall i :: 0 <= i < |keys| + 1 ==> (keys + [key])[i] in order' && (faceIndices + [index])[i] == Position(order', (keys + [key])[i])
  {
    FaceKeysStep(data, tokens, t, keys, key);
    FirstSeenStep(seen, keys, key);
    PositionsKept(keys, faceIndices, order, order');
    PositionsAppend(keys, faceIndices, order', key, index);
  }

  /** The fan triangulation loop: `indices.extend([face_indices[0], face_indices[i],
      face_indices[i + 1]])` for i from 1 to len - 2. */
  method AppendFan(indices: seq<nat>, faceIndices: seq<nat>) returns (indices': seq<nat>)
    ensures indices' == indices + Fan(faceIndices)
  {
    indices' := indices;
    var i := 1;
    while i < |faceIndices| - 1
      invariant 1 <= i
      invariant i + 1 <= |faceIndices| ==> indices' == indices + Fan(faceIndices[..i + 1])
      invariant |faceIndices| < 3 ==> indices' == indices
      invariant |faceIndices| >= 3 ==> i <= |faceIndices| - 1
    {
      var v := faceIndices[..i + 2];
      assert v[..|v| - 1] == faceIndices[..i + 1];
      indices' := indices' + [faceIndices[0], faceIndices[i], faceIndices[i + 1]];
      i := i + 1;
    }
    if |faceIndices| >= 3 {
      assert faceIndices[..i + 1] == faceIndices;
    }
  }

  /** Triangulating the indices is triangulating the keys, then looking each corner up. */
  lemma {:induction false} FanMapped(keys: seq<Key>, faceIndices: seq<nat>, order: seq<Key>)
    requires |faceIndices| == |keys|
    requires forall i :: 0 <= i < |keys| ==> keys[i] in order && faceIndices[i] == Position(order, keys[i])
    ensures |Fan(faceIndices)| == |Fan(keys)|
    ensures forall t :: 0 <= t < |Fan(keys)| ==> Fan(keys)[t] in order && Fan(faceIndices)[t] == Position(order, Fan(keys)[t])
  {
    if |keys| >= 3 {
      FanMapped(keys[..|keys| - 1], faceIndices[..|keys| - 1], order);
    }
  }

  /** The faces of the first elements, then some faces of the next, come first. */
  lemma {:induction false} FacesPrefix(elements: seq<Element>, e: nat, f: nat)
    requires e < |elements| && f <= |elements[e].faces|
    ensures Faces(elements[..e]) + elements[e].faces[..f] <= Faces(elements)
    decreases |elements|
  {
    var init := elements[..|elements| - 1];
    if e < |elements| - 1 {
      assert init[..e] == elements[..e] && init[e] == elements[e];
      FacesPrefix(init, e, f);
    } else {
      assert init == elements[..e];
    }
  }

  /** An exception in a face ends the surface. */
  lemma {:induction false} AllKeysStops(data: ObjData, faces: seq<string>, prefix: seq<string>)
    requires prefix <= faces && AllKeys(data, prefix).Raised?
    ensures AllKeys(data, faces) == AllKeys(data, prefix)
    decreases |faces|
  {
    if |prefix| < |faces| {
      AllKeysStops(data, faces[..|faces| - 1], prefix);
    } else {
      assert prefix == faces;
    }
  }

  /** The state of the loops of _build_surface: vertex_map, vertex_data and indices. */
  datatype Build = Build(vertexMap: map<Key, nat>, vertices: seq<Vertex>, indices: seq<nat>)

  /** The state after the faces whose keys are `done`: the vertex table of their keys in
      first-seen order, and the position of each corner of their triangles. */
  ghost predicate Built(data: ObjData, b: Build, order: seq<Key>, done: seq<seq<Key>>) {
    && Table(data, order, b.vertexMap, b.vertices) && order == FirstSeen(Flatten(done))
    && |b.indices| == |Corners(done)|
    && forall t :: 0 <= t < |b.indices| ==> Corners(done)[t] in order && b.indices[t] == Position(order, Corners(done)[t])
  }

  /** One pass of the face loop of _build_surface: the face's vertices emitted, then its
      fan of triangles appended to the indices. */
  method TriangulateFace(data: ObjData, face: string, b: Build, ghost order: seq<Key>, ghost done: seq<seq<Key>>)
    returns (o: Outcome<Build>, ghost order': seq<Key>, ghost keys: seq<Key>)
    requires Built(data, b, order, done)
    ensures o.Raised? <==> FaceKeys(data, Tokens(face)).Raised?
    ensures o.Raised? ==> o.exc == FaceKeys(data, Tokens(face)).exc
    ensures o.Ok? ==> keys == FaceKeys(data, Tokens(face)).value && Built(data, o.value, order', done + [keys])
  {
    var faceIndices, vertexMap, vertices;
    faceIndices, vertexMap, vertices, order', keys := FaceIndices(data, Tokens(face), b.vertexMap, b.vertices, order, Flatten(done));
    if faceIndices.Raised? {
      return Raised(faceIndices.exc), order', keys;
    }
    PositionsKept(Corners(done), b.indices, order, order');
    var indices := AppendFan(b.indices, faceIndices.value);
    FanMapped(keys, faceIndices.value, order');
    CornersStep(done, keys);
    o := Ok(Build(vertexMap, vertices, indices));
  }

  /** The face loop of _build_surface over the faces of one element. */
  method TriangulateElement(data: ObjData, faces: seq<string>, b: Build, ghost order: seq<Key>, ghost done: seq<seq<Key>>, ghost read: seq<string>)
    returns (o: Outcome<Build>, ghost order': seq<Key>, ghost done': seq<seq<Key>>)
    requires AllKeys(data, read) == Ok(done) && Built(data, b, order, done)
    ensures o.Raised? ==> AllKeys(data, read + faces) == Raised(o.exc)
    ensures o.Ok? ==> AllKeys(data, read + faces) == Ok(done') && Built(data, o.value, order', done')
  {
    var current := b;
    order', done' := order, done;
    assert read + faces[..0] == read;
    for f := 0 to |faces|
      invariant AllKeys(data, read + faces[..f]) == Ok(done') && Built(data, current, order', done')
    {
      var next;
      ghost var keys;
      next, order', keys := ReadFace(data, read, faces, f, current, order', done');
      if next.Raised? {
        return Raised(next.exc), order', done';
      }
      current := next.value;
      done' := done' + [keys];
    }
    assert read + faces[..|faces|] == read + faces;
    o := Ok(current);
  }

  /** One pass of the face loop, stated against the faces read so far. */
  method ReadFace(data: ObjData, ghost read: seq<string>, faces: seq<string>, f: nat, b: Build, ghost order: seq<Key>, ghost done: seq<seq<Key>>)
    returns (o: Outcome<Build>, ghost order': seq<Key>, ghost keys: seq<Key>)
    requires f < |faces| && AllKeys(data, read + faces[..f]) == Ok(done) && Built(data, b, order, done)
    ensures o.Raised? ==> AllKeys(data, read + faces) == Raised(o.exc)
    ensures o.Ok? ==> AllKeys(data, read + faces[..f + 1]) == Ok(done + [keys]) && Built(data, o.value, order', done + [keys])
  {
    o, order', keys := TriangulateFace(data, faces[f], b, order, done);
    Snoc(read, faces, f);
    AllKeysSnoc(data, read + faces[..f], faces[f]);
    if o.Raised? {
      AllKeysStops(data, read + faces, read + faces[..f + 1]);
    }
  }

  lemma Snoc<T>(a: seq<T>, b: seq<T>, f: nat)
    requires f < |b|
    ensures a + b[..f + 1] == (a + b[..f]) + [b[f]]
  {
    assert b[..f + 1] == b[..f] + [b[f]];
  }

  /** One more face read into a surface. */
  lemma AllKeysSnoc(data: ObjData, before: seq<string>, face: string)
    ensures AllKeys(data, before + [face]) == match AllKeys(data, before)
      case Raised(e) => Raised(e)
      case Ok(done) =>
        match FaceKeys(data, Tokens(face))
        case Raised(e) => Raised(e)
        case Ok(keys) => Ok(done + [keys])
  {
    var s := before + [face];
    assert s[..|s| - 1] == before && s[|s| - 1] == face;
  }

  /** _build_surface: the surface the faces of the elements make, if they make triangles;
      the first exception a token raises otherwise ends the load. */
  method BuildSurface(data: ObjData, elements: seq<Element>, material: Option<string>) returns (r: Outcome<Option<Surface>>)
    ensures r == SurfaceOf(data, elements, material)
  {
    var b := Build(map[], [], []);
    ghost var order: seq<Key> := [];
    ghost var done: seq<seq<Key>> := [];
    for e := 0 to |elements|
      invariant AllKeys(data, Faces(elements[..e])) == Ok(done) && Built(data, b, order, done)
    {
      assert elements[..e + 1][..e] == elements[..e];
      var next;
      next, order, done := TriangulateElement(data, elements[e].faces, b, order, done, Faces(elements[..e]));
      if next.Raised? {
        FacesPrefix(elements, e, |elements[e].faces|);
        assert elements[e].faces[..|elements[e].faces|] == elements[e].faces;
        AllKeysStops(data, Faces(elements), Faces(elements[..e + 1]));
        return Raised(next.exc);
      }
      b := next.value;
    }
    assert elements[..|elements|] == elements;
    BuiltSurface(data, elements, material, b, order, done);
    if |b.indices| == 0 {
      return Ok(None);
    }
    var vertexCount := |b.vertexMap|;
    var indexType := if vertexCount > 65535 then 1 else 0;
    return Ok(Some(Surface(b.vertices, b.indices, indexType, material)));
  }

  /** What the loops have built once every face is read is the surface. */
  lemma BuiltSurface(data: ObjData, elements: seq<Element>, material: Option<string>, b: Build, order: seq<Key>, done: seq<seq<Key>>)
    requires AllKeys(data, Faces(elements)) == Ok(done) && Built(data, b, order, done)
    ensures SurfaceOf(data, elements, material) ==
      if |b.indices| == 0 then Ok(None) else Ok(Some(Surface(b.vertices, b.indices, IndexType(|b.vertexMap|), material)))
  {
    var corners := Corners(done);
    assert b.indices == seq(|corners|, t requires 0 <= t < |corners| => Position(order, corners[t]));
    IndexedFacts(order, Key(0, 0, 0));
  }

  lemma CornersStep(done: seq<seq<Key>>, keys: seq<Key>)
    ensures Corners(done + [keys]) == Corners(done) + Fan(keys)
    ensures Flatten(done + [keys]) == Flatten(done) + keys
  {
    assert (done + [keys])[..|done|] == done;
  }

  /** The vertex of the i-th key inserted is the vertex of that key. */
  lemma {:induction false} VerticesOfAt(data: ObjData, order: seq<Key>, i: nat)
    requires i < |order|
    ensures VerticesOf(data, order)[i] == VertexAt(data, order[i])
  {
    if i < |order| - 1 {
      VerticesOfAt(data, order[..|order| - 1], i);
    }
  }

  /** The corners of a fan are corners of its polygon. */
  lemma {:induction false} FanIn<T>(v: seq<T>)
    ensures forall t :: 0 <= t < |Fan(v)| ==> Fan(v)[t] in v
  {
    if |v| >= 3 {
      var init := v[..|v| - 1];
      FanIn(init);
      forall t | 0 <= t < |Fan(init)|
        ensures Fan(init)[t] in v
      {
        assert Fan(init)[t] in init;
      }
    }
  }

  /** Every triangle corner is a key of some face. */
  lemma {:induction false} CornersIn<T>(faces: seq<seq<T>>)
    ensures forall t :: 0 <= t < |Corners(faces)| ==> Corners(faces)[t] in Flatten(faces)
  {
    if |faces| > 0 {
      var init := faces[..|faces| - 1];
      var last := faces[|faces| - 1];
      CornersIn(init);
      FanIn(last);
      forall t | 0 <= t < |Corners(faces)|
        ensures Corners(faces)[t] in Flatten(faces)
      {
        if t < |Corners(init)| {
          assert Corners(faces)[t] == Corners(init)[t];
        } else {
          assert Corners(faces)[t] == Fan(last)[t - |Corners(init)|];
        }
      }
    }
  }

  /** The fan of a polygon with k >= 3 corners is k - 2 triangles, the i-th of which is
      (v0, v[i + 1], v[i + 2]); a polygon with fewer corners gives no triangle. */
  lemma {:induction false} FanShape<T>(v: seq<T>)
    ensures |v| < 3 ==> Fan(v) == []
    ensures |v| >= 3 ==> |Fan(v)| == 3 * (|v| - 2)
    ensures forall i :: 0 <= i < |v| - 2 ==> Fan(v)[3 * i] == v[0] && Fan(v)[3 * i + 1] == v[i + 1] && Fan(v)[3 * i + 2] == v[i + 2]
  {
    if |v| >= 3 {
      var init := v[..|v| - 1];
      FanShape(init);
      forall i | 0 <= i < |v| - 2
        ensures Fan(v)[3 * i] == v[0] && Fan(v)[3 * i + 1] == v[i + 1] && Fan(v)[3 * i + 2] == v[i + 2]
      {
        if i < |v| - 3 {
          assert Fan(v)[3 * i] == Fan(init)[3 * i];
          assert Fan(v)[3 * i + 1] == Fan(init)[3 * i + 1];
          assert Fan(v)[3 * i + 2] == Fan(init)[3 * i + 2];
        }
      }
    }
  }

  /** No triangle at all exactly when every face has fewer than three corners. */
  lemma {:induction false} CornersEmpty<T>(faces: seq<seq<T>>)
    ensures |Corners(faces)| == 0 <==> forall i :: 0 <= i < |faces| ==> |faces[i]| < 3
  {
    if |faces| > 0 {
      var init := faces[..|faces| - 1];
      CornersEmpty(init);
      FanShape(faces[|faces| - 1]);
      assert forall i :: 0 <= i < |init| ==> init[i] == faces[i];
    }
  }

  /** The surface the faces make: one vertex per distinct key, one index per triangle
      corner, each index naming a vertex packed from that corner's key; no surface at all
      when there is no triangle. */
  lemma SurfaceMeaning(data: ObjData, elements: seq<Element>, material: Option<string>, faces: seq<seq<Key>>)
    requires AllKeys(data, Faces(elements)) == Ok(faces)
    ensures SurfaceOf(data, elements, material).Ok?
    ensures SurfaceOf(data, elements, material).value.None? <==> forall i :: 0 <= i < |faces| ==> |faces[i]| < 3
    ensures SurfaceOf(data, elements, material).value.Some? ==>
      var srf := SurfaceOf(data, elements, material).value.value;
      && |srf.vertices| == |FirstSeen(Flatten(faces))| && |srf.indices| == |Corners(faces)| && srf.material == material
      && forall t :: 0 <= t < |srf.indices| ==> srf.indices[t] < |srf.vertices| && srf.vertices[srf.indices[t]] == VertexAt(data, Corners(faces)[t])
  {
    CornersEmpty(faces);
    CornersIn(faces);
    var order := FirstSeen(Flatten(faces));
    var corners := Corners(faces);
    if |corners| > 0 {
      var srf := SurfaceOf(data, elements, material).value.value;
      forall t | 0 <= t < |srf.indices|
        ensures srf.indices[t] < |srf.vertices| && srf.vertices[srf.indices[t]] == VertexAt(data, corners[t])
      {
        assert corners[t] in order;
        VerticesOfAt(data, order, Position(order, corners[t]));
      }
    }
  }

  /** Two corners share an index exactly when they have the same (pi, ni, ti) key. */
  lemma SameKeySameIndex(data: ObjData, elements: seq<Element>, material: Option<string>, faces: seq<seq<Key>>, t: nat, u: nat)
    requires AllKeys(data, Faces(elements)) == Ok(faces)
    requires SurfaceOf(data, elements, material).Ok? && SurfaceOf(data, elements, material).value.Some?
    requires t < |SurfaceOf(data, elements, material).value.value.indices|
    requires u < |SurfaceOf(data, elements, material).value.value.indices|
    ensures var indices := SurfaceOf(data, elements, material).value.value.indices;
      indices[t] == indices[u] <==> Corners(faces)[t] == Corners(faces)[u]
  {
    CornersIn(faces);
    var order := FirstSeen(Flatten(faces));
    var corners := Corners(faces);
    assert corners[t] in order && corners[u] in order;
  }

  /** 32-bit indices exactly when there are more than 65535 vertices; 16-bit indices
      always fit. */
  lemma IndexWidth(data: ObjData, elements: seq<Element>, material: Option<string>, faces: seq<seq<Key>>)
    requires AllKeys(data, Faces(elements)) == Ok(faces)
    requires SurfaceOf(data, elements, material).Ok? && SurfaceOf(data, elements, material).value.Some?
    ensures var srf := SurfaceOf(data, elements, material).value.value;
      && (srf.indexType == 1 <==> |srf.vertices| > 65535)
      && (srf.indexType == 0 ==> forall t :: 0 <= t < |srf.indices| ==> srf.indices[t] < 65536)
  {
    SurfaceMeaning(data, elements, material, faces);
  }

  /** str(n) holds a sign and digits, never a slash. */
  lemma ShowNoSlash(n: int)
    ensures '/' !in Show(n)
  {
    if n < 0 {
      assert Show(n) == "-" + Decimal(-n);
      assert '/' !in Decimal(-n);
    } else {
      assert '/' !in Decimal(n);
    }
  }

  /** Splitting on a separator the first piece does not hold cuts right after it. */
  lemma {:induction false} SplitOnFirst(a: string, b: string, sep: char)
    requires sep !in a
    ensures SplitOn(a + [sep] + b, sep) == [a] + SplitOn(b, sep)
  {
    IndexOfAfter(a, b, sep);
    var s := a + [sep] + b;
    assert s[..|a|] == a && s[|a| + 1..] == b;
  }

  lemma {:induction false} IndexOfAfter(a: string, b: string, sep: char)
    requires sep !in a
    ensures sep in a + [sep] + b && IndexOf(a + [sep] + b, sep) == |a|
  {
    var s := a + [sep] + b;
    assert s[|a|] == sep;
    if |a| > 0 {
      assert s[1..] == a[1..] + [sep] + b;
      IndexOfAfter(a[1..], b, sep);
    }
  }

  /** A token `p` names position p - 1 and neither a normal nor a uv. */
  lemma TokenPosition(p: int)
    ensures TokenKey(Show(p)) == Ok(Key(p - 1, -1, -1))
  {
    ShowNoSlash(p);
    ParseShow(p);
  }

  /** The pieces of `a/b`, `a//c` and `a/b/c` for pieces without a slash. */
  lemma SplitSlashes(a: string, b: string, c: string)
    requires '/' !in a && '/' !in b && '/' !in c
    ensures SplitOn(a + "/" + b, '/') == [a, b]
    ensures SplitOn(a + "//" + c, '/') == [a, "", c]
    ensures SplitOn(a + "/" + b + "/" + c, '/') == [a, b, c]
  {
    assert a + "/" + b == a + ['/'] + b;
    SplitOnFirst(a, b, '/');
    assert a + "//" + c == a + ['/'] + "" + ['/'] + c;
    SplitTwice(a, "", c);
    assert a + "/" + b + "/" + c == a + ['/'] + b + ['/'] + c;
    SplitTwice(a, b, c);
  }

  lemma SplitTwice(a: string, b: string, c: string)
    requires '/' !in a && '/' !in b && '/' !in c
    ensures SplitOn(a + ['/'] + b + ['/'] + c, '/') == [a, b, c]
  {
    assert a + ['/'] + b + ['/'] + c == a + ['/'] + (b + ['/'] + c);
    SplitOnFirst(a, b + ['/'] + c, '/');
    SplitOnFirst(b, c, '/');
  }

  /** The key of a token whose pieces int() reads as p, then t or nothing, then n or
      nothing. */
  lemma TokenOfPieces(token: string, pieces: seq<string>, p: int, t: int, n: int)
    requires SplitOn(token, '/') == pieces && 2 <= |pieces| <= 3
    requires ParseInt(pieces[0]) == Ok(p)
    requires |pieces[1]| > 0 ==> ParseInt(pieces[1]) == Ok(t)
    requires |pieces| == 3 ==> |pieces[2]| > 0 && ParseInt(pieces[2]) == Ok(n)
    ensures TokenKey(token) == Ok(Key(p - 1, if |pieces| == 3 then n - 1 else -1, if |pieces[1]| > 0 then t - 1 else -1))
  {
  }

  /** A token `p/t` names position p - 1 and uv t - 1; `p//n` position p - 1 and normal
      n - 1; `p/t/n` position p - 1, uv t - 1 and normal n - 1: the fields come in the order
      position, texture coordinate, normal, and each is read 1-based. */
  lemma TokenFull(p: int, t: int, n: int)
    ensures TokenKey(Show(p) + "/" + Show(t)) == Ok(Key(p - 1, -1, t - 1))
    ensures TokenKey(Show(p) + "//" + Show(n)) == Ok(Key(p - 1, n - 1, -1))
    ensures TokenKey(Show(p) + "/" + Show(t) + "/" + Show(n)) == Ok(Key(p - 1, n - 1, t - 1))
  {
    ShowNoSlash(p);
    ShowNoSlash(t);
    ShowNoSlash(n);
    ParseShow(p);
    ParseShow(t);
    ParseShow(n);
    SplitSlashes(Show(p), Show(t), Show(n));
    TokenOfPieces(Show(p) + "/" + Show(t), [Show(p), Show(t)], p, t, n);
    TokenOfPieces(Show(p) + "//" + Show(n), [Show(p), "", Show(n)], p, t, n);
    TokenOfPieces(Show(p) + "/" + Show(t) + "/" + Show(n), [Show(p), Show(t), Show(n)], p, t, n);
  }

  /** The vertex of a corner `p` with 1 <= p <= len(positions): that position, the
      default normal (0, 1, 0) and the default uv (0, 0). */
  lemma PositionOnlyVertex(data: ObjData, p: int)
    requires 1 <= p <= |data.positions|
    ensures TokenKey(Show(p)) == Ok(Key(p - 1, -1, -1))
    ensures VertexAt(data, Key(p - 1, -1, -1)) == Vertex(data.positions[p - 1], Up, (0.0, 0.0))
  {
    TokenPosition(p);
  }

  /** The vertex of a corner `p/t/n` with every index in range (whose key TokenFull gives)
      is read 1-based from the three lists. */
  lemma FullVertex(data: ObjData, p: int, t: int, n: int)
    requires 1 <= p <= |data.positions| && 1 <= t <= |data.uvs| && 1 <= n <= |data.normals|
    ensures VertexAt(data, Key(p - 1, n - 1, t - 1)) == Vertex(data.positions[p - 1], data.normals[n - 1], data.uvs[t - 1])
  {
  }

  /** OBJ's relative index `-1` (the newest position) becomes pi = -2, which Python's
      indexing reads as the second-to-last position. */
  lemma RelativeIndexShift(data: ObjData)
    requires |data.positions| >= 2
    ensures TokenKey(Show(-1)) == Ok(Key(-2, -1, -1))
    ensures VertexAt(data, Key(-2, -1, -1)).position == data.positions[|data.positions| - 2]
  {
    TokenPosition(-1);
  }
}
