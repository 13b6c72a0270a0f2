// The assembling half of the OBJ loader (MeshLoaderOBJ._build_mesh and load): the elements
// are put in buckets by material, group or object name, in the order their keys first
// occur, and each bucket becomes at most one surface of the mesh.
module ObjMesh {
  import opened Wrappers
  import opened DictOrder
  import opened ObjParse
  import opened ObjSurface

  /** SurfaceSplitMode: which name of an element decides its surface. */
  datatype SplitMode = ByMaterial | ByGroup | ByObject

  /** The bucket key of an element under a split mode. */
  function BucketKey(mode: SplitMode, e: Element): Option<string> {
    match mode
    case ByMaterial => e.materialName
    case ByGroup => e.groupName
    case ByObject => e.objectName
  }

  /** The bucket key of every element, in order. */
  function KeysOf(mode: SplitMode, elements: seq<Element>): (ks: seq<Option<string>>)
    ensures |ks| == |elements|
  {
    if |elements| == 0 then [] else KeysOf(mode, elements[..|elements| - 1]) + [BucketKey(mode, elements[|elements| - 1])]
  }

  /** The elements whose key is `key`, in their order. */
  function Bucket(mode: SplitMode, elements: seq<Element>, key: Option<string>): seq<Element> {
    if |elements| == 0 then []
    else
      var last := elements[|elements| - 1];
      Bucket(mode, elements[..|elements| - 1], key) + (if BucketKey(mode, last) == key then [last] else [])
  }

  /** The state of the bucket loop after the first elements: the dict's keys in insertion
      order, and for each the list of its elements so far. */
  ghost predicate Bucketed(mode: SplitMode, elements: seq<Element>, keys: seq<Option<string>>, buckets: map<Option<string>, seq<Element>>) {
    && keys == FirstSeen(KeysOf(mode, elements))
    && (forall k :: k in buckets <==> k in keys)
    && forall k :: k in buckets ==> buckets[k] == Bucket(mode, elements, k)
  }

  /** `buckets.setdefault(key, []).append(element)` for every element. */
  method GroupElements(mode: SplitMode, elements: seq<Element>) returns (keys: seq<Option<string>>, buckets: map<Option<string>, seq<Element>>)
    ensures Bucketed(mode, elements, keys, buckets)
  {
    keys, buckets := [], map[];
    for i := 0 to |elements|
      invariant Bucketed(mode, elements[..i], keys, buckets)
    {
      var key := BucketKey(mode, elements[i]);
      assert elements[..i + 1] == elements[..i] + [elements[i]];
      BucketedStep(mode, elements[..i], elements[i], keys, buckets);
      if key in buckets {
        buckets := buckets[key := buckets[key] + [elements[i]]];
      } else {
        keys := keys + [key];
        buckets := buckets[key := [elements[i]]];
      }
    }
    assert elements[..|elements|] == elements;
  }

  /** One more element: a new key goes last with an empty list, then the element joins
      the list of its key. */
  lemma BucketedStep(mode: SplitMode, before: seq<Element>, x: Element, keys: seq<Option<string>>, buckets: map<Option<string>, seq<Element>>)
    requires Bucketed(mode, before, keys, buckets)
    ensures BucketKey(mode, x) in buckets ==>
      Bucketed(mode, before + [x], keys, buckets[BucketKey(mode, x) := buckets[BucketKey(mode, x)] + [x]])
    ensures BucketKey(mode, x) !in buckets ==>
      Bucketed(mode, before + [x], keys + [BucketKey(mode, x)], buckets[BucketKey(mode, x) := [x]])
  {
    if BucketKey(mode, x) in buckets {
      BucketedAppend(mode, before, x, keys, buckets);
    } else {
      BucketedAdd(mode, before, x, keys, buckets);
    }
  }

  /** An element whose key has a list joins the end of that list. */
  lemma BucketedAppend(mode: SplitMode, before: seq<Element>, x: Element, keys: seq<Option<string>>, buckets: map<Option<string>, seq<Element>>)
    requires Bucketed(mode, before, keys, buckets) && BucketKey(mode, x) in buckets
    ensures Bucketed(mode, before + [x], keys, buckets[BucketKey(mode, x) := buckets[BucketKey(mode, x)] + [x]])
  {
    var key := BucketKey(mode, x);
    var buckets' := buckets[key := buckets[key] + [x]];
    assert keys == FirstSeen(KeysOf(mode, before + [x])) by {
      KeysSnoc(mode, before, x);
      assert key in keys;
    }
    assert forall k :: k in buckets' <==> k in keys;
    forall k | k in buckets'
      ensures buckets'[k] == Bucket(mode, before + [x], k)
    {
      BucketSnoc(mode, before, x, k);
    }
  }

  /** An element with a new key starts a list of its own, whose key goes last. */
  lemma BucketedAdd(mode: SplitMode, before: seq<Element>, x: Element, keys: seq<Option<string>>, buckets: map<Option<string>, seq<Element>>)
    requires Bucketed(mode, before, keys, buckets) && BucketKey(mode, x) !in buckets
    ensures Bucketed(mode, before + [x], keys + [BucketKey(mode, x)], buckets[BucketKey(mode, x) := [x]])
  {
    var key := BucketKey(mode, x);
    var buckets' := buckets[key := [x]];
    assert key !in KeysOf(mode, before) by {
      assert key !in keys;
    }
    assert keys + [key] == FirstSeen(KeysOf(mode, before + [x])) by {
      KeysSnoc(mode, before, x);
    }
    assert Bucket(mode, before, key) == [] by {
      BucketNonEmpty(mode, before, key);
    }
    assert forall k :: k in buckets' <==> k in keys + [key];
    forall k | k in buckets'
      ensures buckets'[k] == Bucket(mode, before + [x], k)
    {
      BucketSnoc(mode, before, x, k);
      if k == key {
        assert [] + [x] == [x];
      } else {
        assert buckets'[k] == buckets[k];
      }
    }
  }

  lemma KeysSnoc(mode: SplitMode, before: seq<Element>, x: Element)
    ensures KeysOf(mode, before + [x]) == KeysOf(mode, before) + [BucketKey(mode, x)]
    ensures FirstSeen(KeysOf(mode, before + [x])) ==
      var f := FirstSeen(KeysOf(mode, before));
      if BucketKey(mode, x) in f then f else f + [BucketKey(mode, x)]
  {
    assert (before + [x])[..|before|] == before;
    var ks := KeysOf(mode, before);
    assert (ks + [BucketKey(mode, x)])[..|ks|] == ks;
  }

  lemma BucketSnoc(mode: SplitMode, before: seq<Element>, x: Element, k: Option<string>)
    ensures Bucket(mode, before + [x], k) == Bucket(mode, before, k) + (if BucketKey(mode, x) == k then [x] else [])
  {
    assert (before + [x])[..|before|] == before;
  }

  /** An element is in a bucket exactly when the bucket is for its key. */
  lemma {:induction false} BucketMembers(mode: SplitMode, elements: seq<Element>, key: Option<string>, x: Element)
    ensures x in Bucket(mode, elements, key) <==> x in elements && BucketKey(mode, x) == key
  {
    if |elements| > 0 {
      var init := elements[..|elements| - 1];
      BucketMembers(mode, init, key, x);
      assert elements == init + [elements[|elements| - 1]];
    }
  }

  /** The key of the i-th element is the i-th key. */
  lemma {:induction false} KeysOfAt(mode: SplitMode, elements: seq<Element>, i: nat)
    requires i < |elements|
    ensures KeysOf(mode, elements)[i] == BucketKey(mode, elements[i])
  {
    if i < |elements| - 1 {
      KeysOfAt(mode, elements[..|elements| - 1], i);
    }
  }

  /** A bucket holds something exactly when some element has its key. */
  lemma {:induction false} BucketNonEmpty(mode: SplitMode, elements: seq<Element>, key: Option<string>)
    ensures |Bucket(mode, elements, key)| > 0 <==> key in KeysOf(mode, elements)
  {
    if |elements| > 0 {
      var init := elements[..|elements| - 1];
      BucketNonEmpty(mode, init, key);
      assert KeysOf(mode, elements) == KeysOf(mode, init) + [BucketKey(mode, elements[|elements| - 1])];
    }
  }

  /** The buckets share out the elements: the bucket sizes over the distinct keys add up
      to the number of elements. */
  lemma {:induction false} BucketsPartition(mode: SplitMode, elements: seq<Element>)
    ensures SizeSum(mode, elements, FirstSeen(KeysOf(mode, elements))) == |elements|
  {
    if |elements| > 0 {
      var init := elements[..|elements| - 1];
      var last := elements[|elements| - 1];
      var key := BucketKey(mode, last);
      var keys := FirstSeen(KeysOf(mode, init));
      BucketsPartition(mode, init);
      assert elements == init + [last];
      KeysSnoc(mode, init, last);
      SizeSumGrow(mode, init, last, keys);
      if key !in keys {
        BucketNonEmpty(mode, init, key);
        SizeSumAppend(mode, elements, keys, key);
        BucketSnoc(mode, init, last, key);
      }
    }
  }

  /** The sum of the bucket sizes over some keys. */
  function SizeSum(mode: SplitMode, elements: seq<Element>, keys: seq<Option<string>>): nat {
    if |keys| == 0 then 0 else SizeSum(mode, elements, keys[..|keys| - 1]) + |Bucket(mode, elements, keys[|keys| - 1])|
  }

  lemma SizeSumAppend(mode: SplitMode, elements: seq<Element>, keys: seq<Option<string>>, key: Option<string>)
    ensures SizeSum(mode, elements, keys + [key]) == SizeSum(mode, elements, keys) + |Bucket(mode, elements, key)|
  {
    assert (keys + [key])[..|keys|] == keys;
  }

  /** One more element adds one to the bucket of its key, if that key is among `keys`
      without repeats. */
  lemma {:induction false} SizeSumGrow(mode: SplitMode, init: seq<Element>, last: Element, keys: seq<Option<string>>)
    requires Distinct(keys)
    ensures SizeSum(mode, init + [last], keys) == SizeSum(mode, init, keys) + (if BucketKey(mode, last) in keys then 1 else 0)
  {
    var elements := init + [last];
    assert elements[..|elements| - 1] == init;
    if |keys| > 0 {
      SizeSumGrow(mode, init, last, keys[..|keys| - 1]);
      assert keys == keys[..|keys| - 1] + [keys[|keys| - 1]];
    }
  }

  /** `materials.get(material_name) if material_name else None`: the bucket's key names
      its material when it is a nonempty name the MTL file defines. */
  function MaterialFor(key: Option<string>, materials: set<string>): (m: Option<string>)
    ensures m.Some? <==> key.Some? && |key.value| > 0 && key.value in materials
    ensures m.Some? ==> m == key
  {
    if key.Some? && |key.value| > 0 && key.value in materials then key else None
  }

  /** The surfaces of the buckets of `keys`, bucket by bucket, skipping those without
      triangles; the first exception ends the load. */
  function SurfacesOf(data: ObjData, mode: SplitMode, materials: set<string>, keys: seq<Option<string>>): Outcome<seq<Surface>> {
    if |keys| == 0 then Ok([])
    else
      var key := keys[|keys| - 1];
      match SurfacesOf(data, mode, materials, keys[..|keys| - 1])
      case Raised(e) => Raised(e)
      case Ok(done) =>
        match SurfaceOf(data, Bucket(mode, data.elements, key), MaterialFor(key, materials))
        case Raised(e) => Raised(e)
        case Ok(None) => Ok(done)
        case Ok(Some(s)) => Ok(done + [s])
  }

  /** The surfaces _build_mesh adds to the mesh, one bucket after the other in the order in
      which the buckets' keys first occur. */
  function MeshOf(data: ObjData, mode: SplitMode, materials: set<string>): Outcome<seq<Surface>> {
    SurfacesOf(data, mode, materials, FirstSeen(KeysOf(mode, data.elements)))
  }

  lemma SurfacesSnoc(data: ObjData, mode: SplitMode, materials: set<string>, keys: seq<Option<string>>, i: nat)
    requires i < |keys|
    ensures SurfacesOf(data, mode, materials, keys[..i + 1]) ==
      match SurfacesOf(data, mode, materials, keys[..i])
      case Raised(e) => Raised(e)
      case Ok(done) =>
        match SurfaceOf(data, Bucket(mode, data.elements, keys[i]), MaterialFor(keys[i], materials))
        case Raised(e) => Raised(e)
        case Ok(None) => Ok(done)
        case Ok(Some(s)) => Ok(done + [s])
  {
    assert keys[..i + 1][..i] == keys[..i];
  }

  /** An exception in one bucket ends the mesh. */
  lemma {:induction false} SurfacesStop(data: ObjData, mode: SplitMode, materials: set<string>, keys: seq<Option<string>>, k: nat)
    requires k <= |keys| && SurfacesOf(data, mode, materials, keys[..k]).Raised?
    ensures SurfacesOf(data, mode, materials, keys) == SurfacesOf(data, mode, materials, keys[..k])
    decreases |keys| - k
  {
    if k < |keys| {
      var init := keys[..|keys| - 1];
      assert init[..k] == keys[..k];
      SurfacesStop(data, mode, materials, init, k);
    } else {
      assert keys[..k] == keys;
    }
  }

  /** _build_mesh: bucket the elements, then build a surface from each bucket. */
  method BuildMesh(data: ObjData, mode: SplitMode, materials: set<string>) returns (r: Outcome<seq<Surface>>)
    ensures r == MeshOf(data, mode, materials)
  {
    var keys, buckets := GroupElements(mode, data.elements);
    var mesh: seq<Surface> := [];
    for i := 0 to |keys|
      invariant SurfacesOf(data, mode, materials, keys[..i]) == Ok(mesh)
    {
      var key := keys[i];
      var s := BuildSurface(data, buckets[key], MaterialFor(key, materials));
      SurfacesSnoc(data, mode, materials, keys, i);
      if s.Raised? {
        SurfacesStop(data, mode, materials, keys, i + 1);
        return Raised(s.exc);
      }
      if s.value.Some? {
        mesh := mesh + [s.value.value];
      }
    }
    assert keys[..|keys|] == keys;
    r := Ok(mesh);
  }

  /** Every surface of a mesh has triangles, and a surface with a material has one the
      MTL file defines; there is at most one surface per distinct key. */
  lemma {:induction false} SurfacesShape(data: ObjData, mode: SplitMode, materials: set<string>, keys: seq<Option<string>>)
    requires SurfacesOf(data, mode, materials, keys).Ok?
    ensures var mesh := SurfacesOf(data, mode, materials, keys).value;
      && |mesh| <= |keys|
      && forall i :: 0 <= i < |mesh| ==> |mesh[i].indices| > 0 && (mesh[i].material.Some? ==> mesh[i].material.value in materials)
  {
    if |keys| > 0 {
      var key := keys[|keys| - 1];
      var init := keys[..|keys| - 1];
      SurfacesShape(data, mode, materials, init);
      var bucket := Bucket(mode, data.elements, key);
      match AllKeys(data, Faces(bucket))
      case Raised(_) =>
      case Ok(faces) =>
        SurfaceMeaning(data, bucket, MaterialFor(key, materials), faces);
        CornersEmpty(faces);
    }
  }

  /** The mesh load() builds: the surfaces of the buckets by material. The MTL library the
      OBJ file names, if it names one, is read elsewhere; `library` stands for the names it
      defines. */
  function LoadOf(lines: seq<string>, toFloat: FloatParser, library: set<string>): Outcome<seq<Surface>> {
    match Parsed(lines, toFloat)
    case Raised(e) => Raised(e)
    case Ok((data, mtlName)) =>
      var materials := if mtlName.Some? && |mtlName.value| > 0 then library else {};
      MeshOf(data, ByMaterial, materials)
  }

  /** load(): parse, then build the mesh split by material. */
  method Load(lines: seq<string>, toFloat: FloatParser, library: set<string>) returns (r: Outcome<seq<Surface>>)
    ensures r == LoadOf(lines, toFloat, library)
  {
    var parsed := ParseObj(lines, toFloat);
    if parsed.Raised? {
      return Raised(parsed.exc);
    }
    var (data, mtlName) := parsed.value;
    var materials := if mtlName.Some? && |mtlName.value| > 0 then library else {};
    r := BuildMesh(data, ByMaterial, materials);
  }
}
