// The reading half of the OBJ loader (MeshLoaderOBJ._parse_obj): a Wavefront OBJ file,
// line by line, into positions, normals, texture coordinates and elements, an element
// being a run of face lines that share one group, object and material name.
module ObjParse {
  import opened Wrappers
  import opened Vectors
  import opened PyStrings

  /** OBJElement: the names current when its first face was read, and its face lines. */
  datatype Element = Element(groupName: Option<string>, objectName: Option<string>, materialName: Option<string>, faces: seq<string>)

  /** OBJMeshData. */
  datatype ObjData = ObjData(positions: seq<Vec3>, normals: seq<Vec3>, uvs: seq<(real, real)>, elements: seq<Element>)

  /** The locals of _parse_obj between two lines. `open` says that current_element is set;
      it is then the last element of data.elements, the one new faces are appended to. */
  datatype Reader = Reader(
    data: ObjData,
    mtlPath: Option<string>,
    currentGroup: Option<string>,
    currentObject: Option<string>,
    currentMaterial: Option<string>,
    open: bool)

  const Start := Reader(ObjData([], [], [], []), None, None, None, None, false)

  /** Python's float() on one token: it may raise ValueError. Reading decimal floats is
      not part of this model, so the loader takes it as a parameter. */
  type FloatParser = string -> Outcome<real>

  /** An open reader has a current element, and every element was made for a face. */
  predicate Valid(r: Reader) {
    && (r.open ==> |r.data.elements| > 0)
    && forall i :: 0 <= i < |r.data.elements| ==> |r.data.elements[i].faces| > 0
  }

  /** `float(parts[k]) if len(parts) > k else 0.0`. */
  function Component(parts: seq<string>, k: nat, toFloat: FloatParser): Outcome<real> {
    if |parts| > k then toFloat(parts[k]) else Ok(0.0)
  }

  /** The three coordinates of a `v` or `vn` line, read left to right. */
  function Triple(parts: seq<string>, toFloat: FloatParser): Outcome<Vec3> {
    match Component(parts, 1, toFloat)
    case Raised(e) => Raised(e)
    case Ok(x) =>
      match Component(parts, 2, toFloat)
      case Raised(e) => Raised(e)
      case Ok(y) =>
        match Component(parts, 3, toFloat)
        case Raised(e) => Raised(e)
        case Ok(z) => Ok(Vec3(x, y, z))
  }

  /** The two coordinates of a `vt` line. */
  function Pair(parts: seq<string>, toFloat: FloatParser): Outcome<(real, real)> {
    match Component(parts, 1, toFloat)
    case Raised(e) => Raised(e)
    case Ok(u) =>
      match Component(parts, 2, toFloat)
      case Raised(e) => Raised(e)
      case Ok(v) => Ok((u, v))
  }

  /** ensure_element(), then the face line appended to the current element. */
  function AddFace(r: Reader, line: string): (r': Reader)
    requires Valid(r)
    ensures Valid(r')
  {
    var els := if r.open then r.data.elements else r.data.elements + [Element(r.currentGroup, r.currentObject, r.currentMaterial, [])];
    var last := els[|els| - 1];
    r.(data := r.data.(elements := els[..|els| - 1] + [last.(faces := last.faces + [line])]), open := true)
  }

  /** Which branch of the loop of _parse_obj a stripped line takes. */
  datatype Keyword = SkipLine | ObjectLine | GroupLine | UseMtlLine | VertexLine | NormalLine | TexCoordLine | FaceLine | MtlLibLine | OtherLine

  /** The tests of the loop body, in the order the source makes them. */
  function KeywordOf(line: string): Keyword {
    if |line| == 0 || StartsWith(line, "#") then SkipLine
    else if StartsWith(line, "o ") then ObjectLine
    else if StartsWith(line, "g ") then GroupLine
    else if StartsWith(line, "usemtl ") then UseMtlLine
    else if StartsWith(line, "v ") then VertexLine
    else if StartsWith(line, "vn ") then NormalLine
    else if StartsWith(line, "vt ") then TexCoordLine
    else if StartsWith(line, "f ") then FaceLine
    else if StartsWith(line, "mtllib ") then MtlLibLine
    else OtherLine
  }

  /** The statements of data lines depend on nothing but their own keyword: none of the
      prefixes tested before them can match as well. */
  lemma KeywordOfPrefix(line: string)
    ensures KeywordOf(line) == VertexLine <==> StartsWith(line, "v ")
    ensures KeywordOf(line) == NormalLine <==> StartsWith(line, "vn ")
    ensures KeywordOf(line) == TexCoordLine <==> StartsWith(line, "vt ")
    ensures KeywordOf(line) == FaceLine <==> StartsWith(line, "f ")
  {
    if |line| >= 2 {
      assert StartsWith(line, "v ") <==> line[0] == 'v' && line[1] == ' ';
      assert StartsWith(line, "f ") <==> line[0] == 'f' && line[1] == ' ';
    }
    if |line| >= 3 {
      assert StartsWith(line, "vn ") <==> line[..3] == "vn ";
      assert StartsWith(line, "vt ") <==> line[..3] == "vt ";
    }
  }

  /** One pass of the loop of _parse_obj over a raw line. */
  function Step(r: Reader, raw: string, toFloat: FloatParser): (o: Outcome<Reader>)
    requires Valid(r)
    ensures o.Ok? ==> Valid(o.value)
  {
    var line := Strip(raw);
    match KeywordOf(line)
    case SkipLine => Ok(r)
    case ObjectLine =>
      (match AfterFirstWord(line)
        case None => Raised(IndexError)
        case Some(name) => Ok(r.(currentObject := Some(name), open := false)))
    case GroupLine =>
      (match AfterFirstWord(line)
        case None => Raised(IndexError)
        case Some(name) => Ok(r.(currentGroup := Some(name), open := false)))
    case UseMtlLine =>
      (match AfterFirstWord(line)
        case None => Raised(IndexError)
        case Some(name) => Ok(r.(currentMaterial := Some(name), open := false)))
    case VertexLine =>
      (match Triple(Split(line), toFloat)
        case Raised(e) => Raised(e)
        case Ok(p) => Ok(r.(data := r.data.(positions := r.data.positions + [p]))))
    case NormalLine =>
      (match Triple(Split(line), toFloat)
        case Raised(e) => Raised(e)
        case Ok(n) => Ok(r.(data := r.data.(normals := r.data.normals + [n]))))
    case TexCoordLine =>
      (match Pair(Split(line), toFloat)
        case Raised(e) => Raised(e)
        case Ok(t) => Ok(r.(data := r.data.(uvs := r.data.uvs + [t]))))
    case FaceLine => Ok(AddFace(r, line))
    case MtlLibLine =>
      (match AfterFirstWord(line)
        case None => Raised(IndexError)
        case Some(name) => Ok(r.(mtlPath := Some(name))))
    case OtherLine => Ok(r)
  }

  /** The reader after all the lines, or the first exception one of them raises. */
  function Parse(lines: seq<string>, toFloat: FloatParser): (o: Outcome<Reader>)
    ensures o.Ok? ==> Valid(o.value)
  {
    if |lines| == 0 then Ok(Start)
    else
      match Parse(lines[..|lines| - 1], toFloat)
      case Raised(e) => Raised(e)
      case Ok(r) => Step(r, lines[|lines| - 1], toFloat)
  }

  /** An exception ends the parse: the lines after it are not read. */
  lemma {:induction false} ParseStops(lines: seq<string>, k: nat, toFloat: FloatParser)
    requires k <= |lines| && Parse(lines[..k], toFloat).Raised?
    ensures Parse(lines, toFloat) == Parse(lines[..k], toFloat)
    decreases |lines| - k
  {
    if k < |lines| {
      var init := lines[..|lines| - 1];
      assert init[..k] == lines[..k];
      ParseStops(init, k, toFloat);
    } else {
      assert lines[..k] == lines;
    }
  }

  /** What _parse_obj returns: the mesh data and the name of the last mtllib line. */
  function Parsed(lines: seq<string>, toFloat: FloatParser): Outcome<(ObjData, Option<string>)> {
    match Parse(lines, toFloat)
    case Raised(e) => Raised(e)
    case Ok(r) => Ok((r.data, r.mtlPath))
  }

  /** One pass of the loop body of _parse_obj: the line stripped, then dispatched on its
      keyword; unknown keywords and comments leave the reader as it was. */
  method ReadLine(r: Reader, raw: string, toFloat: FloatParser) returns (o: Outcome<Reader>)
    requires Valid(r)
    ensures o == Step(r, raw, toFloat)
  {
    var line := Strip(raw);
    var keyword := KeywordOf(line);
    match keyword
    case SkipLine =>
      o := Ok(r);
    case ObjectLine | GroupLine | UseMtlLine | MtlLibLine =>
      var name := AfterFirstWord(line);
      if name.None? {
        return Raised(IndexError);
      }
      if keyword == ObjectLine {
        o := Ok(r.(currentObject := name, open := false));
      } else if keyword == GroupLine {
        o := Ok(r.(currentGroup := name, open := false));
      } else if keyword == UseMtlLine {
        o := Ok(r.(currentMaterial := name, open := false));
      } else {
        o := Ok(r.(mtlPath := name));
      }
    case VertexLine =>
      var p := Triple(Split(line), toFloat);
      if p.Raised? {
        return Raised(p.exc);
      }
      o := Ok(r.(data := r.data.(positions := r.data.positions + [p.value])));
    case NormalLine =>
      var n := Triple(Split(line), toFloat);
      if n.Raised? {
        return Raised(n.exc);
      }
      o := Ok(r.(data := r.data.(normals := r.data.normals + [n.value])));
    case TexCoordLine =>
      var t := Pair(Split(line), toFloat);
      if t.Raised? {
        return Raised(t.exc);
      }
      o := Ok(r.(data := r.data.(uvs := r.data.uvs + [t.value])));
    case FaceLine =>
      var elements := r.data.elements;
      if !r.open {
        elements := elements + [Element(r.currentGroup, r.currentObject, r.currentMaterial, [])];
      }
      var last := elements[|elements| - 1];
      elements := elements[..|elements| - 1] + [last.(faces := last.faces + [line])];
      o := Ok(r.(data := r.data.(elements := elements), open := true));
    case OtherLine =>
      o := Ok(r);
  }

  /** _parse_obj over the lines of the file. */
  method ParseObj(lines: seq<string>, toFloat: FloatParser) returns (r: Outcome<(ObjData, Option<string>)>)
    ensures r == Parsed(lines, toFloat)
  {
    var reader := Start;
    var i := 0;
    while i < |lines|
      invariant i <= |lines|
      invariant Parse(lines[..i], toFloat) == Ok(reader)
    {
      assert lines[..i + 1][..i] == lines[..i];
      var next := ReadLine(reader, lines[i], toFloat);
      if next.Raised? {
        ParseStops(lines, i + 1, toFloat);
        return Raised(next.exc);
      }
      reader := next.value;
      i := i + 1;
    }
    assert lines[..i] == lines;
    return Ok((reader.data, reader.mtlPath));
  }

  /** The stripped lines that take the branch of keyword k, in file order. */
  function Starting(lines: seq<string>, k: Keyword): (s: seq<string>)
    ensures |s| <= |lines|
  {
    if |lines| == 0 then []
    else
      var line := Strip(lines[|lines| - 1]);
      var init := Starting(lines[..|lines| - 1], k);
      if KeywordOf(line) == k then init + [line] else init
  }

  /** The face lines of the elements, element after element. */
  function Faces(elements: seq<Element>): seq<string> {
    if |elements| == 0 then [] else Faces(elements[..|elements| - 1]) + elements[|elements| - 1].faces
  }

  /** A face line always lands after all the faces read before it. */
  lemma FacesAddFace(r: Reader, line: string)
    requires Valid(r)
    ensures Faces(AddFace(r, line).data.elements) == Faces(r.data.elements) + [line]
  {
    var els := if r.open then r.data.elements else r.data.elements + [Element(r.currentGroup, r.currentObject, r.currentMaterial, [])];
    var n := |els|;
    var last := els[n - 1];
    var els' := els[..n - 1] + [last.(faces := last.faces + [line])];
    assert els'[..n - 1] == els[..n - 1];
    assert Faces(els) == Faces(els[..n - 1]) + last.faces;
    if !r.open {
      assert els[..n - 1] == r.data.elements;
    }
  }

  /** Nothing read is lost or reordered: every `v`, `vn` and `vt` line gives one
      position, normal or texture coordinate, and the elements hold exactly the face
      lines of the file, in file order. */
  lemma {:induction false} ParseCounts(lines: seq<string>, toFloat: FloatParser)
    requires Parse(lines, toFloat).Ok?
    ensures var data := Parse(lines, toFloat).value.data;
      && |data.positions| == |Starting(lines, VertexLine)|
      && |data.normals| == |Starting(lines, NormalLine)|
      && |data.uvs| == |Starting(lines, TexCoordLine)|
      && Faces(data.elements) == Starting(lines, FaceLine)
  {
    if |lines| > 0 {
      var init := lines[..|lines| - 1];
      ParseCounts(init, toFloat);
      StepCounts(Parse(init, toFloat).value, lines[|lines| - 1], toFloat);
    }
  }

  /** ParseCounts for one line. */
  lemma StepCounts(r: Reader, raw: string, toFloat: FloatParser)
    requires Valid(r) && Step(r, raw, toFloat).Ok?
    ensures var line, data, data' := Strip(raw), r.data, Step(r, raw, toFloat).value.data;
      && |data'.positions| == |data.positions| + (if KeywordOf(line) == VertexLine then 1 else 0)
      && |data'.normals| == |data.normals| + (if KeywordOf(line) == NormalLine then 1 else 0)
      && |data'.uvs| == |data.uvs| + (if KeywordOf(line) == TexCoordLine then 1 else 0)
      && Faces(data'.elements) == Faces(data.elements) + (if KeywordOf(line) == FaceLine then [line] else [])
  {
    var line := Strip(raw);
    if KeywordOf(line) == FaceLine {
      FacesAddFace(r, line);
    }
  }

  /** The IndexError of `line.split(maxsplit=1)[1]` cannot happen: a stripped line that
      starts with a keyword and a space has something after the space. */
  lemma NamedLineHasName(raw: string)
    requires KeywordOf(Strip(raw)) in {ObjectLine, GroupLine, UseMtlLine, MtlLibLine}
    ensures AfterFirstWord(Strip(raw)).Some?
  {
    var line := Strip(raw);
    StripsNothing(line);
    match KeywordOf(line)
    case ObjectLine => AfterKeyword(line, "o");
    case GroupLine => AfterKeyword(line, "g");
    case UseMtlLine => AfterKeyword(line, "usemtl");
    case MtlLibLine => AfterKeyword(line, "mtllib");
  }

  /** With a float parser that accepts every token, reading a file never fails. */
  lemma {:induction false} ParseTotal(lines: seq<string>, toFloat: FloatParser)
    requires forall t :: toFloat(t).Ok?
    ensures Parse(lines, toFloat).Ok?
  {
    if |lines| > 0 {
      ParseTotal(lines[..|lines| - 1], toFloat);
      StepTotal(Parse(lines[..|lines| - 1], toFloat).value, lines[|lines| - 1], toFloat);
    }
  }

  /** ParseTotal for one line. */
  lemma StepTotal(r: Reader, raw: string, toFloat: FloatParser)
    requires Valid(r) && forall t :: toFloat(t).Ok?
    ensures Step(r, raw, toFloat).Ok?
  {
    if KeywordOf(Strip(raw)) in {ObjectLine, GroupLine, UseMtlLine, MtlLibLine} {
      NamedLineHasName(raw);
    }
  }

  /** An `o`, `g` or `usemtl` line ends the current element: the next face line starts a
      new element that carries the names as they stand after that line. */
  lemma NameEndsElement(r: Reader, naming: string, face: string, toFloat: FloatParser)
    requires Valid(r)
    requires KeywordOf(Strip(naming)) in {ObjectLine, GroupLine, UseMtlLine}
    requires KeywordOf(Strip(face)) == FaceLine
    ensures Step(r, naming, toFloat).Ok?
    ensures var named := Step(r, naming, toFloat).value;
      && Step(named, face, toFloat).Ok?
      && Step(named, face, toFloat).value.data.elements
         == r.data.elements + [Element(named.currentGroup, named.currentObject, named.currentMaterial, [Strip(face)])]
  {
    NamedLineHasName(naming);
    var named := Step(r, naming, toFloat).value;
    assert !named.open && named.data == r.data;
    var els := r.data.elements + [Element(named.currentGroup, named.currentObject, named.currentMaterial, [])];
    assert els[..|els| - 1] == r.data.elements;
    assert [] + [Strip(face)] == [Strip(face)];
  }

  /** FaceLine lines with no naming line between them share one element. */
  lemma FaceJoinsElement(r: Reader, face: string, toFloat: FloatParser)
    requires Valid(r) && r.open
    requires KeywordOf(Strip(face)) == FaceLine
    ensures Step(r, face, toFloat).Ok?
    ensures var els, els' := r.data.elements, Step(r, face, toFloat).value.data.elements;
      && |els'| == |els|
      && els'[..|els| - 1] == els[..|els| - 1]
      && els'[|els| - 1] == els[|els| - 1].(faces := els[|els| - 1].faces + [Strip(face)])
  {
  }
}
