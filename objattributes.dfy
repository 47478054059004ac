/** The older OBJ reader `read_obj_attributes` of main.cpp: it collects the
    positions and normals of a file, keeps for every face the vertex and
    normal indices of its first three tokens, and expands each face into
    three vertices whose normal comes from the file, from `calculateNormal`
    or is left unset. */
module ObjAttributes {
  import opened Geometry
  import opened ObjText

  const OPERATION_ERROR: int := 0
  const OPERATION_SUCCESS: int := 1

  /** `face.v[i]` and `face.vn[i]`, both 1-based; `vn` is 0 where the token
      gives no normal. */
  datatype Corner = Corner(v: GLuint, vn: GLuint)

  /** The corners a face line stored: at most three. */
  datatype AttrFace = AttrFace(corners: seq<Corner>)

  /** `temp_vertices`, `temp_normals` and `faces`. */
  datatype AttrData = AttrData(positions: seq<Vec3>, normals: seq<Vec3>, faces: seq<AttrFace>)

  const NoAttrs: AttrData := AttrData([], [], [])

  /** `Vertex` of main.cpp; `normal` is None where the source leaves it unset. */
  datatype AttrVertex = AttrVertex(position: Vec3, normal: Option<Vec3>)

  /** What a call ends with: the return code, or the exception of `stoi`. */
  datatype Outcome = Returned(code: int) | Threw(error: StoiError)

  /** `stoi(token.substr(from, to - from))` stored into a `GLuint`. */
  function Field(token: string, from: nat, to: nat): Result<GLuint>
    requires from <= to <= |token|
  {
    match Stoi(token[from..to])
    case Err(e) => Err(e)
    case Ok(n) => Ok(ToGLuint(n))
  }

  /** One face token: the vertex before the first slash; the normal after
      the second slash, when there is one. The texture field is never read. */
  function DecodeCorner(token: string): Result<Corner> {
    match Find(token, '/', 0)
    case None =>
      (match Stoi(token)
       case Err(e) => Err(e)
       case Ok(n) => Ok(Corner(ToGLuint(n), 0)))
    case Some(slash1) =>
      match Find(token, '/', slash1 + 1)
      case None =>
        (match Field(token, 0, slash1)
         case Err(e) => Err(e)
         case Ok(v) => Ok(Corner(v, 0)))
      case Some(slash2) => DecodeBothFields(token, slash1, slash2)
  }

  /** `v//vn` or `v/vt/vn`: the vertex is read first, then the normal. */
  function DecodeBothFields(token: string, slash1: nat, slash2: nat): Result<Corner>
    requires slash1 < slash2 < |token|
  {
    var v, n := Field(token, 0, slash1), Field(token, slash2 + 1, |token|);
    if v.Err? then Err(v.error)
    else if n.Err? then Err(n.error)
    else Ok(Corner(v.value, n.value))
  }

  /** The tokens the face loop stores: it stops once three are stored. */
  function Stored(tokens: seq<string>): seq<string> {
    if |tokens| <= 3 then tokens else tokens[..3]
  }

  /** The corners of the given tokens in order, or the first exception. */
  function DecodeEach(tokens: seq<string>): Result<seq<Corner>> {
    if tokens == [] then Ok([])
    else
      var init :- DecodeEach(tokens[..|tokens| - 1]);
      var c :- DecodeCorner(tokens[|tokens| - 1]);
      Ok(init + [c])
  }

  /** The corners a face line stores. */
  function DecodeCorners(tokens: seq<string>): Result<seq<Corner>> {
    DecodeEach(Stored(tokens))
  }

  /** What `read_obj_attributes` does with one line; `vt` lines and every
      other keyword are ignored. */
  function ParseAttrLine(d: AttrData, line: string, readFloat: string -> real): Result<AttrData> {
    ParseAttrWords(d, Keyword(line), Words(line), readFloat)
  }

  /** One line given by its keyword and its words. */
  function ParseAttrWords(d: AttrData, kind: string, words: seq<string>, readFloat: string -> real): Result<AttrData>
    requires words == [] ==> kind == ""
  {
    if kind == "v" then Ok(d.(positions := d.positions + [Point3(words, readFloat)]))
    else if kind == "vn" then Ok(d.(normals := d.normals + [Point3(words, readFloat)]))
    else if kind == "f" then
      var corners :- DecodeCorners(words[1..]);
      Ok(d.(faces := d.faces + [AttrFace(corners)]))
    else Ok(d)
  }

  /** The data read from the lines of a file, or the exception. */
  function ParseAttrs(lines: seq<string>, readFloat: string -> real): Result<AttrData> {
    if lines == [] then Ok(NoAttrs)
    else
      var d :- ParseAttrs(lines[..|lines| - 1], readFloat);
      ParseAttrLine(d, lines[|lines| - 1], readFloat)
  }

  /** The token an OBJ writer emits for a corner: `v`, or `v//vn` when
      there is a normal. */
  function EncodeCorner(c: Corner): string
    requires c.v <= INT_MAX && c.vn <= INT_MAX
  {
    if c.vn == 0 then Numeral(c.v) else Numeral(c.v) + "//" + Numeral(c.vn)
  }

  /** A token without a slash is read whole by `stoi`, with no normal. */
  lemma DecodePlainCorner(token: string)
    requires NoSlash(token)
    ensures DecodeCorner(token).Ok? <==> Stoi(token).Ok?
    ensures DecodeCorner(token).Ok? ==> DecodeCorner(token).value == Corner(ToGLuint(Stoi(token).value), 0)
    ensures DecodeCorner(token).Err? ==> DecodeCorner(token).error == Stoi(token).error
  {
    FindNone(token, '/', 0);
  }

  /** In `a/b` the texture field `b` is never read: the token decodes as `a`
      alone, whatever `b` holds. */
  lemma TextureIgnored(a: string, b: string)
    requires NoSlash(a) && NoSlash(b)
    ensures DecodeCorner(a + "/" + b) == DecodeCorner(a)
  {
    SlashesOfOne(a, b);
    FieldsOfOne(a, b);
    FindNone(a, '/', 0);
  }

  /** A token with its first two slashes at `i` and `j` is read by DecodeBothFields. */
  lemma BothFieldsDispatch(s: string, i: nat, j: nat)
    requires Find(s, '/', 0) == Some(i) && Find(s, '/', i + 1) == Some(j)
    ensures i < j < |s| && DecodeCorner(s) == DecodeBothFields(s, i, j)
  {
  }

  /** In `a/b/c` the middle field is never read: the token decodes as `a//c`. */
  lemma MiddleIgnored(a: string, b: string, c: string)
    requires NoSlash(a) && NoSlash(b)
    ensures DecodeCorner(a + "/" + b + "/" + c) == DecodeCorner(a + "//" + c)
  {
    var s, t := a + "/" + b + "/" + c, a + "//" + c;
    SlashesOfTwo(a, b, c);
    BothFieldsDispatch(s, |a|, |a| + 1 + |b|);
    SlashesOfAdjacent(a, c);
    BothFieldsDispatch(t, |a|, |a| + 1);
    FieldsOfTwo(a, b, c);
    FieldsOfAdjacent(a, c);
    assert Field(s, 0, |a|) == Field(t, 0, |a|);
    assert Field(s, |a| + 1 + |b| + 1, |s|) == Field(t, |a| + 2, |t|);
  }

  /** `a//c` decodes to the `stoi` values of its outer fields. */
  lemma DecodeOuter(a: string, c: string, x: int, z: int)
    requires NoSlash(a) && Stoi(a) == Ok(x) && Stoi(c) == Ok(z)
    ensures DecodeCorner(a + "//" + c) == Ok(Corner(ToGLuint(x), ToGLuint(z)))
  {
    var s := a + "//" + c;
    SlashesOfAdjacent(a, c);
    BothFieldsDispatch(s, |a|, |a| + 1);
    FieldsOfAdjacent(a, c);
  }

  /** Decoding reads back every corner an OBJ writer emits. */
  lemma DecodeOfEncodeCorner(c: Corner)
    requires c.v <= INT_MAX && c.vn <= INT_MAX
    ensures DecodeCorner(EncodeCorner(c)) == Ok(c)
  {
    StoiOfWholeNumeral(c.v);
    NumeralNoSlash(c.v);
    if c.vn == 0 {
      DecodePlainCorner(Numeral(c.v));
    } else {
      StoiOfWholeNumeral(c.vn);
      DecodeOuter(Numeral(c.v), Numeral(c.vn), c.v, c.vn);
    }
  }

  /** DecodeEach succeeds exactly when every token decodes, and then yields
      one corner per token, in order. */
  lemma {:induction false} DecodeEachLayout(tokens: seq<string>)
    ensures DecodeEach(tokens).Ok? <==> forall i :: 0 <= i < |tokens| ==> DecodeCorner(tokens[i]).Ok?
    ensures DecodeEach(tokens).Ok? ==>
              |DecodeEach(tokens).value| == |tokens|
              && forall i :: 0 <= i < |tokens| ==> DecodeCorner(tokens[i]) == Ok(DecodeEach(tokens).value[i])
  {
    if tokens != [] {
      var init := tokens[..|tokens| - 1];
      DecodeEachLayout(init);
      assert forall i :: 0 <= i < |init| ==> init[i] == tokens[i];
      if DecodeEach(init).Ok? && DecodeCorner(tokens[|tokens| - 1]).Ok? {
        var r := DecodeEach(tokens).value;
        assert r == DecodeEach(init).value + [DecodeCorner(tokens[|tokens| - 1]).value];
        forall i | 0 <= i < |tokens| ensures DecodeCorner(tokens[i]) == Ok(r[i]) {
          if i < |init| {
            assert r[i] == DecodeEach(init).value[i];
          }
        }
      }
    }
  }

  /** A face keeps at most three corners: the first three tokens, decoded;
      the tokens after them are never decoded. */
  lemma StoresFirstThree(tokens: seq<string>)
    ensures DecodeCorners(tokens) == DecodeEach(tokens[..if |tokens| <= 3 then |tokens| else 3])
    ensures DecodeCorners(tokens).Ok? ==>
              var cs := DecodeCorners(tokens).value;
              && |cs| == (if |tokens| <= 3 then |tokens| else 3)
              && forall i :: 0 <= i < |cs| ==> DecodeCorner(tokens[i]) == Ok(cs[i])
  {
    assert tokens[..|tokens|] == tokens;
    var st := Stored(tokens);
    DecodeEachLayout(st);
    assert forall i :: 0 <= i < |st| ==> st[i] == tokens[i];
  }

  /** A fourth token and beyond change nothing, even when they would not decode. */
  lemma ExtraTokensIgnored(tokens: seq<string>, more: seq<string>)
    requires |tokens| == 3
    ensures DecodeCorners(tokens + more) == DecodeCorners(tokens)
  {
    assert Stored(tokens + more) == tokens;
  }

  /** Every face line stores its corners without an exception. */
  predicate AllCornersDecode(ls: seq<seq<string>>) {
    forall k :: 0 <= k < |ls| ==> DecodeCorners(ls[k]).Ok?
  }

  lemma AllCornersDecodeAppend(a: seq<seq<string>>, b: seq<seq<string>>)
    ensures AllCornersDecode(a + b) <==> AllCornersDecode(a) && AllCornersDecode(b)
  {
    assert forall k :: 0 <= k < |a| ==> (a + b)[k] == a[k];
    assert forall k :: 0 <= k < |b| ==> (a + b)[|a| + k] == b[k];
  }

  lemma AllCornersDecodeOne(tokens: seq<string>)
    ensures AllCornersDecode([tokens]) <==> DecodeCorners(tokens).Ok?
  {
    assert [tokens][0] == tokens;
  }

  /** One line adds at most one element, to the vector its keyword names;
      only a face line whose stored tokens do not decode throws. */
  lemma ParseAttrLineEffect(d: AttrData, line: string, readFloat: string -> real)
    ensures ParseAttrLine(d, line, readFloat).Ok? <==> (Keyword(line) == "f" ==> DecodeCorners(Words(line)[1..]).Ok?)
    ensures ParseAttrLine(d, line, readFloat).Ok? ==>
              var d' := ParseAttrLine(d, line, readFloat).value;
              var kind := Keyword(line);
              && d'.positions == d.positions + (if kind == "v" then [Point3(Words(line), readFloat)] else [])
              && d'.normals == d.normals + (if kind == "vn" then [Point3(Words(line), readFloat)] else [])
              && d'.faces == d.faces + (if kind == "f" then [AttrFace(DecodeCorners(Words(line)[1..]).value)] else [])
  {
    ParseAttrWordsEffect(d, Keyword(line), Words(line), readFloat);
  }

  lemma ParseAttrWordsEffect(d: AttrData, kind: string, words: seq<string>, readFloat: string -> real)
    requires words == [] ==> kind == ""
    ensures ParseAttrWords(d, kind, words, readFloat).Ok? <==> (kind == "f" ==> DecodeCorners(words[1..]).Ok?)
    ensures ParseAttrWords(d, kind, words, readFloat).Ok? ==>
              var d' := ParseAttrWords(d, kind, words, readFloat).value;
              && d'.positions == d.positions + (if kind == "v" then [Point3(words, readFloat)] else [])
              && d'.normals == d.normals + (if kind == "vn" then [Point3(words, readFloat)] else [])
              && d'.faces == d.faces + (if kind == "f" then [AttrFace(DecodeCorners(words[1..]).value)] else [])
  {
    KeywordsDistinct();
  }

  /** Each of the first three tokens of every token list decodes. */
  predicate StoredTokensDecode(ls: seq<seq<string>>) {
    forall k, j :: 0 <= k < |ls| && 0 <= j < |ls[k]| && j < 3 ==> DecodeCorner(ls[k][j]).Ok?
  }

  /** A list of face lines stores its corners exactly when each of the first
      three tokens of each line decodes. */
  lemma AllCornersDecodeTokens(ls: seq<seq<string>>)
    ensures AllCornersDecode(ls) <==> StoredTokensDecode(ls)
  {
    forall k | 0 <= k < |ls|
      ensures DecodeCorners(ls[k]).Ok? <==> forall j :: 0 <= j < |ls[k]| && j < 3 ==> DecodeCorner(ls[k][j]).Ok?
    {
      var n := if |ls[k]| <= 3 then |ls[k]| else 3;
      StoresFirstThree(ls[k]);
      DecodeEachLayout(ls[k][..n]);
      assert forall j :: 0 <= j < n ==> ls[k][..n][j] == ls[k][j];
    }
  }

  /** Reading throws exactly when one of the first three tokens of some face
      line is one that `stoi` rejects. */
  lemma ParseAttrsSucceeds(lines: seq<string>, readFloat: string -> real)
    ensures ParseAttrs(lines, readFloat).Ok? <==> StoredTokensDecode(FaceLinesOf(lines))
  {
    ParseAttrsSucceedsByLine(lines, readFloat);
    AllCornersDecodeTokens(FaceLinesOf(lines));
  }

  /** Reading succeeds exactly when every face line stores its corners. */
  lemma {:induction false} ParseAttrsSucceedsByLine(lines: seq<string>, readFloat: string -> real)
    ensures ParseAttrs(lines, readFloat).Ok? <==> AllCornersDecode(FaceLinesOf(lines))
  {
    if lines != [] {
      var init, last := lines[..|lines| - 1], lines[|lines| - 1];
      ParseAttrsSucceedsByLine(init, readFloat);
      var extra := if Keyword(last) == "f" then [Words(last)[1..]] else [];
      assert FaceLinesOf(lines) == FaceLinesOf(init) + extra;
      AllCornersDecodeAppend(FaceLinesOf(init), extra);
      if Keyword(last) == "f" {
        AllCornersDecodeOne(Words(last)[1..]);
      }
      if ParseAttrs(init, readFloat).Ok? {
        ParseAttrLineEffect(ParseAttrs(init, readFloat).value, last, readFloat);
      }
    }
  }

  /** The positions read are the points of the `v` lines, in file order. */
  lemma {:induction false} ParseAttrsPositions(lines: seq<string>, readFloat: string -> real)
    ensures ParseAttrs(lines, readFloat).Ok? ==> ParseAttrs(lines, readFloat).value.positions == PointsOf(lines, "v", readFloat)
  {
    if lines != [] && ParseAttrs(lines, readFloat).Ok? {
      var init, last := lines[..|lines| - 1], lines[|lines| - 1];
      ParseAttrsPositions(init, readFloat);
      ParseAttrLineEffect(ParseAttrs(init, readFloat).value, last, readFloat);
    }
  }

  /** The normals read are the points of the `vn` lines, in file order. */
  lemma {:induction false} ParseAttrsNormals(lines: seq<string>, readFloat: string -> real)
    ensures ParseAttrs(lines, readFloat).Ok? ==> ParseAttrs(lines, readFloat).value.normals == PointsOf(lines, "vn", readFloat)
  {
    if lines != [] && ParseAttrs(lines, readFloat).Ok? {
      var init, last := lines[..|lines| - 1], lines[|lines| - 1];
      ParseAttrsNormals(init, readFloat);
      ParseAttrLineEffect(ParseAttrs(init, readFloat).value, last, readFloat);
    }
  }

  /** The faces read are the stored corners of the `f` lines, one face per
      line, in file order. */
  lemma {:induction false} ParseAttrsFaces(lines: seq<string>, readFloat: string -> real)
    ensures ParseAttrs(lines, readFloat).Ok? ==>
              var faces := ParseAttrs(lines, readFloat).value.faces;
              && |faces| == |FaceLinesOf(lines)|
              && forall k :: 0 <= k < |faces| ==> DecodeCorners(FaceLinesOf(lines)[k]) == Ok(faces[k].corners)
  {
    if lines != [] && ParseAttrs(lines, readFloat).Ok? {
      var init, last := lines[..|lines| - 1], lines[|lines| - 1];
      ParseAttrsFaces(init, readFloat);
      var d := ParseAttrs(init, readFloat).value;
      ParseAttrLineEffect(d, last, readFloat);
      var d' := ParseAttrs(lines, readFloat).value;
      var isFace := Keyword(last) == "f";
      var el := if isFace then [Words(last)[1..]] else [];
      var ef := if isFace then [AttrFace(DecodeCorners(Words(last)[1..]).value)] else [];
      assert FaceLinesOf(lines) == FaceLinesOf(init) + el;
      assert d'.faces == d.faces + ef;
      FacesMatchAppend(d.faces, FaceLinesOf(init), ef, el);
    }
  }

  /** Two lists of faces matched index by index with their token lists stay
      matched when joined. */
  lemma FacesMatchAppend(faces: seq<AttrFace>, fl: seq<seq<string>>, ef: seq<AttrFace>, el: seq<seq<string>>)
    requires |faces| == |fl| && forall k :: 0 <= k < |faces| ==> DecodeCorners(fl[k]) == Ok(faces[k].corners)
    requires |ef| == |el| && forall k :: 0 <= k < |ef| ==> DecodeCorners(el[k]) == Ok(ef[k].corners)
    ensures |faces + ef| == |fl + el|
    ensures forall k :: 0 <= k < |faces + ef| ==> DecodeCorners((fl + el)[k]) == Ok((faces + ef)[k].corners)
  {
    forall k | 0 <= k < |faces + ef| ensures DecodeCorners((fl + el)[k]) == Ok((faces + ef)[k].corners) {
      if k < |faces| {
        assert (fl + el)[k] == fl[k] && (faces + ef)[k] == faces[k];
      } else {
        assert (fl + el)[k] == el[k - |fl|] && (faces + ef)[k] == ef[k - |faces|];
      }
    }
  }

  /** Reading succeeds exactly when the first three tokens of every face line
      decode; then the positions and normals are those of the `v` and `vn`
      lines and the faces those of the `f` lines, in file order. */
  lemma ParseAttrsSelects(lines: seq<string>, readFloat: string -> real)
    ensures ParseAttrs(lines, readFloat).Ok? <==> StoredTokensDecode(FaceLinesOf(lines))
    ensures ParseAttrs(lines, readFloat).Ok? ==>
              var d := ParseAttrs(lines, readFloat).value;
              && d.positions == PointsOf(lines, "v", readFloat)
              && d.normals == PointsOf(lines, "vn", readFloat)
              && |d.faces| == |FaceLinesOf(lines)|
              && forall k :: 0 <= k < |d.faces| ==> DecodeCorners(FaceLinesOf(lines)[k]) == Ok(d.faces[k].corners)
  {
    ParseAttrsSucceeds(lines, readFloat);
    ParseAttrsPositions(lines, readFloat);
    ParseAttrsNormals(lines, readFloat);
    ParseAttrsFaces(lines, readFloat);
  }

  lemma {:induction false} ParseAttrsErrorSticks(lines: seq<string>, i: nat, readFloat: string -> real)
    requires i <= |lines|
    requires ParseAttrs(lines[..i], readFloat).Err?
    ensures ParseAttrs(lines, readFloat) == ParseAttrs(lines[..i], readFloat)
    decreases |lines| - i
  {
    if i < |lines| {
      ParseAttrsStep(lines, i, readFloat);
      ParseAttrsErrorSticks(lines, i + 1, readFloat);
    } else {
      assert lines[..i] == lines;
    }
  }

  lemma ParseAttrsStep(lines: seq<string>, i: nat, readFloat: string -> real)
    requires i < |lines|
    ensures ParseAttrs(lines[..i + 1], readFloat)
         == if ParseAttrs(lines[..i], readFloat).Err? then ParseAttrs(lines[..i], readFloat)
            else ParseAttrLine(ParseAttrs(lines[..i], readFloat).value, lines[i], readFloat)
  {
    assert lines[..i + 1][..i] == lines[..i];
  }

  /** What the expansion demands of a face: three stored corners whose
      vertex indices are 1-based positions that exist. */
  predicate FaceExpandable(d: AttrData, f: AttrFace) {
    |f.corners| == 3 && forall i :: 0 <= i < 3 ==> 1 <= f.corners[i].v <= |d.positions|
  }

  predicate FacesExpandable(d: AttrData, faces: seq<AttrFace>) {
    forall k :: 0 <= k < |faces| ==> FaceExpandable(d, faces[k])
  }

  /** `temp_vertices[face.v[i] - 1]`. */
  function CornerPosition(d: AttrData, f: AttrFace, i: nat): Vec3
    requires FaceExpandable(d, f) && i < 3
  {
    d.positions[f.corners[i].v - 1]
  }

  /** The normal of corner `i`: the file's when `0 < vn <= temp_normals.size()`,
      otherwise `calculateNormal` of the three positions for the third
      corner, and unset for the first two. */
  function CornerNormal(d: AttrData, f: AttrFace, i: nat, calculateNormal: (Vec3, Vec3, Vec3) -> Vec3): Option<Vec3>
    requires FaceExpandable(d, f) && i < 3
  {
    var vn := f.corners[i].vn;
    if 0 < vn <= |d.normals| then Some(d.normals[vn - 1])
    else if i == 2 then Some(calculateNormal(CornerPosition(d, f, 0), CornerPosition(d, f, 1), CornerPosition(d, f, 2)))
    else None
  }

  function FaceVertices(d: AttrData, f: AttrFace, calculateNormal: (Vec3, Vec3, Vec3) -> Vec3): (vs: seq<AttrVertex>)
    requires FaceExpandable(d, f)
    ensures |vs| == 3
  {
    [AttrVertex(CornerPosition(d, f, 0), CornerNormal(d, f, 0, calculateNormal)),
     AttrVertex(CornerPosition(d, f, 1), CornerNormal(d, f, 1, calculateNormal)),
     AttrVertex(CornerPosition(d, f, 2), CornerNormal(d, f, 2, calculateNormal))]
  }

  /** The vertices appended for all faces, face after face. */
  function ExpandAttrs(d: AttrData, faces: seq<AttrFace>, calculateNormal: (Vec3, Vec3, Vec3) -> Vec3): seq<AttrVertex>
    requires FacesExpandable(d, faces)
  {
    if faces == [] then []
    else
      assert FaceExpandable(d, faces[|faces| - 1]);
      ExpandAttrs(d, faces[..|faces| - 1], calculateNormal) + FaceVertices(d, faces[|faces| - 1], calculateNormal)
  }

  lemma FacesExpandablePrefix(d: AttrData, faces: seq<AttrFace>, m: nat)
    requires FacesExpandable(d, faces) && m <= |faces|
    ensures FacesExpandable(d, faces[..m])
  {
    assert forall k :: 0 <= k < m ==> faces[..m][k] == faces[k];
  }

  /** Exactly three vertices per face, in face order: vertex `3k + i` is
      corner `i` of face `k`. */
  lemma {:induction false} ExpandAttrsLayout(d: AttrData, faces: seq<AttrFace>, calculateNormal: (Vec3, Vec3, Vec3) -> Vec3)
    requires FacesExpandable(d, faces)
    ensures |ExpandAttrs(d, faces, calculateNormal)| == 3 * |faces|
    ensures forall k, i :: 0 <= k < |faces| && 0 <= i < 3 ==>
              ExpandAttrs(d, faces, calculateNormal)[3 * k + i] == FaceVertices(d, faces[k], calculateNormal)[i]
  {
    if faces != [] {
      var init := faces[..|faces| - 1];
      FacesExpandablePrefix(d, faces, |faces| - 1);
      ExpandAttrsLayout(d, init, calculateNormal);
      var a, b := ExpandAttrs(d, init, calculateNormal), FaceVertices(d, faces[|faces| - 1], calculateNormal);
      forall k, i | 0 <= k < |faces| && 0 <= i < 3
        ensures ExpandAttrs(d, faces, calculateNormal)[3 * k + i] == FaceVertices(d, faces[k], calculateNormal)[i]
      {
        if k < |init| {
          assert init[k] == faces[k];
          assert (a + b)[3 * k + i] == a[3 * k + i];
        } else {
          assert (a + b)[3 * k + i] == b[i];
        }
      }
    }
  }

  /** The rule for the vertex `out` emitted for corner `i` of face `f`: its
      position is `temp_vertices[v - 1]`; its normal is the file's exactly
      when the corner's index is in `1..temp_normals.size()`, otherwise
      computed from the face's three positions for the third corner, and
      unset for the others. */
  predicate FollowsCornerRule(d: AttrData, f: AttrFace, i: nat, calculateNormal: (Vec3, Vec3, Vec3) -> Vec3, out: AttrVertex)
    requires FaceExpandable(d, f) && i < 3
  {
    && out.position == d.positions[f.corners[i].v - 1]
    && (0 < f.corners[i].vn <= |d.normals| ==> out.normal == Some(d.normals[f.corners[i].vn - 1]))
    && (!(0 < f.corners[i].vn <= |d.normals|) && i == 2 ==>
          out.normal == Some(calculateNormal(d.positions[f.corners[0].v - 1], d.positions[f.corners[1].v - 1],
                                             d.positions[f.corners[2].v - 1])))
    && (out.normal.None? <==> !(0 < f.corners[i].vn <= |d.normals|) && i != 2)
  }

  /** Vertex `3k + i` of the output follows the rule for corner `i` of face `k`. */
  lemma CornerNormalRule(d: AttrData, faces: seq<AttrFace>, calculateNormal: (Vec3, Vec3, Vec3) -> Vec3, k: nat, i: nat)
    requires FacesExpandable(d, faces) && k < |faces| && i < 3
    ensures 3 * k + i < |ExpandAttrs(d, faces, calculateNormal)|
    ensures FaceExpandable(d, faces[k])
    ensures FollowsCornerRule(d, faces[k], i, calculateNormal, ExpandAttrs(d, faces, calculateNormal)[3 * k + i])
  {
    ExpandAttrsLayout(d, faces, calculateNormal);
    assert ExpandAttrs(d, faces, calculateNormal)[3 * k + i] == FaceVertices(d, faces[k], calculateNormal)[i];
  }

  /** What `read_obj_attributes` demands of a file it reads: every face has
      three corners whose vertex indices exist. */
  predicate AttrsExpandable(file: Option<seq<string>>, readFloat: string -> real) {
    file.Some? && ParseAttrs(file.value, readFloat).Ok? ==>
      FacesExpandable(ParseAttrs(file.value, readFloat).value, ParseAttrs(file.value, readFloat).value.faces)
  }

  /** The token loop of a face line, `while (ss >> token && i < 3)`. */
  method ReadCorners(tokens: seq<string>) returns (r: Result<seq<Corner>>)
    ensures r == DecodeCorners(tokens)
  {
    var st := Stored(tokens);
    assert |st| == if |tokens| <= 3 then |tokens| else 3;
    var corners: seq<Corner> := [];
    var i := 0;
    while i < |tokens| && i < 3
      invariant 0 <= i <= |st|
      invariant DecodeEach(st[..i]) == Ok(corners)
    {
      assert st[i] == tokens[i];
      var c := DecodeCorner(tokens[i]);
      DecodeEachStep(st, i, corners);
      if c.Err? {
        DecodeEachErrorSticks(st, i + 1);
        assert DecodeEach(st) == Err(c.error);
        return Err(c.error);
      }
      corners := corners + [c.value];
      i := i + 1;
    }
    assert st[..i] == st;
    return Ok(corners);
  }

  /** One more token through the corner loop. */
  lemma DecodeEachStep(tokens: seq<string>, i: nat, corners: seq<Corner>)
    requires i < |tokens| && DecodeEach(tokens[..i]) == Ok(corners)
    ensures DecodeCorner(tokens[i]).Err? ==> DecodeEach(tokens[..i + 1]) == Err(DecodeCorner(tokens[i]).error)
    ensures DecodeCorner(tokens[i]).Ok? ==> DecodeEach(tokens[..i + 1]) == Ok(corners + [DecodeCorner(tokens[i]).value])
  {
    assert tokens[..i + 1][..i] == tokens[..i];
  }

  lemma {:induction false} DecodeEachErrorSticks(tokens: seq<string>, j: nat)
    requires j <= |tokens|
    requires DecodeEach(tokens[..j]).Err?
    ensures DecodeEach(tokens) == DecodeEach(tokens[..j])
    decreases |tokens| - j
  {
    if j < |tokens| {
      assert tokens[..j + 1][..j] == tokens[..j];
      DecodeEachErrorSticks(tokens, j + 1);
    } else {
      assert tokens[..j] == tokens;
    }
  }

  /** The body of the line loop. */
  method ReadAttrLine(acc: AttrData, line: string, readFloat: string -> real) returns (r: Result<AttrData>)
    ensures r == ParseAttrLine(acc, line, readFloat)
  {
    var words := Words(line);
    var kind := if words == [] then "" else words[0];
    if kind == "v" {
      r := Ok(acc.(positions := acc.positions + [Point3(words, readFloat)]));
    } else if kind == "vn" {
      r := Ok(acc.(normals := acc.normals + [Point3(words, readFloat)]));
    } else if kind == "f" {
      var corners := ReadCorners(words[1..]);
      if corners.Err? {
        return Err(corners.error);
      }
      r := Ok(acc.(faces := acc.faces + [AttrFace(corners.value)]));
    } else {
      r := Ok(acc);
    }
  }

  /** The three vertices of one face, appended in corner order. */
  method AppendFace(d: AttrData, face: AttrFace, calculateNormal: (Vec3, Vec3, Vec3) -> Vec3, vertices: seq<AttrVertex>)
    returns (vertices': seq<AttrVertex>)
    requires FaceExpandable(d, face)
    ensures vertices' == vertices + FaceVertices(d, face, calculateNormal)
  {
    vertices' := vertices;
    var i := 0;
    while i < 3
      invariant 0 <= i <= 3
      invariant vertices' == vertices + FaceVertices(d, face, calculateNormal)[..i]
    {
      var c := face.corners[i];
      var position := d.positions[c.v - 1];
      var normal: Option<Vec3> := None;
      if 0 < c.vn && c.vn <= |d.normals| {
        normal := Some(d.normals[c.vn - 1]);
      } else if i == 2 {
        var v0 := d.positions[face.corners[0].v - 1];
        var v1 := d.positions[face.corners[1].v - 1];
        var v2 := d.positions[face.corners[2].v - 1];
        normal := Some(calculateNormal(v0, v1, v2));
      }
      assert FaceVertices(d, face, calculateNormal)[..i + 1] == FaceVertices(d, face, calculateNormal)[..i] + [AttrVertex(position, normal)];
      vertices' := vertices' + [AttrVertex(position, normal)];
      i := i + 1;
    }
    assert FaceVertices(d, face, calculateNormal)[..3] == FaceVertices(d, face, calculateNormal);
  }

  /** The line loop of `read_obj_attributes`. */
  method ReadAttrLines(lines: seq<string>, readFloat: string -> real) returns (r: Result<AttrData>)
    ensures r == ParseAttrs(lines, readFloat)
  {
    var d := NoAttrs;
    var l := 0;
    while l < |lines|
      invariant 0 <= l <= |lines|
      invariant ParseAttrs(lines[..l], readFloat) == Ok(d)
    {
      ParseAttrsStep(lines, l, readFloat);
      var line := ReadAttrLine(d, lines[l], readFloat);
      if line.Err? {
        ParseAttrsErrorSticks(lines, l + 1, readFloat);
        return Err(line.error);
      }
      d := line.value;
      l := l + 1;
    }
    assert lines[..l] == lines;
    return Ok(d);
  }

  /** The face loop of `read_obj_attributes`. */
  method AppendFaces(d: AttrData, calculateNormal: (Vec3, Vec3, Vec3) -> Vec3, vertices: seq<AttrVertex>)
    returns (vertices': seq<AttrVertex>)
    requires FacesExpandable(d, d.faces)
    ensures vertices' == vertices + ExpandAttrs(d, d.faces, calculateNormal)
  {
    vertices' := vertices;
    var f := 0;
    while f < |d.faces|
      invariant 0 <= f <= |d.faces|
      invariant FacesExpandable(d, d.faces[..f])
      invariant vertices' == vertices + ExpandAttrs(d, d.faces[..f], calculateNormal)
    {
      FacesExpandablePrefix(d, d.faces, f + 1);
      assert d.faces[..f + 1][..f] == d.faces[..f];
      assert d.faces[..f + 1][f] == d.faces[f];
      vertices' := AppendFace(d, d.faces[f], calculateNormal, vertices');
      f := f + 1;
    }
    assert d.faces[..f] == d.faces;
  }

  /** `read_obj_attributes`: `file` is None when the file cannot be opened,
      `calculateNormal` stands for the function of that name, `vertices` is the by-reference
      vector. An unopened file returns OPERATION_ERROR and a throwing one
      the exception, both leaving `vertices` as it was; otherwise the
      vertices of every face are appended and OPERATION_SUCCESS returned. */
  method ReadObjAttributes(file: Option<seq<string>>, readFloat: string -> real,
                           calculateNormal: (Vec3, Vec3, Vec3) -> Vec3, vertices: seq<AttrVertex>)
    returns (outcome: Outcome, vertices': seq<AttrVertex>)
    requires AttrsExpandable(file, readFloat)
    ensures file.None? ==> outcome == Returned(OPERATION_ERROR) && vertices' == vertices
    ensures file.Some? && ParseAttrs(file.value, readFloat).Err? ==>
              outcome == Threw(ParseAttrs(file.value, readFloat).error) && vertices' == vertices
    ensures file.Some? && ParseAttrs(file.value, readFloat).Ok? ==>
              var d := ParseAttrs(file.value, readFloat).value;
              outcome == Returned(OPERATION_SUCCESS) && vertices' == vertices + ExpandAttrs(d, d.faces, calculateNormal)
  {
    vertices' := vertices;
    if file.None? {
      return Returned(OPERATION_ERROR), vertices';
    }
    var r := ReadAttrLines(file.value, readFloat);
    if r.Err? {
      return Threw(r.error), vertices';
    }
    vertices' := AppendFaces(r.value, calculateNormal, vertices);
    outcome := Returned(OPERATION_SUCCESS);
  }
}
