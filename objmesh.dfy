/** The Wavefront OBJ reader of utils/read_obj_file.hpp: `read_obj_file`
    sorts the lines of a file into positions, texture coordinates, normals
    and faces, and `generate_mesh_from_file` expands the faces into a flat
    vertex list and fans every polygon into triangles. */
module ObjMesh {
  import opened Geometry
  import opened ObjText

  /** One corner of a face: 0-based indices, ABSENT where the token has none. */
  datatype FaceItem = FaceItem(vertexIdx: GLuint, textureIdx: GLuint, normalIdx: GLuint)

  datatype Face = Face(faceItems: seq<FaceItem>)

  /** The four vectors `read_obj_file` fills. */
  datatype ObjData = ObjData(positions: seq<Vec3>, texCoords: seq<Vec2>, normals: seq<Vec3>, faces: seq<Face>)

  const NoData: ObjData := ObjData([], [], [], [])

  /** `stoi(token.substr(from, to - from)) - 1` stored into a `GLuint`. */
  function ZeroBased(token: string, from: nat, to: nat): Result<GLuint>
    requires from <= to <= |token|
  {
    match Stoi(token[from..to])
    case Err(e) => Err(e)
    case Ok(n) => Ok(ToGLuint(n - 1))
  }

  /** One face token in any of the forms `v`, `v/vt`, `v//vn`, `v/vt/vn`. */
  function DecodeToken(token: string): Result<FaceItem> {
    match Find(token, '/', 0)
    case None => DecodeNoSlash(token)
    case Some(slash1) =>
      match Find(token, '/', slash1 + 1)
      case None => DecodeOneSlash(token, slash1)
      case Some(slash2) => DecodeTwoSlashes(token, slash1, slash2)
  }

  /** `f v1 v2 v3`: the whole token is the vertex. */
  function DecodeNoSlash(token: string): Result<FaceItem> {
    match ZeroBased(token, 0, |token|)
    case Err(e) => Err(e)
    case Ok(v) => Ok(FaceItem(v, ABSENT, ABSENT))
  }

  /** `f v1/vt1 ...`: vertex before the slash, texture after it. */
  function DecodeOneSlash(token: string, slash1: nat): Result<FaceItem>
    requires slash1 < |token|
  {
    var v, t := ZeroBased(token, 0, slash1), ZeroBased(token, slash1 + 1, |token|);
    if v.Err? then Err(v.error)
    else if t.Err? then Err(t.error)
    else Ok(FaceItem(v.value, t.value, ABSENT))
  }

  /** `f v1/vt1/vn1 ...` or `f v1//vn1 ...`: the texture only when the middle
      field is not empty, the normal after the second slash. */
  function DecodeTwoSlashes(token: string, slash1: nat, slash2: nat): Result<FaceItem>
    requires slash1 < slash2 < |token|
  {
    var v := ZeroBased(token, 0, slash1);
    var t := if slash1 + 1 < slash2 then ZeroBased(token, slash1 + 1, slash2) else Ok(ABSENT);
    var n := ZeroBased(token, slash2 + 1, |token|);
    if v.Err? then Err(v.error)
    else if t.Err? then Err(t.error)
    else if n.Err? then Err(n.error)
    else Ok(FaceItem(v.value, t.value, n.value))
  }

  /** The tokens of one face line, in order; the first failing token's
      exception ends the reading. */
  function DecodeTokens(tokens: seq<string>): Result<seq<FaceItem>> {
    if tokens == [] then Ok([])
    else
      var init :- DecodeTokens(tokens[..|tokens| - 1]);
      var item :- DecodeToken(tokens[|tokens| - 1]);
      Ok(init + [item])
  }

  /** The token loop succeeds exactly when every token decodes; its items
      are then the tokens' own, one per token, in order. */
  lemma {:induction false} DecodeTokensLayout(tokens: seq<string>)
    ensures DecodeTokens(tokens).Ok? <==> forall j :: 0 <= j < |tokens| ==> DecodeToken(tokens[j]).Ok?
    ensures DecodeTokens(tokens).Ok? ==>
              |DecodeTokens(tokens).value| == |tokens|
              && forall j :: 0 <= j < |tokens| ==> DecodeToken(tokens[j]) == Ok(DecodeTokens(tokens).value[j])
  {
    if tokens != [] {
      var init := tokens[..|tokens| - 1];
      DecodeTokensLayout(init);
      assert forall j :: 0 <= j < |init| ==> init[j] == tokens[j];
      if DecodeTokens(init).Ok? && DecodeToken(tokens[|tokens| - 1]).Ok? {
        var r := DecodeTokens(tokens).value;
        assert r == DecodeTokens(init).value + [DecodeToken(tokens[|tokens| - 1]).value];
        forall j | 0 <= j < |tokens| ensures DecodeToken(tokens[j]) == Ok(r[j]) {
          if j < |init| {
            assert r[j] == DecodeTokens(init).value[j];
          }
        }
      }
    }
  }

  /** A failing token loop fails with the exception of its first failing
      token. */
  lemma {:induction false} DecodeTokensFirstError(tokens: seq<string>)
    ensures DecodeTokens(tokens).Err? <==> exists j :: 0 <= j < |tokens| && DecodeToken(tokens[j]).Err?
    ensures DecodeTokens(tokens).Err? ==>
              exists j :: 0 <= j < |tokens| && DecodeToken(tokens[j]).Err?
                && DecodeTokens(tokens) == Err(DecodeToken(tokens[j]).error)
                && forall i :: 0 <= i < j ==> DecodeToken(tokens[i]).Ok?
  {
    DecodeTokensLayout(tokens);
    if tokens != [] {
      var init, last := tokens[..|tokens| - 1], |tokens| - 1;
      DecodeTokensFirstError(init);
      assert forall i :: 0 <= i < |init| ==> init[i] == tokens[i];
      if DecodeTokens(init).Err? {
        var j :| 0 <= j < |init| && DecodeToken(init[j]).Err?
                 && DecodeTokens(init) == Err(DecodeToken(init[j]).error)
                 && forall i :: 0 <= i < j ==> DecodeToken(init[i]).Ok?;
        assert DecodeToken(tokens[j]).Err?;
      } else if DecodeToken(tokens[last]).Err? {
        DecodeTokensLayout(init);
        assert forall i :: 0 <= i < last ==> DecodeToken(tokens[i]).Ok?;
      }
    }
  }

  /** Indices that the shortest token form can write back in 1-based
      numerals that `stoi` accepts. */
  predicate Encodable(it: FaceItem) {
    && it.vertexIdx < INT_MAX
    && (it.textureIdx == ABSENT || it.textureIdx < INT_MAX)
    && (it.normalIdx == ABSENT || it.normalIdx < INT_MAX)
  }

  /** The token an OBJ writer emits for a face corner: `v`, `v/vt`, `v//vn`
      or `v/vt/vn`, each index written 1-based. */
  function EncodeItem(it: FaceItem): string
    requires Encodable(it)
  {
    var v := Numeral(it.vertexIdx + 1);
    if it.normalIdx == ABSENT then
      if it.textureIdx == ABSENT then v else v + "/" + Numeral(it.textureIdx + 1)
    else
      if it.textureIdx == ABSENT then v + "//" + Numeral(it.normalIdx + 1)
      else v + "/" + Numeral(it.textureIdx + 1) + "/" + Numeral(it.normalIdx + 1)
  }

  /** A field `t` standing at `from..to` in `s` reads as `stoi(t) - 1`. */
  lemma FieldOf(s: string, from: nat, to: nat, t: string, n: int)
    requires from <= to <= |s| && s[from..to] == t && Stoi(t) == Ok(n)
    ensures ZeroBased(s, from, to) == Ok(ToGLuint(n - 1))
  {
  }

  /** A token whose only slash is at `i` is read by DecodeOneSlash. */
  lemma OneSlashDispatch(s: string, i: nat)
    requires Find(s, '/', 0) == Some(i) && Find(s, '/', i + 1) == None
    ensures i < |s| && DecodeToken(s) == DecodeOneSlash(s, i)
  {
  }

  /** A token with its first two slashes at `i` and `j` is read by DecodeTwoSlashes. */
  lemma TwoSlashesDispatch(s: string, i: nat, j: nat)
    requires Find(s, '/', 0) == Some(i) && Find(s, '/', i + 1) == Some(j)
    ensures i < j < |s| && DecodeToken(s) == DecodeTwoSlashes(s, i, j)
  {
  }

  /** A token with one slash, at `i`, decodes to its two fields. */
  lemma OneSlashAt(s: string, i: nat, x: GLuint, y: GLuint)
    requires Find(s, '/', 0) == Some(i) && Find(s, '/', i + 1) == None
    requires ZeroBased(s, 0, i) == Ok(x) && ZeroBased(s, i + 1, |s|) == Ok(y)
    ensures DecodeToken(s) == Ok(FaceItem(x, y, ABSENT))
  {
    OneSlashDispatch(s, i);
  }

  /** A token with its first two slashes at `i` and `j` decodes to its three
      fields, the middle one ABSENT when empty. */
  lemma TwoSlashesAt(s: string, i: nat, j: nat, x: GLuint, y: GLuint, z: GLuint)
    requires Find(s, '/', 0) == Some(i) && Find(s, '/', i + 1) == Some(j)
    requires ZeroBased(s, 0, i) == Ok(x) && ZeroBased(s, j + 1, |s|) == Ok(z)
    requires i + 1 == j ==> y == ABSENT
    requires i + 1 < j ==> ZeroBased(s, i + 1, j) == Ok(y)
    ensures DecodeToken(s) == Ok(FaceItem(x, y, z))
  {
    TwoSlashesDispatch(s, i, j);
  }

  /** A token with its first two slashes at `i` and `j`, a non-empty middle
      field and three fields `stoi` accepts decodes to them minus one. */
  lemma ThreeFieldsAt(s: string, i: nat, j: nat, x: int, y: int, z: int)
    requires i + 1 < j < |s|
    requires Find(s, '/', 0) == Some(i) && Find(s, '/', i + 1) == Some(j)
    requires Stoi(s[0..i]) == Ok(x) && Stoi(s[i + 1..j]) == Ok(y) && Stoi(s[j + 1..|s|]) == Ok(z)
    ensures DecodeToken(s) == Ok(FaceItem(ToGLuint(x - 1), ToGLuint(y - 1), ToGLuint(z - 1)))
  {
    FieldOf(s, 0, i, s[0..i], x);
    FieldOf(s, i + 1, j, s[i + 1..j], y);
    FieldOf(s, j + 1, |s|, s[j + 1..|s|], z);
    TwoSlashesAt(s, i, j, ToGLuint(x - 1), ToGLuint(y - 1), ToGLuint(z - 1));
  }

  /** A plain token `v` gives vertex `v - 1` and neither texture nor normal. */
  lemma DecodePlain(v: nat)
    requires 1 <= v <= INT_MAX
    ensures DecodeToken(Numeral(v)) == Ok(FaceItem(v - 1, ABSENT, ABSENT))
  {
    var a := Numeral(v);
    assert a[0..|a|] == a;
    StoiOfWholeNumeral(v);
    FieldOf(a, 0, |a|, a, v);
    NumeralNoSlash(v);
    FindNone(a, '/', 0);
  }

  /** A token `a/b` whose fields hold no slash decodes to the two fields'
      `stoi` values minus one, with no normal. */
  lemma DecodeTwoFields(a: string, b: string, x: int, y: int)
    requires NoSlash(a) && NoSlash(b)
    requires Stoi(a) == Ok(x) && Stoi(b) == Ok(y)
    ensures DecodeToken(a + "/" + b) == Ok(FaceItem(ToGLuint(x - 1), ToGLuint(y - 1), ABSENT))
  {
    var s := a + "/" + b;
    FieldsOfOne(a, b);
    FieldOf(s, 0, |a|, a, x);
    FieldOf(s, |a| + 1, |s|, b, y);
    SlashesOfOne(a, b);
    OneSlashAt(s, |a|, ToGLuint(x - 1), ToGLuint(y - 1));
  }

  /** A token `a//c` with no slash in `a` decodes to the outer fields'
      `stoi` values minus one, with no texture. */
  lemma DecodeOuterFields(a: string, c: string, x: int, z: int)
    requires NoSlash(a)
    requires Stoi(a) == Ok(x) && Stoi(c) == Ok(z)
    ensures DecodeToken(a + "//" + c) == Ok(FaceItem(ToGLuint(x - 1), ABSENT, ToGLuint(z - 1)))
  {
    var s := a + "//" + c;
    FieldsOfAdjacent(a, c);
    FieldOf(s, 0, |a|, a, x);
    FieldOf(s, |a| + 2, |s|, c, z);
    SlashesOfAdjacent(a, c);
    TwoSlashesAt(s, |a|, |a| + 1, ToGLuint(x - 1), ABSENT, ToGLuint(z - 1));
  }

  /** A token `v/vt` gives vertex `v - 1`, texture `vt - 1` and no normal. */
  lemma DecodeWithTexture(v: nat, vt: nat)
    requires 1 <= v <= INT_MAX && 1 <= vt <= INT_MAX
    ensures DecodeToken(Numeral(v) + "/" + Numeral(vt)) == Ok(FaceItem(v - 1, vt - 1, ABSENT))
  {
    StoiOfWholeNumeral(v);
    StoiOfWholeNumeral(vt);
    NumeralNoSlash(v);
    NumeralNoSlash(vt);
    DecodeTwoFields(Numeral(v), Numeral(vt), v, vt);
  }

  /** A token `v//vn` gives vertex `v - 1`, no texture and normal `vn - 1`. */
  lemma DecodeWithNormal(v: nat, vn: nat)
    requires 1 <= v <= INT_MAX && 1 <= vn <= INT_MAX
    ensures DecodeToken(Numeral(v) + "//" + Numeral(vn)) == Ok(FaceItem(v - 1, ABSENT, vn - 1))
  {
    StoiOfWholeNumeral(v);
    StoiOfWholeNumeral(vn);
    NumeralNoSlash(v);
    DecodeOuterFields(Numeral(v), Numeral(vn), v, vn);
  }

  /** A token `a/b/c` whose fields hold no slash and a nonempty middle
      decodes to the three fields' `stoi` values minus one. */
  lemma DecodeThreeFields(a: string, b: string, c: string, x: int, y: int, z: int)
    requires NoSlash(a) && NoSlash(b) && b != []
    requires Stoi(a) == Ok(x) && Stoi(b) == Ok(y) && Stoi(c) == Ok(z)
    ensures DecodeToken(a + "/" + b + "/" + c) == Ok(FaceItem(ToGLuint(x - 1), ToGLuint(y - 1), ToGLuint(z - 1)))
  {
    var s := a + "/" + b + "/" + c;
    FieldsOfTwo(a, b, c);
    SlashesOfTwo(a, b, c);
    ThreeFieldsAt(s, |a|, |a| + 1 + |b|, x, y, z);
  }

  /** A token `v/vt/vn` gives all three indices minus one. */
  lemma DecodeFull(v: nat, vt: nat, vn: nat)
    requires 1 <= v <= INT_MAX && 1 <= vt <= INT_MAX && 1 <= vn <= INT_MAX
    ensures DecodeToken(Numeral(v) + "/" + Numeral(vt) + "/" + Numeral(vn)) == Ok(FaceItem(v - 1, vt - 1, vn - 1))
  {
    StoiOfWholeNumeral(v);
    StoiOfWholeNumeral(vt);
    StoiOfWholeNumeral(vn);
    NumeralNoSlash(v);
    NumeralNoSlash(vt);
    DecodeThreeFields(Numeral(v), Numeral(vt), Numeral(vn), v, vt, vn);
  }

  /** Decoding reads back every corner an OBJ writer can emit. */
  lemma DecodeOfEncode(it: FaceItem)
    requires Encodable(it)
    ensures DecodeToken(EncodeItem(it)) == Ok(it)
  {
    var v, vt, vn := it.vertexIdx + 1, it.textureIdx + 1, it.normalIdx + 1;
    var token := EncodeItem(it);
    if it.normalIdx == ABSENT {
      if it.textureIdx == ABSENT {
        assert token == Numeral(v);
        DecodePlain(v);
      } else {
        assert token == Numeral(v) + "/" + Numeral(vt);
        DecodeWithTexture(v, vt);
      }
    } else if it.textureIdx == ABSENT {
      assert token == Numeral(v) + "//" + Numeral(vn);
      DecodeWithNormal(v, vn);
    } else {
      assert token == Numeral(v) + "/" + Numeral(vt) + "/" + Numeral(vn);
      DecodeFull(v, vt, vn);
    }
  }

  /** Whatever the token, no slash means no texture and no normal index. */
  lemma DecodeWithoutSlash(token: string)
    requires NoSlash(token)
    ensures DecodeToken(token).Ok? <==> Stoi(token).Ok?
    ensures DecodeToken(token).Ok? ==>
              DecodeToken(token).value == FaceItem(ToGLuint(Stoi(token).value - 1), ABSENT, ABSENT)
  {
    FindNone(token, '/', 0);
    assert token[0..|token|] == token;
  }

  /** Whatever the fields, a token `a//c` never carries a texture index, and
      its normal index is `stoi(c) - 1`. */
  lemma DecodeEmptyTexture(a: string, c: string)
    requires NoSlash(a)
    ensures DecodeToken(a + "//" + c).Ok? ==> DecodeToken(a + "//" + c).value.textureIdx == ABSENT
    ensures DecodeToken(a + "//" + c).Ok? ==>
              Stoi(c).Ok? && DecodeToken(a + "//" + c).value.normalIdx == ToGLuint(Stoi(c).value - 1)
  {
    var s := a + "//" + c;
    SlashesOfAdjacent(a, c);
    FieldsOfAdjacent(a, c);
    assert DecodeToken(s) == DecodeTwoSlashes(s, |a|, |a| + 1);
  }

  /** What `read_obj_file` does with one line. */
  function ParseLine(d: ObjData, line: string, readFloat: string -> real): Result<ObjData> {
    ParseWords(d, Keyword(line), Words(line), readFloat)
  }

  /** One line given by its keyword and its words. */
  function ParseWords(d: ObjData, kind: string, words: seq<string>, readFloat: string -> real): Result<ObjData>
    requires words == [] ==> kind == ""
  {
    if kind == "v" then Ok(d.(positions := d.positions + [Point3(words, readFloat)]))
    else if kind == "vt" then Ok(d.(texCoords := d.texCoords + [Point2(words, readFloat)]))
    else if kind == "vn" then Ok(d.(normals := d.normals + [Point3(words, readFloat)]))
    else if kind == "f" then
      var items :- DecodeTokens(words[1..]);
      Ok(d.(faces := d.faces + [Face(items)]))
    else Ok(d)
  }

  /** The four vectors read from the lines of a file, or the exception. */
  function ParseObj(lines: seq<string>, readFloat: string -> real): Result<ObjData> {
    if lines == [] then Ok(NoData)
    else
      var d :- ParseObj(lines[..|lines| - 1], readFloat);
      ParseLine(d, lines[|lines| - 1], readFloat)
  }

  /** Reference selection: the texture coordinates of the `vt` lines. */
  function TexCoordsOf(lines: seq<string>, readFloat: string -> real): seq<Vec2> {
    if lines == [] then []
    else
      var last := lines[|lines| - 1];
      TexCoordsOf(lines[..|lines| - 1], readFloat)
        + (if Keyword(last) == "vt" then [Point2(Words(last), readFloat)] else [])
  }

  /** Every token list decodes. */
  predicate AllDecode(ls: seq<seq<string>>) {
    forall k :: 0 <= k < |ls| ==> DecodeTokens(ls[k]).Ok?
  }

  /** Every face line decodes. */
  predicate FacesDecode(lines: seq<string>) {
    AllDecode(FaceLinesOf(lines))
  }

  lemma AllDecodeOne(tokens: seq<string>)
    ensures AllDecode([tokens]) <==> DecodeTokens(tokens).Ok?
  {
    assert [tokens][0] == tokens;
  }

  /** Every single token of every token list decodes. */
  predicate TokensDecode(ls: seq<seq<string>>) {
    forall k, j :: 0 <= k < |ls| && 0 <= j < |ls[k]| ==> DecodeToken(ls[k][j]).Ok?
  }

  /** A list of token lists decodes exactly when each of its tokens does. */
  lemma AllDecodeTokens(ls: seq<seq<string>>)
    ensures AllDecode(ls) <==> TokensDecode(ls)
  {
    forall k | 0 <= k < |ls|
      ensures DecodeTokens(ls[k]).Ok? <==> forall j :: 0 <= j < |ls[k]| ==> DecodeToken(ls[k][j]).Ok?
    {
      DecodeTokensLayout(ls[k]);
    }
  }

  lemma AllDecodeAppend(a: seq<seq<string>>, b: seq<seq<string>>)
    ensures AllDecode(a + b) <==> AllDecode(a) && AllDecode(b)
  {
    assert forall k :: 0 <= k < |a| ==> (a + b)[k] == a[k];
    assert forall k :: 0 <= k < |b| ==> (a + b)[|a| + k] == b[k];
  }

  /** One line adds at most one element, to the vector its keyword names;
      only a face line whose tokens do not decode throws. */
  lemma ParseLineEffect(d: ObjData, line: string, readFloat: string -> real)
    ensures ParseLine(d, line, readFloat).Ok? <==> (Keyword(line) == "f" ==> DecodeTokens(Words(line)[1..]).Ok?)
    ensures ParseLine(d, line, readFloat).Ok? ==>
              var d' := ParseLine(d, line, readFloat).value;
              var kind := Keyword(line);
              && d'.positions == d.positions + (if kind == "v" then [Point3(Words(line), readFloat)] else [])
              && d'.texCoords == d.texCoords + (if kind == "vt" then [Point2(Words(line), readFloat)] else [])
              && d'.normals == d.normals + (if kind == "vn" then [Point3(Words(line), readFloat)] else [])
              && d'.faces == d.faces + (if kind == "f" then [Face(DecodeTokens(Words(line)[1..]).value)] else [])
  {
    ParseWordsEffect(d, Keyword(line), Words(line), readFloat);
  }

  lemma ParseWordsEffect(d: ObjData, kind: string, words: seq<string>, readFloat: string -> real)
    requires words == [] ==> kind == ""
    ensures ParseWords(d, kind, words, readFloat).Ok? <==> (kind == "f" ==> DecodeTokens(words[1..]).Ok?)
    ensures ParseWords(d, kind, words, readFloat).Ok? ==>
              var d' := ParseWords(d, kind, words, readFloat).value;
              && d'.positions == d.positions + (if kind == "v" then [Point3(words, readFloat)] else [])
              && d'.texCoords == d.texCoords + (if kind == "vt" then [Point2(words, readFloat)] else [])
              && d'.normals == d.normals + (if kind == "vn" then [Point3(words, readFloat)] else [])
              && d'.faces == d.faces + (if kind == "f" then [Face(DecodeTokens(words[1..]).value)] else [])
  {
    KeywordsDistinct();
  }

  /** Reading succeeds exactly when every face line's tokens decode. */
  lemma {:induction false} ParseObjSucceedsByLine(lines: seq<string>, readFloat: string -> real)
    ensures ParseObj(lines, readFloat).Ok? <==> FacesDecode(lines)
  {
    if lines != [] {
      var init, last := lines[..|lines| - 1], lines[|lines| - 1];
      ParseObjSucceedsByLine(init, readFloat);
      var extra := if Keyword(last) == "f" then [Words(last)[1..]] else [];
      assert FaceLinesOf(lines) == FaceLinesOf(init) + extra;
      AllDecodeAppend(FaceLinesOf(init), extra);
      if Keyword(last) == "f" {
        AllDecodeOne(Words(last)[1..]);
      }
      if ParseObj(init, readFloat).Ok? {
        ParseLineEffect(ParseObj(init, readFloat).value, last, readFloat);
      }
    }
  }

  /** Reading throws exactly when some token of some face line is one that
      `stoi` rejects. */
  lemma ParseObjSucceeds(lines: seq<string>, readFloat: string -> real)
    ensures ParseObj(lines, readFloat).Ok? <==> TokensDecode(FaceLinesOf(lines))
  {
    ParseObjSucceedsByLine(lines, readFloat);
    AllDecodeTokens(FaceLinesOf(lines));
  }


  /** The positions read are the points of the `v` lines, in file order. */
  lemma {:induction false} ParseObjPositions(lines: seq<string>, readFloat: string -> real)
    ensures ParseObj(lines, readFloat).Ok? ==> ParseObj(lines, readFloat).value.positions == PointsOf(lines, "v", readFloat)
  {
    if lines != [] && ParseObj(lines, readFloat).Ok? {
      var init, last := lines[..|lines| - 1], lines[|lines| - 1];
      ParseObjPositions(init, readFloat);
      ParseLineEffect(ParseObj(init, readFloat).value, last, readFloat);
    }
  }

  /** The texture coordinates read are those of the `vt` lines, in file order. */
  lemma {:induction false} ParseObjTexCoords(lines: seq<string>, readFloat: string -> real)
    ensures ParseObj(lines, readFloat).Ok? ==> ParseObj(lines, readFloat).value.texCoords == TexCoordsOf(lines, readFloat)
  {
    if lines != [] && ParseObj(lines, readFloat).Ok? {
      var init, last := lines[..|lines| - 1], lines[|lines| - 1];
      ParseObjTexCoords(init, readFloat);
      ParseLineEffect(ParseObj(init, readFloat).value, last, readFloat);
    }
  }

  /** The normals read are the points of the `vn` lines, in file order. */
  lemma {:induction false} ParseObjNormals(lines: seq<string>, readFloat: string -> real)
    ensures ParseObj(lines, readFloat).Ok? ==> ParseObj(lines, readFloat).value.normals == PointsOf(lines, "vn", readFloat)
  {
    if lines != [] && ParseObj(lines, readFloat).Ok? {
      var init, last := lines[..|lines| - 1], lines[|lines| - 1];
      ParseObjNormals(init, readFloat);
      ParseLineEffect(ParseObj(init, readFloat).value, last, readFloat);
    }
  }

  /** The faces read are the decoded `f` lines, one face per line, in file order. */
  lemma {:induction false} ParseObjFaces(lines: seq<string>, readFloat: string -> real)
    ensures ParseObj(lines, readFloat).Ok? ==>
              var faces := ParseObj(lines, readFloat).value.faces;
              && |faces| == |FaceLinesOf(lines)|
              && forall k :: 0 <= k < |faces| ==> DecodeTokens(FaceLinesOf(lines)[k]) == Ok(faces[k].faceItems)
  {
    if lines != [] && ParseObj(lines, readFloat).Ok? {
      var init, last := lines[..|lines| - 1], lines[|lines| - 1];
      ParseObjFaces(init, readFloat);
      var d := ParseObj(init, readFloat).value;
      ParseLineEffect(d, last, readFloat);
      var d' := ParseObj(lines, readFloat).value;
      var isFace := Keyword(last) == "f";
      var el := if isFace then [Words(last)[1..]] else [];
      var ef := if isFace then [Face(DecodeTokens(Words(last)[1..]).value)] else [];
      assert FaceLinesOf(lines) == FaceLinesOf(init) + el;
      assert d'.faces == d.faces + ef;
      FacesMatchAppend(d.faces, FaceLinesOf(init), ef, el);
    }
  }

  /** Two lists of faces matched index by index with their token lists stay
      matched when joined. */
  lemma FacesMatchAppend(faces: seq<Face>, fl: seq<seq<string>>, ef: seq<Face>, el: seq<seq<string>>)
    requires |faces| == |fl| && forall k :: 0 <= k < |faces| ==> DecodeTokens(fl[k]) == Ok(faces[k].faceItems)
    requires |ef| == |el| && forall k :: 0 <= k < |ef| ==> DecodeTokens(el[k]) == Ok(ef[k].faceItems)
    ensures |faces + ef| == |fl + el|
    ensures forall k :: 0 <= k < |faces + ef| ==> DecodeTokens((fl + el)[k]) == Ok((faces + ef)[k].faceItems)
  {
    forall k | 0 <= k < |faces + ef| ensures DecodeTokens((fl + el)[k]) == Ok((faces + ef)[k].faceItems) {
      if k < |faces| {
        assert (fl + el)[k] == fl[k] && (faces + ef)[k] == faces[k];
      } else {
        assert (fl + el)[k] == el[k - |fl|] && (faces + ef)[k] == ef[k - |faces|];
      }
    }
  }

  /** Reading succeeds exactly when every face line decodes; then each
      vector holds, in file order, what the lines of its keyword describe
      (lines of every other keyword are ignored). */
  lemma ParseObjSelects(lines: seq<string>, readFloat: string -> real)
    ensures ParseObj(lines, readFloat).Ok? <==> TokensDecode(FaceLinesOf(lines))
    ensures ParseObj(lines, readFloat).Ok? ==>
              var d := ParseObj(lines, readFloat).value;
              && d.positions == PointsOf(lines, "v", readFloat)
              && d.texCoords == TexCoordsOf(lines, readFloat)
              && d.normals == PointsOf(lines, "vn", readFloat)
              && |d.faces| == |FaceLinesOf(lines)|
              && forall k :: 0 <= k < |d.faces| ==> DecodeTokens(FaceLinesOf(lines)[k]) == Ok(d.faces[k].faceItems)
  {
    ParseObjSucceeds(lines, readFloat);
    ParseObjPositions(lines, readFloat);
    ParseObjTexCoords(lines, readFloat);
    ParseObjNormals(lines, readFloat);
    ParseObjFaces(lines, readFloat);
  }

  /** Once a prefix of the file throws, the whole file throws the same. */
  lemma {:induction false} ParseObjErrorSticks(lines: seq<string>, i: nat, readFloat: string -> real)
    requires i <= |lines|
    requires ParseObj(lines[..i], readFloat).Err?
    ensures ParseObj(lines, readFloat) == ParseObj(lines[..i], readFloat)
    decreases |lines| - i
  {
    if i < |lines| {
      ParseObjStep(lines, i, readFloat);
      ParseObjErrorSticks(lines, i + 1, readFloat);
    } else {
      assert lines[..i] == lines;
    }
  }

  lemma {:induction false} DecodeTokensErrorSticks(tokens: seq<string>, j: nat)
    requires j <= |tokens|
    requires DecodeTokens(tokens[..j]).Err?
    ensures DecodeTokens(tokens) == DecodeTokens(tokens[..j])
    decreases |tokens| - j
  {
    if j < |tokens| {
      assert tokens[..j + 1][..j] == tokens[..j];
      DecodeTokensErrorSticks(tokens, j + 1);
    } else {
      assert tokens[..j] == tokens;
    }
  }

  /** Reading one more line continues from the data read so far. */
  lemma ParseObjStep(lines: seq<string>, i: nat, readFloat: string -> real)
    requires i < |lines|
    ensures ParseObj(lines[..i + 1], readFloat)
         == if ParseObj(lines[..i], readFloat).Err? then ParseObj(lines[..i], readFloat)
            else ParseLine(ParseObj(lines[..i], readFloat).value, lines[i], readFloat)
  {
    assert lines[..i + 1][..i] == lines[..i];
  }

  /** The token loop of a face line: the items of the tokens in order, or
      the exception of the first token that does not decode. */
  method ReadFaceItems(tokens: seq<string>) returns (r: Result<seq<FaceItem>>)
    ensures r == DecodeTokens(tokens)
    ensures r.Ok? ==> |r.value| == |tokens| && forall j :: 0 <= j < |tokens| ==> DecodeToken(tokens[j]) == Ok(r.value[j])
    ensures r.Err? <==> exists j :: 0 <= j < |tokens| && DecodeToken(tokens[j]).Err?
    ensures r.Err? ==> exists j :: 0 <= j < |tokens| && DecodeToken(tokens[j]).Err?
                          && r == Err(DecodeToken(tokens[j]).error)
                          && forall i :: 0 <= i < j ==> DecodeToken(tokens[i]).Ok?
  {
    var items: seq<FaceItem> := [];
    var j := 0;
    while j < |tokens|
      invariant 0 <= j <= |tokens|
      invariant DecodeTokens(tokens[..j]) == Ok(items)
    {
      assert tokens[..j + 1][..j] == tokens[..j];
      var item := DecodeToken(tokens[j]);
      if item.Err? {
        DecodeTokensErrorSticks(tokens, j + 1);
        DecodeTokensFirstError(tokens);
        return Err(item.error);
      }
      items := items + [item.value];
      j := j + 1;
    }
    assert tokens[..j] == tokens;
    DecodeTokensLayout(tokens);
    DecodeTokensFirstError(tokens);
    return Ok(items);
  }

  /** The body of the line loop: the line's keyword picks the vector that
      grows; a face line runs the token loop. */
  method ReadLine(acc: ObjData, line: string, readFloat: string -> real) returns (r: Result<ObjData>)
    ensures r == ParseLine(acc, line, readFloat)
  {
    var words := Words(line);
    var kind := if words == [] then "" else words[0];
    if kind == "v" {
      r := Ok(acc.(positions := acc.positions + [Point3(words, readFloat)]));
    } else if kind == "vt" {
      r := Ok(acc.(texCoords := acc.texCoords + [Point2(words, readFloat)]));
    } else if kind == "vn" {
      r := Ok(acc.(normals := acc.normals + [Point3(words, readFloat)]));
    } else if kind == "f" {
      var items := ReadFaceItems(words[1..]);
      if items.Err? {
        return Err(items.error);
      }
      r := Ok(acc.(faces := acc.faces + [Face(items.value)]));
    } else {
      r := Ok(acc);
    }
  }

  /** `read_obj_file`: `file` is None when the file cannot be opened; `m` is
      what the four by-reference vectors hold before the call. They are
      assigned only after the whole file has been read, so a file that
      cannot be opened or throws leaves them as they were. */
  method ReadObjFile(file: Option<seq<string>>, readFloat: string -> real, m: ObjData)
    returns (error: Option<StoiError>, out: ObjData)
    ensures file.None? ==> error.None? && out == m
    ensures file.Some? && ParseObj(file.value, readFloat).Ok? ==>
              error.None? && out == ParseObj(file.value, readFloat).value
    ensures file.Some? && ParseObj(file.value, readFloat).Err? ==>
              error == Some(ParseObj(file.value, readFloat).error) && out == m
  {
    error, out := None, m;
    if file.None? {
      return;
    }
    var lines := file.value;
    var acc := NoData;
    var i := 0;
    while i < |lines|
      invariant 0 <= i <= |lines|
      invariant ParseObj(lines[..i], readFloat) == Ok(acc)
    {
      ParseObjStep(lines, i, readFloat);
      var r := ReadLine(acc, lines[i], readFloat);
      if r.Err? {
        ParseObjErrorSticks(lines, i + 1, readFloat);
        error := Some(r.error);
        return;
      }
      acc := r.value;
      i := i + 1;
    }
    assert lines[..i] == lines;
    out := acc;
  }

  /** One element of the vertex buffer: position, texture coordinate, normal. */
  datatype Vertex = Vertex(position: Vec3, textureCoord: Vec2, normal: Vec3)

  /** The vertex and index buffers handed to the GPU-side `Mesh`. */
  datatype MeshData = MeshData(vertices: seq<Vertex>, indices: seq<nat>)

  /** The lookups `generate_mesh_from_file` makes for a corner stay inside the vectors. */
  predicate ItemInRange(d: ObjData, it: FaceItem) {
    && it.vertexIdx < |d.positions|
    && (it.textureIdx == ABSENT || it.textureIdx < |d.texCoords|)
    && (it.normalIdx == ABSENT || it.normalIdx < |d.normals|)
  }

  predicate ItemsInRange(d: ObjData, items: seq<FaceItem>) {
    forall j :: 0 <= j < |items| ==> ItemInRange(d, items[j])
  }

  predicate FacesInRange(d: ObjData, faces: seq<Face>) {
    forall k :: 0 <= k < |faces| ==> ItemsInRange(d, faces[k].faceItems)
  }

  /** The vertex built for one corner; a missing texture or normal index
      gives the zero vector instead of a lookup. */
  function VertexOf(d: ObjData, it: FaceItem): Vertex
    requires ItemInRange(d, it)
  {
    Vertex(d.positions[it.vertexIdx],
           if it.textureIdx == ABSENT then Zero2 else d.texCoords[it.textureIdx],
           if it.normalIdx == ABSENT then Zero3 else d.normals[it.normalIdx])
  }

  function ItemsVertices(d: ObjData, items: seq<FaceItem>): seq<Vertex>
    requires ItemsInRange(d, items)
  {
    if items == [] then [] else ItemsVertices(d, items[..|items| - 1]) + [VertexOf(d, items[|items| - 1])]
  }

  /** The vertices of all faces, face after face, corner after corner. */
  function Expand(d: ObjData, faces: seq<Face>): seq<Vertex>
    requires FacesInRange(d, faces)
  {
    if faces == [] then []
    else
      var last := faces[|faces| - 1];
      Expand(d, faces[..|faces| - 1]) + ItemsVertices(d, last.faceItems)
  }

  /** Total number of face items. */
  function ItemCount(faces: seq<Face>): nat {
    if faces == [] then 0 else ItemCount(faces[..|faces| - 1]) + |faces[|faces| - 1].faceItems|
  }

  /** The fan of a polygon whose `n` vertices sit at `base .. base+n-1`:
      triangles `(base, base+i, base+i+1)` for `i` = 1 .. n-2. */
  function Fan(base: nat, n: nat): seq<nat> {
    if n < 3 then [] else Fan(base, n - 1) + [base, base + n - 2, base + n - 1]
  }

  /** The index buffer: the fans of all faces in order. */
  function FanIndices(faces: seq<Face>): seq<nat> {
    if faces == [] then []
    else
      var init := faces[..|faces| - 1];
      FanIndices(init) + Fan(ItemCount(init), |faces[|faces| - 1].faceItems|)
  }

  /** An n-gon contributes 3 * max(n - 2, 0) indices. */
  function TriangleIndexCount(faces: seq<Face>): nat {
    if faces == [] then 0
    else
      var n := |faces[|faces| - 1].faceItems|;
      TriangleIndexCount(faces[..|faces| - 1]) + (if n >= 2 then 3 * (n - 2) else 0)
  }

  lemma {:induction false} ItemsVerticesLayout(d: ObjData, items: seq<FaceItem>)
    requires ItemsInRange(d, items)
    ensures |ItemsVertices(d, items)| == |items|
    ensures forall j :: 0 <= j < |items| ==> ItemsVertices(d, items)[j] == VertexOf(d, items[j])
  {
    if items != [] {
      var init := items[..|items| - 1];
      ItemsVerticesLayout(d, init);
      assert forall j :: 0 <= j < |init| ==> init[j] == items[j];
    }
  }

  /** One corner more through the corner loop. */
  lemma ItemsVerticesStep(d: ObjData, items: seq<FaceItem>, j: nat)
    requires ItemsInRange(d, items)
    requires j < |items|
    ensures |ItemsVertices(d, items[..j])| == j
    ensures ItemsVertices(d, items[..j + 1]) == ItemsVertices(d, items[..j]) + [VertexOf(d, items[j])]
  {
    assert items[..j + 1][..j] == items[..j];
    ItemsVerticesLayout(d, items[..j]);
  }

  /** The faces of a prefix stay inside the vectors. */
  lemma FacesInRangePrefix(d: ObjData, faces: seq<Face>, m: nat)
    requires FacesInRange(d, faces) && m <= |faces|
    ensures FacesInRange(d, faces[..m])
  {
    forall k | 0 <= k < m ensures ItemsInRange(d, faces[..m][k].faceItems) {
      assert faces[..m][k] == faces[k];
    }
  }

  /** The vertex buffer has one vertex per face item. */
  lemma {:induction false} ExpandLength(d: ObjData, faces: seq<Face>)
    requires FacesInRange(d, faces)
    ensures |Expand(d, faces)| == ItemCount(faces)
  {
    if faces != [] {
      var init := faces[..|faces| - 1];
      FacesInRangePrefix(d, faces, |faces| - 1);
      ExpandLength(d, init);
      ItemsVerticesLayout(d, faces[|faces| - 1].faceItems);
    }
  }

  /** Corner `j` of face `k` sits at the slot after the corners of the faces
      before face `k`. */
  lemma {:induction false} ExpandAt(d: ObjData, faces: seq<Face>, k: nat, j: nat)
    requires FacesInRange(d, faces)
    requires k < |faces| && j < |faces[k].faceItems|
    ensures ItemCount(faces[..k]) + j < |Expand(d, faces)|
    ensures Expand(d, faces)[ItemCount(faces[..k]) + j] == VertexOf(d, faces[k].faceItems[j])
    decreases |faces|
  {
    var init := faces[..|faces| - 1];
    var last := faces[|faces| - 1];
    FacesInRangePrefix(d, faces, |faces| - 1);
    ExpandLength(d, init);
    ItemsVerticesLayout(d, last.faceItems);
    var e := Expand(d, init);
    if k == |faces| - 1 {
      assert faces[..k] == init;
      assert Expand(d, faces)[|e| + j] == ItemsVertices(d, last.faceItems)[j];
    } else {
      assert faces[..k] == init[..k];
      assert init[k] == faces[k];
      ExpandAt(d, init, k, j);
      assert Expand(d, faces)[ItemCount(init[..k]) + j] == e[ItemCount(init[..k]) + j];
    }
  }

  /** The vertex buffer has one vertex per face item, and the items of face
      `k` occupy the consecutive slots starting at the number of items of
      the faces before it. */
  lemma ExpandLayout(d: ObjData, faces: seq<Face>)
    requires FacesInRange(d, faces)
    ensures |Expand(d, faces)| == ItemCount(faces)
    ensures forall k :: 0 <= k < |faces| ==> ItemCount(faces[..k]) + |faces[k].faceItems| <= ItemCount(faces)
    ensures forall k, j :: 0 <= k < |faces| && 0 <= j < |faces[k].faceItems| ==>
              Expand(d, faces)[ItemCount(faces[..k]) + j] == VertexOf(d, faces[k].faceItems[j])
  {
    ExpandLength(d, faces);
    forall k | 0 <= k < |faces|
      ensures ItemCount(faces[..k]) + |faces[k].faceItems| <= ItemCount(faces)
    {
      ItemCountPrefix(faces, k);
    }
    forall k, j | 0 <= k < |faces| && 0 <= j < |faces[k].faceItems|
      ensures Expand(d, faces)[ItemCount(faces[..k]) + j] == VertexOf(d, faces[k].faceItems[j])
    {
      ExpandAt(d, faces, k, j);
    }
  }

  /** The items of the faces before face `k`, then face `k`'s own, fit in
      the total. */
  lemma {:induction false} ItemCountPrefix(faces: seq<Face>, k: nat)
    requires k < |faces|
    ensures ItemCount(faces[..k]) + |faces[k].faceItems| <= ItemCount(faces)
    decreases |faces| - k
  {
    assert faces[..k + 1][..k] == faces[..k];
    if k + 1 < |faces| {
      ItemCountPrefix(faces, k + 1);
    } else {
      assert faces[..k + 1] == faces;
    }
  }

  /** The fan of an n-gon: 3 * max(n - 2, 0) indices, triangle `t` being
      `(base, base+t+1, base+t+2)`, every index inside the polygon's slots. */
  lemma {:induction false} FanShape(base: nat, n: nat)
    ensures |Fan(base, n)| == if n >= 2 then 3 * (n - 2) else 0
    ensures forall t :: 0 <= t < n - 2 ==>
              Fan(base, n)[3 * t] == base && Fan(base, n)[3 * t + 1] == base + t + 1
              && Fan(base, n)[3 * t + 2] == base + t + 2
    ensures forall q :: 0 <= q < |Fan(base, n)| ==> base <= Fan(base, n)[q] < base + n
  {
    if n >= 3 {
      FanShape(base, n - 1);
      var f := Fan(base, n - 1);
      assert Fan(base, n) == f + [base, base + n - 2, base + n - 1];
      forall t | 0 <= t < n - 2
        ensures Fan(base, n)[3 * t] == base && Fan(base, n)[3 * t + 1] == base + t + 1
                && Fan(base, n)[3 * t + 2] == base + t + 2
      {
        if t < n - 3 {
          assert Fan(base, n)[3 * t] == f[3 * t];
          assert Fan(base, n)[3 * t + 1] == f[3 * t + 1];
          assert Fan(base, n)[3 * t + 2] == f[3 * t + 2];
        }
      }
    }
  }

  /** The index buffer has 3 * max(n - 2, 0) entries per n-gon, and every
      entry names a vertex of the vertex buffer. */
  lemma {:induction false} FanIndicesShape(faces: seq<Face>)
    ensures |FanIndices(faces)| == TriangleIndexCount(faces)
    ensures forall q :: 0 <= q < |FanIndices(faces)| ==> FanIndices(faces)[q] < ItemCount(faces)
  {
    if faces != [] {
      var init := faces[..|faces| - 1];
      var n := |faces[|faces| - 1].faceItems|;
      FanIndicesShape(init);
      FanShape(ItemCount(init), n);
      var a := FanIndices(init);
      var b := Fan(ItemCount(init), n);
      forall q | 0 <= q < |a + b| ensures (a + b)[q] < ItemCount(faces) {
        if q >= |a| { assert (a + b)[q] == b[q - |a|]; }
      }
    }
  }

  /** Face `k`'s triangles follow the triangles of the faces before it:
      its `t`-th triangle is `(first, first+t+1, first+t+2)` where `first`
      is the slot of its first vertex. */
  lemma {:induction false} FanIndicesLayout(faces: seq<Face>, k: nat, t: nat)
    requires k < |faces| && t + 2 < |faces[k].faceItems|
    ensures var at := TriangleIndexCount(faces[..k]) + 3 * t;
            var first := ItemCount(faces[..k]);
            && at + 2 < |FanIndices(faces)|
            && FanIndices(faces)[at] == first
            && FanIndices(faces)[at + 1] == first + t + 1
            && FanIndices(faces)[at + 2] == first + t + 2
    decreases |faces|
  {
    var init := faces[..|faces| - 1];
    var n := |faces[|faces| - 1].faceItems|;
    var a, b := FanIndices(init), Fan(ItemCount(init), n);
    FanIndicesLength(init);
    assert FanIndices(faces) == a + b;
    if k == |faces| - 1 {
      assert faces[..k] == init;
      FanShape(ItemCount(init), n);
      var at := |a| + 3 * t;
      assert (a + b)[at] == b[3 * t] && (a + b)[at + 1] == b[3 * t + 1] && (a + b)[at + 2] == b[3 * t + 2];
    } else {
      assert faces[..k] == init[..k];
      assert init[k] == faces[k];
      FanIndicesLayout(init, k, t);
      var at := TriangleIndexCount(init[..k]) + 3 * t;
      assert (a + b)[at] == a[at] && (a + b)[at + 1] == a[at + 1] && (a + b)[at + 2] == a[at + 2];
    }
  }

  lemma {:induction false} FanLength(base: nat, n: nat)
    ensures |Fan(base, n)| == if n >= 2 then 3 * (n - 2) else 0
  {
    if n >= 3 {
      FanLength(base, n - 1);
    }
  }

  lemma {:induction false} FanIndicesLength(faces: seq<Face>)
    ensures |FanIndices(faces)| == TriangleIndexCount(faces)
  {
    if faces != [] {
      var init := faces[..|faces| - 1];
      FanIndicesLength(init);
      FanLength(ItemCount(init), |faces[|faces| - 1].faceItems|);
    }
  }

  /** The fan loop's guard as written, `i < n - 1`: `n` is a `GLuint`, so
      `n - 1` wraps around and `i` is compared as an unsigned value. */
  function FanGuardAsWritten(i: int, n: GLuint): bool {
    ToGLuint(i) < ToGLuint(n - 1)
  }

  /** The line `f` reads as a face without items, so its `indicesTemp` is
      empty and `n == 0`; the guard as written then holds at `i == 1`, and
      the body's first read, `indicesTemp[0]`, is out of bounds. */
  lemma EmptyFaceEntersFanLoop(d: ObjData, readFloat: string -> real)
    ensures ParseLine(d, "f", readFloat) == Ok(d.(faces := d.faces + [Face([])]))
    ensures var indicesTemp := Face([]).faceItems;
            FanGuardAsWritten(1, |indicesTemp|) && !(0 < |indicesTemp|)
  {
    assert "f" + [] == "f";
    WordsOfWordThen("f", []);
    assert Words([]) == [];
    KeywordsDistinct();
    assert Words("f")[1..] == [];
  }

  /** For every non-empty face the guard as written is the corrected guard
      `i + 1 < n` that GenerateMeshFromFile uses. */
  lemma FanGuardAgrees(i: int, n: GLuint)
    requires 1 <= n && 1 <= i <= n
    ensures FanGuardAsWritten(i, n) <==> i + 1 < n
  {
  }

  /** What `generate_mesh_from_file` demands of its input: every corner's
      lookups stay inside the vectors read. */
  predicate MeshReadable(file: Option<seq<string>>, readFloat: string -> real) {
    file.Some? && ParseObj(file.value, readFloat).Ok? ==>
      FacesInRange(ParseObj(file.value, readFloat).value, ParseObj(file.value, readFloat).value.faces)
  }

  /** The corner loop of one face: a vertex per corner is appended, and
      `indicesTemp` records the slot each one landed in. */
  method AppendFaceVertices(d: ObjData, items: seq<FaceItem>, vertices: seq<Vertex>)
    returns (vertices': seq<Vertex>, indicesTemp: seq<nat>)
    requires ItemsInRange(d, items)
    ensures vertices' == vertices + ItemsVertices(d, items)
    ensures |indicesTemp| == |items| && forall q :: 0 <= q < |items| ==> indicesTemp[q] == |vertices| + q
  {
    vertices' := vertices;
    indicesTemp := [];
    var j := 0;
    while j < |items|
      invariant 0 <= j <= |items|
      invariant vertices' == vertices + ItemsVertices(d, items[..j])
      invariant |indicesTemp| == j && forall q :: 0 <= q < j ==> indicesTemp[q] == |vertices| + q
    {
      ItemsVerticesStep(d, items, j);
      var fc := items[j];
      var position := d.positions[fc.vertexIdx];
      var texCoord := if fc.textureIdx == ABSENT then Zero2 else d.texCoords[fc.textureIdx];
      var normal := if fc.normalIdx == ABSENT then Zero3 else d.normals[fc.normalIdx];
      vertices' := vertices' + [Vertex(position, texCoord, normal)];
      indicesTemp := indicesTemp + [|vertices'| - 1];
      j := j + 1;
    }
    assert items[..j] == items;
  }

  /** The fan loop of one face, with the guard corrected to `i + 1 < n`:
      the triangles `(t[0], t[i], t[i+1])` for the recorded slots `t`. */
  method AppendFan(indices: seq<nat>, indicesTemp: seq<nat>, ghost base: nat) returns (indices': seq<nat>)
    requires forall q :: 0 <= q < |indicesTemp| ==> indicesTemp[q] == base + q
    ensures indices' == indices + Fan(base, |indicesTemp|)
  {
    var n := |indicesTemp|;
    indices' := indices;
    var i := 1;
    while i + 1 < n
      invariant 1 <= i && (i <= n - 1 || i == 1)
      invariant indices' == indices + Fan(base, i + 1)
    {
      indices' := indices' + [indicesTemp[0], indicesTemp[i], indicesTemp[i + 1]];
      i := i + 1;
    }
  }

  /** One face more: its vertices follow the vertices of the faces before it,
      its fan follows their fans. */
  lemma ExpandStep(d: ObjData, faces: seq<Face>, f: nat)
    requires FacesInRange(d, faces) && f < |faces|
    ensures FacesInRange(d, faces[..f]) && FacesInRange(d, faces[..f + 1])
    ensures ItemsInRange(d, faces[f].faceItems)
    ensures Expand(d, faces[..f + 1]) == Expand(d, faces[..f]) + ItemsVertices(d, faces[f].faceItems)
    ensures FanIndices(faces[..f + 1]) == FanIndices(faces[..f]) + Fan(ItemCount(faces[..f]), |faces[f].faceItems|)
    ensures |Expand(d, faces[..f])| == ItemCount(faces[..f])
  {
    FacesInRangePrefix(d, faces, f);
    FacesInRangePrefix(d, faces, f + 1);
    assert faces[..f + 1][..f] == faces[..f];
    assert faces[..f + 1][f] == faces[f];
    ExpandLength(d, faces[..f]);
  }

  /** `generate_mesh_from_file` without the GPU upload of the `Mesh`
      constructor: an unreadable file gives empty buffers, a throwing one
      the exception, otherwise every face is expanded and fanned. */
  method GenerateMeshFromFile(file: Option<seq<string>>, readFloat: string -> real) returns (r: Result<MeshData>)
    requires MeshReadable(file, readFloat)
    ensures file.None? ==> r == Ok(MeshData([], []))
    ensures file.Some? && ParseObj(file.value, readFloat).Err? ==> r == Err(ParseObj(file.value, readFloat).error)
    ensures file.Some? && ParseObj(file.value, readFloat).Ok? ==>
              var d := ParseObj(file.value, readFloat).value;
              r == Ok(MeshData(Expand(d, d.faces), FanIndices(d.faces)))
  {
    var error, d := ReadObjFile(file, readFloat, NoData);
    if error.Some? {
      return Err(error.value);
    }
    assert FacesInRange(d, d.faces);
    var vertices: seq<Vertex> := [];
    var indices: seq<nat> := [];
    var f := 0;
    while f < |d.faces|
      invariant 0 <= f <= |d.faces|
      invariant FacesInRange(d, d.faces[..f])
      invariant vertices == Expand(d, d.faces[..f])
      invariant indices == FanIndices(d.faces[..f])
    {
      ExpandStep(d, d.faces, f);
      var indicesTemp;
      vertices, indicesTemp := AppendFaceVertices(d, d.faces[f].faceItems, vertices);
      indices := AppendFan(indices, indicesTemp, ItemCount(d.faces[..f]));
      f := f + 1;
    }
    assert d.faces[..f] == d.faces;
    r := Ok(MeshData(vertices, indices));
  }
}
