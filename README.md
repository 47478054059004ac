# OBJ loading, model transforms and room containment of MC937-Project

This project models the geometry core of a small OpenGL viewer:

- **`read_obj_file` and `generate_mesh_from_file`** (utils/read_obj_file.hpp).
  - Every line of a Wavefront OBJ file is sorted by its keyword (`v`, `vt`, `vn`, `f`).
  - Each face token is decoded in one of four forms: `v`, `v/vt`, `v//vn`, `v/vt/vn`.
    Indices become 0-based, and a missing texture or normal index becomes `GLuint(-1)`.
  - Every face is expanded into consecutive vertices.
  - Every polygon is fanned into `(first, i, i+1)` index triples.
- **`read_obj_attributes`** (main.cpp), the older reader.
  - It keeps the vertex and normal indices of the first three tokens of a face line.
  - It emits three vertices per face. A vertex's normal comes from the file, or for the third corner
    from `calculateNormal`; otherwise it is left unset.
- **`Model`** (utils/model.hpp).
  - The transform state `model` / `baseModel` / `factor`, changed by `translate`, `rotate`, `scale`,
    `set_identity`, `quakeTranslate` and `reverse`.
  - `getGlobalAABB`: the world box over the eight transformed corners of every mesh box. It refreshes
    `position` and `size` as a side effect.
  - The constructor's union of the mesh boxes into `localAABB`.
- **`collideWithRoom`** (utils/collision.hpp): the per-axis vector that pushes a model's world box back
  inside the room's world box.

## How the model is laid out

- Modules and what they hold:
  - `Geometry`: vectors, boxes, and the running componentwise min/max folds.
  - `ObjText`: the text primitives — stream words, `find`, `std::stoi` with its two exceptions,
    `GLuint` conversion.
  - `ObjMesh`: utils/read_obj_file.hpp.
  - `ObjAttributes`: main.cpp.
  - `Transforms`: utils/model.hpp.
  - `RoomCollision`: utils/collision.hpp.
- The loops of the source are methods with loop invariants. Each is proved equal to a function of its
  inputs (`ParseObj`, `Expand`, `FanIndices`, `ParseAttrs`, `ExpandAttrs`, `GlobalBox`, `MeshUnion`).
  Lemmas then prove what the source promises about those functions.
- `Model` is a class. Its methods change exactly the fields the C++ methods assign (`modifies`), and each
  new transform state is given by a step function on `TransformState`.
- Floats are reals. `FLT_MAX` is kept as the start value of the running min/max.
- `GLuint` is the range `0 .. 2^32-1`. A signed-to-unsigned store is reduction modulo 2^32, so
  `stoi(t) - 1 == -1` becomes `0xFFFFFFFF`, the "absent" marker.
- `std::stoi` returns `Ok(n)` or `Err(InvalidArgument | OutOfRange)`. An error stands for the exception
  escaping the readers. The by-reference outputs are then left as they were, since the source assigns
  them only after the loop.
- These stand-ins are parameters: the opened file (`None` when it cannot be opened, otherwise its lines),
  `readFloat` for `stream >> float`, `calculateNormal`, and `apply` for `model * vec4(p, 1)`.
  Matrices are the symbolic terms `Identity | Translated | Scaled | Rotated`.
- `collideWithRoom` only computes a positional correction; it never reads or changes `velocity`.

## Model

| member | source | states |
|---|---|---|
| Geometry.MinOfBelow | utils/model.hpp:94 | the running `glm::min` lies below its start value and below every point folded in |
| Geometry.MinOfAttained | utils/model.hpp:94 | each coordinate of the running minimum is the start value's or some point's |
| Geometry.MaxOfAbove | utils/model.hpp:95 | the running `glm::max` lies above its start value and every point |
| Geometry.MaxOfAttained | utils/model.hpp:95 | each coordinate of the running maximum is the start value's or some point's |
| ObjText.ToGLuintOfIndex | utils/read_obj_file.hpp:66-89 | storing an index in `-1 .. INT_MAX` into a `GLuint` keeps it, except `-1`, which becomes the absent marker |
| ObjText.DropSpaceSuffix | utils/read_obj_file.hpp:62 | skipping leading white space drops only white-space characters and keeps the rest of the line as a suffix |
| ObjText.WordsAreWords | utils/read_obj_file.hpp:62 | every word `stream >> token` yields is non-empty and holds no white space |
| ObjText.WordsOfUnwords | utils/read_obj_file.hpp:42-44 | splitting a line at white space recovers the words it was joined from |
| ObjText.FindFirst | utils/read_obj_file.hpp:63-64 | `find` returns the first occurrence at or after its start, and `npos` exactly when there is none |
| ObjText.StoiIn | utils/read_obj_file.hpp:70 | an `std::stoi` result that is not an exception lies in the range of `int` |
| ObjText.StoiOfDigits | utils/read_obj_file.hpp:70 | `stoi` of a run of decimal digits is their value when `int` holds it |
| ObjText.StoiOfWholeNumeral | utils/read_obj_file.hpp:70 | `stoi` reads back the decimal numeral of any `n <= INT_MAX` |
| ObjText.DigitsValueOfNumeral | utils/read_obj_file.hpp:70 | the digit value of a numeral is the number it was written from |
| ObjMesh.DecodeWithoutSlash | utils/read_obj_file.hpp:66-70 | a token without `/` decodes exactly when `stoi` accepts it, to `(n-1, absent, absent)` |
| ObjMesh.DecodePlain | utils/read_obj_file.hpp:66-70 | the numeral `v` decodes to vertex `v-1` with texture and normal absent |
| ObjMesh.DecodeTwoFields | utils/read_obj_file.hpp:71-74 | `a/b` decodes to `(stoi(a)-1, stoi(b)-1, absent)` |
| ObjMesh.DecodeWithTexture | utils/read_obj_file.hpp:71-74 | `v/vt` decodes to `(v-1, vt-1, absent)` |
| ObjMesh.DecodeOuterFields | utils/read_obj_file.hpp:75-84 | `a//c` decodes to `(stoi(a)-1, absent, stoi(c)-1)`: an empty middle field leaves the texture absent |
| ObjMesh.DecodeWithNormal | utils/read_obj_file.hpp:75-84 | `v//vn` decodes to `(v-1, absent, vn-1)` |
| ObjMesh.DecodeThreeFields | utils/read_obj_file.hpp:75-84 | `a/b/c` with `b` non-empty decodes to all three fields minus one |
| ObjMesh.DecodeFull | utils/read_obj_file.hpp:75-84 | `v/vt/vn` decodes to `(v-1, vt-1, vn-1)` |
| ObjMesh.DecodeEmptyTexture | utils/read_obj_file.hpp:79-83 | whenever `a//c` decodes, its texture is absent and its normal is `stoi(c)-1` |
| ObjMesh.DecodeOfEncode | utils/read_obj_file.hpp:62-92 | every face corner written as its shortest OBJ token decodes back to itself |
| ObjMesh.ParseLineEffect | utils/read_obj_file.hpp:41-95 | one line succeeds unless it is an `f` line with a bad token; it appends to exactly the vector its keyword names and leaves the other three alone |
| ObjMesh.DecodeTokensLayout | utils/read_obj_file.hpp:59-92 | the token loop succeeds exactly when every token decodes; its items are then one per token, each the token's own decoding, in order |
| ObjMesh.DecodeTokensFirstError | utils/read_obj_file.hpp:59-92 | the token loop fails exactly when some token fails, and then with the exception of the first failing token |
| ObjMesh.AllDecodeTokens | utils/read_obj_file.hpp:59-92 | all face lines decode exactly when every single token of every face line decodes |
| ObjMesh.ParseObjSucceedsByLine | utils/read_obj_file.hpp:41-95 | reading a file succeeds exactly when the token loop of every face line succeeds |
| ObjMesh.ParseObjSucceeds | utils/read_obj_file.hpp:41-95 | reading a file succeeds exactly when every token of every face line is accepted by `stoi` (`TokensDecode`); one rejected token anywhere makes it throw |
| ObjMesh.ParseObjPositions | utils/read_obj_file.hpp:46-49 | the positions are the points of the `v` lines in file order |
| ObjMesh.ParseObjTexCoords | utils/read_obj_file.hpp:50-53 | the texture coordinates are those of the `vt` lines in file order |
| ObjMesh.ParseObjNormals | utils/read_obj_file.hpp:54-57 | the normals are the points of the `vn` lines in file order |
| ObjMesh.ParseObjFaces | utils/read_obj_file.hpp:58-95 | there is one face per `f` line, in order, holding the decoded tokens of that line |
| ObjMesh.ParseObjSelects | utils/read_obj_file.hpp:41-101 | the four vectors are the selections by keyword above, and all other lines are ignored |
| ObjMesh.ParseObjErrorSticks | utils/read_obj_file.hpp:41-95 | once a line throws, the later lines change nothing |
| ObjMesh.ReadFaceItems | utils/read_obj_file.hpp:59-92 | the token loop of an `f` line yields one item per token, each the token's decoding, in order; it throws exactly when some token fails, with the first failing token's exception |
| ObjMesh.ReadLine | utils/read_obj_file.hpp:42-95 | the body of the line loop computes the one-line step |
| ObjMesh.ReadObjFile | utils/read_obj_file.hpp:25-105 | an unopened file leaves the four outputs unchanged; a throwing one leaves them unchanged and reports the exception; otherwise they become the data read |
| ObjMesh.ItemsVerticesLayout | utils/read_obj_file.hpp:121-137 | the corners of one face give one vertex each, in order |
| ObjMesh.ExpandLength | utils/read_obj_file.hpp:118-137 | the vertex count is the total number of face items |
| ObjMesh.ExpandAt | utils/read_obj_file.hpp:118-137 | item `j` of face `k` becomes the vertex at index (items before face `k`) + `j` |
| ObjMesh.ExpandLayout | utils/read_obj_file.hpp:118-137 | each face's items occupy consecutive slots `base .. base+n-1` holding their looked-up vertices |
| ObjMesh.ItemCountPrefix | utils/read_obj_file.hpp:118-137 | the slots of every face lie inside the vertex list |
| ObjMesh.FanShape | utils/read_obj_file.hpp:139-145 | an n-gon at `base` gives `3*max(n-2,0)` indices, the `t`-th triple being `(base, base+t+1, base+t+2)`, all in `base .. base+n-1` |
| ObjMesh.FanIndicesShape | utils/read_obj_file.hpp:118-146 | the index buffer has `3*max(n-2,0)` entries per face, and every index is less than the vertex count |
| ObjMesh.FanIndicesLayout | utils/read_obj_file.hpp:139-145 | triple `t` of face `k` is `(first, first+t+1, first+t+2)` for the face's first slot |
| ObjMesh.FanGuardAgrees | utils/read_obj_file.hpp:139-141 | for `n >= 1` the unsigned guard `i < n - 1` agrees with `i + 1 < n` |
| ObjMesh.EmptyFaceEntersFanLoop | utils/read_obj_file.hpp:139-141 | the line `f` reads as a face without items, so `n == 0`; the guard as written then admits `i == 1`, while index 0 of `indicesTemp` is not below its size 0 |
| ObjMesh.AppendFaceVertices | utils/read_obj_file.hpp:119-137 | the corner loop appends the face's vertices and records the slot of each, `|vertices| + q` |
| ObjMesh.AppendFan | utils/read_obj_file.hpp:139-145 | the fan loop appends exactly the fan of the recorded slots |
| ObjMesh.ExpandStep | utils/read_obj_file.hpp:118-146 | one more face extends the vertices by its own vertices and the indices by its own fan |
| ObjMesh.GenerateMeshFromFile | utils/read_obj_file.hpp:107-151 | the mesh holds the expanded vertices and fanned indices of the file; an unopened file gives an empty mesh; a throwing one the exception |
| ObjAttributes.DecodePlainCorner | main.cpp:110-113 | a token without `/` decodes exactly when `stoi` accepts it, to `v = stoi(token)` and `vn = 0`, and otherwise throws what `stoi` throws |
| ObjAttributes.TextureIgnored | main.cpp:114-117 | `a/b` decodes like `a`: the texture field is never read |
| ObjAttributes.MiddleIgnored | main.cpp:118-123 | `a/b/c` decodes like `a//c`: the middle field is never read |
| ObjAttributes.DecodeOuter | main.cpp:118-123 | `a//c` decodes to `v = stoi(a)`, `vn = stoi(c)`, both 1-based |
| ObjAttributes.DecodeOfEncodeCorner | main.cpp:105-123 | a corner written as `v` or `v//vn` decodes back to itself |
| ObjAttributes.DecodeEachLayout | main.cpp:105-125 | the token loop succeeds exactly when every token decodes, and the corners are the tokens' in order |
| ObjAttributes.StoresFirstThree | main.cpp:103-125 | a face stores the corners of at most the first three tokens |
| ObjAttributes.ExtraTokensIgnored | main.cpp:105 | tokens after the third change nothing, not even a malformed one |
| ObjAttributes.ParseAttrLineEffect | main.cpp:85-129 | one line appends to positions, normals or faces by keyword, ignores `vt` and the rest, and throws only on a bad face token |
| ObjAttributes.AllCornersDecodeTokens | main.cpp:105-125 | all face lines store their corners exactly when each of the first three tokens of every face line decodes |
| ObjAttributes.ParseAttrsSucceedsByLine | main.cpp:85-129 | reading succeeds exactly when every face line stores its corners without an exception |
| ObjAttributes.ParseAttrsSucceeds | main.cpp:85-129 | reading succeeds exactly when each of the first three tokens of every face line is accepted by `stoi` (`StoredTokensDecode`); one rejected token among them makes it throw |
| ObjAttributes.ParseAttrsPositions | main.cpp:92-95 | `temp_vertices` are the points of the `v` lines in order |
| ObjAttributes.ParseAttrsNormals | main.cpp:96-99 | `temp_normals` are the points of the `vn` lines in order |
| ObjAttributes.ParseAttrsFaces | main.cpp:100-128 | one face per `f` line, in order, with that line's decoded corners |
| ObjAttributes.ParseAttrsSelects | main.cpp:85-129 | the three vectors are those selections, and all other lines are ignored |
| ObjAttributes.ParseAttrsErrorSticks | main.cpp:85-129 | once a line throws, later lines change nothing |
| ObjAttributes.ExpandAttrsLayout | main.cpp:131-151 | `vertices` grows by exactly three entries per face, entry `3k+i` being corner `i` of face `k` |
| ObjAttributes.CornerNormalRule | main.cpp:132-146 | the vertex at `ExpandAttrs(...)[3*k+i]` exists; its position is that of corner `i`'s `v`; its normal is the file's when `0 < vn <= count`, otherwise `calculateNormal` of the face's three positions when `i == 2`, and unset exactly when neither applies |
| ObjAttributes.ReadCorners | main.cpp:101-125 | the token loop stores the decoded first three tokens, or throws the first exception |
| ObjAttributes.ReadAttrLine | main.cpp:86-128 | the body of the line loop computes the one-line step |
| ObjAttributes.ReadAttrLines | main.cpp:85-129 | the line loop computes the data read, or the first exception |
| ObjAttributes.AppendFace | main.cpp:132-150 | the three vertices of one face are appended in corner order |
| ObjAttributes.AppendFaces | main.cpp:131-151 | the face loop appends the expansion of every face, in order |
| ObjAttributes.ReadObjAttributes | main.cpp:57-154 | an unopened file returns `OPERATION_ERROR`, and a throwing one the exception, both leaving `vertices` unchanged; otherwise the expansion is appended and `OPERATION_SUCCESS` returned |
| Transforms.BaseSynced | utils/model.hpp:138-159 | accumulating `translate`/`rotate`, `scale` and `set_identity` leave `baseModel == model` |
| Transforms.TransientKeepsBase | utils/model.hpp:134-162 | non-accumulating `translate`/`rotate`, `quakeTranslate` and `reverse` keep `baseModel`, and the new `model` is built on it |
| Transforms.FactorOnlyByReverse | utils/model.hpp:130-164 | only `reverse` changes `factor`, which it negates |
| Transforms.QuakeIdempotent | utils/model.hpp:134-136 | `quakeTranslate` twice is `quakeTranslate` once, and it keeps `baseModel` and `factor` |
| Transforms.TransientOverridden | utils/model.hpp:134-164 | a non-accumulating move is forgotten by the next non-accumulating `translate`/`rotate` |
| Transforms.ReverseInvolutive | utils/model.hpp:130-132 | two reverses restore the state |
| Transforms.FactorSign | utils/model.hpp:130-132 | after any calls, `factor` has flipped sign once per `reverse` |
| Transforms.TransientRunKeepsBase | utils/model.hpp:134-164 | any run of non-accumulating calls leaves `baseModel` as it was |
| Transforms.CornersAreVertices | utils/model.hpp:79-88 | the eight corners are exactly the eight min/max vertices of the box |
| Transforms.CornerPointsLayout | utils/model.hpp:75-97 | corner `c` of mesh `k` is transformed point `8k+c` of the fold |
| Transforms.GlobalBoxContains | utils/model.hpp:72-101 | with a mesh, the world box is valid (min <= max) and holds every transformed corner of every mesh box |
| Transforms.GlobalBoxTight | utils/model.hpp:72-97 | with finite corners, each coordinate of the world box is attained by some transformed corner |
| Transforms.MeshUnionContains | utils/model.hpp:118-126 | `localAABB` holds every mesh box, and is valid when the first one is |
| Transforms.MeshUnionOfNone | utils/model.hpp:118-126 | without meshes `localAABB` stays at the inverted sentinels, which is no valid box |
| Transforms.MidpointExtent | utils/model.hpp:103-104 | `position` and `size` determine the box: `position -/+ size/2` are its corners |
| Transforms.FoldCorners | utils/model.hpp:91-96 | the corner loop folds the transformed corners of one mesh into the running min and max |
| Transforms.Model.GlobalAABB | utils/model.hpp:69-107 | the zero box without meshes; otherwise a valid box (`min <= max` on each axis) that contains every transformed corner of every mesh |
| Transforms.Model.constructor | utils/model.hpp:109-128 | with the shader initialised: identity matrices, `factor == 1`, `valid`, and `localAABB` the union of the mesh boxes |
| Transforms.Model.Reverse | utils/model.hpp:130-132 | negates `factor` only |
| Transforms.Model.QuakeTranslate | utils/model.hpp:134-136 | `model := translate(baseModel, factor * o)`, nothing else |
| Transforms.Model.SetIdentity | utils/model.hpp:138-141 | both matrices become the identity |
| Transforms.Model.Translate | utils/model.hpp:143-150 | the accumulate and non-accumulate modes, each as its step function; `accumulate` defaults to true |
| Transforms.Model.Scale | utils/model.hpp:152-155 | scales `model` and copies it into `baseModel` |
| Transforms.Model.Rotate | utils/model.hpp:157-164 | the accumulate and non-accumulate modes of `rotate`; `accumulate` defaults to true |
| Transforms.Model.GetGlobalAABB | utils/model.hpp:69-107 | returns `GlobalAABB`; without meshes `position`/`size` are untouched, otherwise they become the box's midpoint and extent |
| RoomCollision.AxisCorrection | utils/collision.hpp:27-31 | below the room: a positive push flush with the minimum; otherwise above: a negative pull flush with the maximum; inside: zero |
| RoomCollision.Correction | utils/collision.hpp:24-43 | on every axis: a model below the room gets a positive push that makes its minimum flush with the room's; otherwise a model above gets a negative pull that makes its maximum flush; a model inside gets zero |
| RoomCollision.ZeroIffInside | utils/collision.hpp:24-43 | the correction is zero exactly when the model box lies inside the room box |
| RoomCollision.AxesIndependent | utils/collision.hpp:33-43 | one axis's correction depends on that axis's coordinates only |
| RoomCollision.CorrectedInside | utils/collision.hpp:27-43 | a model no wider than the room on any axis lies inside it after the shift |
| RoomCollision.CorrectionSettles | utils/collision.hpp:27-43 | after the shift a second call asks for no further move |
| RoomCollision.LowSideWins | utils/collision.hpp:27-31 | a model wider than the room that sticks out below is pushed flush with the minimum and still sticks out above: the min side has priority |
| RoomCollision.AxisStep | utils/collision.hpp:27-31 | the if/else of one axis computes the axis correction |
| RoomCollision.CollideWithRoom | utils/collision.hpp:17-46 | returns the correction of the two world boxes (room taken first) and refreshes `position`/`size` of each model that has meshes; a model or room without meshes keeps its position and size |

## Left out

- OpenGL, GLFW and GLEW: the `Mesh` constructor's buffer upload, `draw`, `destroy`, shaders, window setup.
  They are GPU and window I/O. `generate_mesh_from_file` returns the vertex and index lists the `Mesh` is built from.
- Opening and reading the file: the file is `None` (cannot be opened) or the sequence of its lines; the
  error messages on `std::cerr` and `print_corners` are console output.
- `stream >> float`: the `readFloat` parameter.
- ObjText.Coord: the `k`-th word of a `v`/`vt`/`vn` line is always read with `readFloat`, and a missing
  word reads as 0.0. In the source a missing coordinate keeps the indeterminate value of the
  uninitialised `glm` vector. After a word that is not a float (as the `x` of `v 1 x 3`), the source
  stores 0 for that component, puts the stream in a failed state and leaves the later components
  untouched, while the model still reads the later words. A word made of a float followed by other
  characters is one coordinate in the model, read whole by `readFloat`. The source stops at the end of
  the float prefix, and the next `>>` goes on inside the same word: `v 1.0-2.0 3.0` reads as
  (1.0, -2.0, 3.0) there, while the model gives x from `1.0-2.0`, y from `3.0` and 0.0 for z.
- `calculateNormal` (normalised cross product): the `calculateNormal` parameter, because it is floating-point vector arithmetic.
- glm matrix arithmetic, `glm::radians` and the product `model * vec4(p, 1)`: matrices are symbolic terms,
  and the point map is the `apply` parameter.
- 32-bit float rounding: all coordinates are reals, so `(max + min) * 0.5f` and the differences are exact.
- ObjMesh.ZeroBased: `stoi(t) - 1` is computed on unbounded integers, so `stoi` returning `INT_MIN`
  does not overflow as it would in C++ (undefined behaviour there).
- ObjMesh.GenerateMeshFromFile: indices are naturals, not 32-bit `GLuint`s. An index buffer past
  2^32 vertices, which cannot wrap in the model, is not captured.
- ObjMesh.GenerateMeshFromFile: requires every face index to be in range. The source reads out of
  bounds otherwise.
- ObjAttributes.ReadObjAttributes: requires that every face has three corners, each with
  `1 <= v <= count`. The source reads uninitialised `face.v[i]` or out of bounds otherwise.
- Transforms.Model.constructor: the meshes are given by their bounding boxes. Reading the meshes
  (`generate_mesh_from_file`) and computing each mesh's `boundingBox` (utils/mesh.hpp) are not part of
  this model. Without an initialised shader the constructor promises only `valid == false`, because the
  source leaves the other fields without a defined value.
- The `velocity` field and `Object` are never updated by the modelled code.
- The commented-out `getTransformedAABB`, `checkAABBCollision` and `checkModelCollision` in
  utils/collision.hpp are not compiled code.

## Findings

| source | as written | input that shows it | evidently intended | confidence | as-written member | corrected member |
|---|---|---|---|---|---|---|
| utils/read_obj_file.hpp:139-141 | `GLuint n = indicesTemp.size(); for (int i = 1; i < n - 1; ++i)` compares in unsigned arithmetic, so for `n == 0` the bound `n - 1` wraps to 4294967295 | a line `f` with no tokens gives a face with no items; the loop is entered with `i == 1` and reads `indicesTemp[0]` of an empty vector | no triangles for a face with fewer than three corners (`i + 1 < n`) | not executed | ObjMesh.EmptyFaceEntersFanLoop | ObjMesh.AppendFan |
