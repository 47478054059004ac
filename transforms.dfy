/** The `Model` of utils/model.hpp: the transform state made of `model`,
    `baseModel` and `factor`, the world-space bounding box of all meshes
    (`getGlobalAABB`) and the local box the constructor builds. Matrices are
    kept as the terms that built them, and the product `model * vec4(p, 1)`
    is a parameter `apply`. */
module Transforms {
  import opened Geometry

  /** A 4x4 matrix, as the sequence of glm calls that produced it. */
  datatype Mat =
    | Identity
    | Translated(base: Mat, offset: Vec3)
    | Scaled(base: Mat, factors: Vec3)
    | Rotated(base: Mat, degrees: real, axis: Vec3)

  /** The fields the transform methods read and write. */
  datatype TransformState = TransformState(model: Mat, baseModel: Mat, factor: real)

  /** `translate(v, accumulate)`: accumulating moves the current matrix and
      makes it the new base; otherwise the offset is taken from the base. */
  function TranslateStep(s: TransformState, v: Vec3, accumulate: bool): TransformState {
    if accumulate then s.(model := Translated(s.model, v), baseModel := Translated(s.model, v))
    else s.(model := Translated(s.baseModel, v))
  }

  /** `rotate(angle, axis, accumulate)`, with the same two modes. */
  function RotateStep(s: TransformState, degrees: real, axis: Vec3, accumulate: bool): TransformState {
    if accumulate then s.(model := Rotated(s.model, degrees, axis), baseModel := Rotated(s.model, degrees, axis))
    else s.(model := Rotated(s.baseModel, degrees, axis))
  }

  /** `scale(v)`: always onto the current matrix, which becomes the base. */
  function ScaleStep(s: TransformState, v: Vec3): TransformState {
    s.(model := Scaled(s.model, v), baseModel := Scaled(s.model, v))
  }

  /** `set_identity()`. */
  function IdentityStep(s: TransformState): TransformState {
    s.(model := Identity, baseModel := Identity)
  }

  /** `quakeTranslate(o)`: the base moved by `factor * o`. */
  function QuakeStep(s: TransformState, o: Vec3): TransformState {
    s.(model := Translated(s.baseModel, Times(s.factor, o)))
  }

  /** `reverse()`. */
  function ReverseStep(s: TransformState): TransformState {
    s.(factor := -s.factor)
  }

  /** The transform calls, for reasoning about sequences of them. */
  datatype Op =
    | SetIdentity
    | Translate(v: Vec3, accumulate: bool)
    | Scale(v: Vec3)
    | Rotate(degrees: real, axis: Vec3, accumulate: bool)
    | QuakeTranslate(offset: Vec3)
    | Reverse

  function Step(s: TransformState, op: Op): TransformState {
    match op
    case SetIdentity => IdentityStep(s)
    case Translate(v, acc) => TranslateStep(s, v, acc)
    case Scale(v) => ScaleStep(s, v)
    case Rotate(a, axis, acc) => RotateStep(s, a, axis, acc)
    case QuakeTranslate(o) => QuakeStep(s, o)
    case Reverse => ReverseStep(s)
  }

  function Run(s: TransformState, ops: seq<Op>): TransformState {
    if ops == [] then s else Step(Run(s, ops[..|ops| - 1]), ops[|ops| - 1])
  }

  /** The calls that leave `baseModel` alone. */
  predicate Transient(op: Op) {
    op.QuakeTranslate? || op.Reverse? || (op.Translate? && !op.accumulate) || (op.Rotate? && !op.accumulate)
  }

  function ReverseCount(ops: seq<Op>): nat {
    if ops == [] then 0 else ReverseCount(ops[..|ops| - 1]) + (if ops[|ops| - 1].Reverse? then 1 else 0)
  }

  /** Accumulating calls, `scale` and `set_identity` leave model and base equal. */
  lemma BaseSynced(s: TransformState, op: Op)
    requires !Transient(op)
    ensures Step(s, op).baseModel == Step(s, op).model
  {
  }

  /** Non-accumulating calls take the base and never change it. */
  lemma TransientKeepsBase(s: TransformState, op: Op)
    requires Transient(op)
    ensures Step(s, op).baseModel == s.baseModel
    ensures !op.Reverse? ==> Step(s, op).model.base == s.baseModel
  {
  }

  /** Only `reverse` changes `factor`. */
  lemma FactorOnlyByReverse(s: TransformState, op: Op)
    ensures Step(s, op).factor == if op.Reverse? then -s.factor else s.factor
  {
  }

  /** Quake offsets do not pile up: a second call with the same offset changes
      nothing, and the call never touches `baseModel` or `factor`. */
  lemma QuakeIdempotent(s: TransformState, o: Vec3)
    ensures QuakeStep(QuakeStep(s, o), o) == QuakeStep(s, o)
    ensures QuakeStep(s, o).baseModel == s.baseModel && QuakeStep(s, o).factor == s.factor
  {
  }

  /** A non-accumulating move is forgotten by the next one: only the last
      offset from the base counts. */
  lemma TransientOverridden(s: TransformState, op1: Op, op2: Op)
    requires Transient(op1) && !op1.Reverse? && Transient(op2) && !op2.Reverse? && !op2.QuakeTranslate?
    ensures Step(Step(s, op1), op2) == Step(s, op2)
  {
  }

  /** Two reverses restore `factor`. */
  lemma ReverseInvolutive(s: TransformState)
    ensures ReverseStep(ReverseStep(s)) == s
  {
  }

  /** After any calls, `factor` is the start value with its sign flipped once
      per `reverse`. */
  lemma {:induction false} FactorSign(s: TransformState, ops: seq<Op>)
    ensures Run(s, ops).factor == if ReverseCount(ops) % 2 == 0 then s.factor else -s.factor
  {
    if ops != [] {
      FactorSign(s, ops[..|ops| - 1]);
    }
  }

  /** Calls that are all non-accumulating never move `baseModel`. */
  lemma {:induction false} TransientRunKeepsBase(s: TransformState, ops: seq<Op>)
    requires forall k :: 0 <= k < |ops| ==> Transient(ops[k])
    ensures Run(s, ops).baseModel == s.baseModel
  {
    if ops != [] {
      var init := ops[..|ops| - 1];
      assert forall k :: 0 <= k < |init| ==> init[k] == ops[k];
      TransientRunKeepsBase(s, init);
    }
  }

  /** The 8 corners of a box, in the order of the `corners` array. */
  function Corners(b: AABB): (cs: seq<Vec3>)
    ensures |cs| == 8
  {
    var lo, hi := b.minCorner, b.maxCorner;
    [Vec3(lo.x, lo.y, lo.z), Vec3(hi.x, lo.y, lo.z), Vec3(hi.x, hi.y, lo.z), Vec3(lo.x, hi.y, lo.z),
     Vec3(lo.x, lo.y, hi.z), Vec3(hi.x, lo.y, hi.z), Vec3(hi.x, hi.y, hi.z), Vec3(lo.x, hi.y, hi.z)]
  }

  /** The box vertex that takes the max or min coordinate per axis. */
  function BoxVertex(b: AABB, hx: bool, hy: bool, hz: bool): Vec3 {
    Vec3(if hx then b.maxCorner.x else b.minCorner.x,
         if hy then b.maxCorner.y else b.minCorner.y,
         if hz then b.maxCorner.z else b.minCorner.z)
  }

  /** The corners are exactly the eight vertices of the box. */
  lemma CornersAreVertices(b: AABB)
    ensures forall c :: 0 <= c < 8 ==> exists hx, hy, hz :: Corners(b)[c] == BoxVertex(b, hx, hy, hz)
    ensures forall hx, hy, hz :: BoxVertex(b, hx, hy, hz) in Corners(b)
  {
    var cs := Corners(b);
    assert cs[0] == BoxVertex(b, false, false, false) && cs[1] == BoxVertex(b, true, false, false);
    assert cs[2] == BoxVertex(b, true, true, false) && cs[3] == BoxVertex(b, false, true, false);
    assert cs[4] == BoxVertex(b, false, false, true) && cs[5] == BoxVertex(b, true, false, true);
    assert cs[6] == BoxVertex(b, true, true, true) && cs[7] == BoxVertex(b, false, true, true);
  }

  /** `model * vec4(p, 1)` for each point. */
  function Transformed(apply: (Mat, Vec3) -> Vec3, m: Mat, pts: seq<Vec3>): (ts: seq<Vec3>)
    ensures |ts| == |pts| && forall k :: 0 <= k < |pts| ==> ts[k] == apply(m, pts[k])
  {
    seq(|pts|, k requires 0 <= k < |pts| => apply(m, pts[k]))
  }

  /** The transformed corners of all mesh boxes, mesh after mesh. */
  function CornerPoints(apply: (Mat, Vec3) -> Vec3, m: Mat, boxes: seq<AABB>): seq<Vec3> {
    if boxes == [] then []
    else CornerPoints(apply, m, boxes[..|boxes| - 1]) + Transformed(apply, m, Corners(boxes[|boxes| - 1]))
  }

  /** `getGlobalAABB` of a non-empty model: the running min and max over all
      transformed corners, started at the FLT_MAX sentinels. */
  function GlobalBox(apply: (Mat, Vec3) -> Vec3, m: Mat, boxes: seq<AABB>): AABB {
    var pts := CornerPoints(apply, m, boxes);
    AABB(MinOf(HighSentinel, pts), MaxOf(LowSentinel, pts))
  }

  /** Corner `c` of mesh `k` is point `8k + c`. */
  lemma {:induction false} CornerPointsLayout(apply: (Mat, Vec3) -> Vec3, m: Mat, boxes: seq<AABB>)
    ensures |CornerPoints(apply, m, boxes)| == 8 * |boxes|
    ensures forall k, c :: 0 <= k < |boxes| && 0 <= c < 8 ==>
              CornerPoints(apply, m, boxes)[8 * k + c] == apply(m, Corners(boxes[k])[c])
  {
    if boxes != [] {
      var init := boxes[..|boxes| - 1];
      CornerPointsLayout(apply, m, init);
      var a, b := CornerPoints(apply, m, init), Transformed(apply, m, Corners(boxes[|boxes| - 1]));
      forall k, c | 0 <= k < |boxes| && 0 <= c < 8
        ensures CornerPoints(apply, m, boxes)[8 * k + c] == apply(m, Corners(boxes[k])[c])
      {
        if k < |init| {
          assert init[k] == boxes[k];
          assert (a + b)[8 * k + c] == a[8 * k + c];
        } else {
          assert (a + b)[8 * k + c] == b[c];
        }
      }
    }
  }

  /** With at least one mesh the global box is a valid box holding every
      transformed corner of every mesh box. */
  lemma GlobalBoxContains(apply: (Mat, Vec3) -> Vec3, m: Mat, boxes: seq<AABB>)
    requires boxes != []
    ensures ValidBox(GlobalBox(apply, m, boxes))
    ensures forall k, c :: 0 <= k < |boxes| && 0 <= c < 8 ==>
              ContainsPoint(GlobalBox(apply, m, boxes), apply(m, Corners(boxes[k])[c]))
  {
    var pts := CornerPoints(apply, m, boxes);
    CornerPointsLayout(apply, m, boxes);
    MinOfBelow(HighSentinel, pts);
    MaxOfAbove(LowSentinel, pts);
    assert pts[0] == apply(m, Corners(boxes[0])[0]);
    forall k, c | 0 <= k < |boxes| && 0 <= c < 8
      ensures ContainsPoint(GlobalBox(apply, m, boxes), apply(m, Corners(boxes[k])[c]))
    {
      assert pts[8 * k + c] == apply(m, Corners(boxes[k])[c]);
    }
  }

  /** Points whose coordinates a 32-bit float can hold. */
  predicate InFloatRange(p: Vec3) {
    forall ax :: -FLT_MAX <= At(p, ax) <= FLT_MAX
  }

  /** When the transformed corners are finite floats the global box is the
      smallest one holding them: each of its coordinates is some corner's. */
  lemma GlobalBoxTight(apply: (Mat, Vec3) -> Vec3, m: Mat, boxes: seq<AABB>, ax: Axis)
    requires boxes != []
    requires forall q :: 0 <= q < |CornerPoints(apply, m, boxes)| ==> InFloatRange(CornerPoints(apply, m, boxes)[q])
    ensures exists q :: 0 <= q < |CornerPoints(apply, m, boxes)|
              && At(CornerPoints(apply, m, boxes)[q], ax) == At(GlobalBox(apply, m, boxes).minCorner, ax)
    ensures exists q :: 0 <= q < |CornerPoints(apply, m, boxes)|
              && At(CornerPoints(apply, m, boxes)[q], ax) == At(GlobalBox(apply, m, boxes).maxCorner, ax)
  {
    var pts := CornerPoints(apply, m, boxes);
    CornerPointsLayout(apply, m, boxes);
    MinOfBelow(HighSentinel, pts);
    MaxOfAbove(LowSentinel, pts);
    MinOfAttained(HighSentinel, pts, ax);
    MaxOfAttained(LowSentinel, pts, ax);
    assert InFloatRange(pts[0]);
    assert LessEq(MinOf(HighSentinel, pts), pts[0]) && LessEq(pts[0], MaxOf(LowSentinel, pts));
  }

  /** The first corners of the mesh boxes, in mesh order. */
  function MinCorners(boxes: seq<AABB>): (r: seq<Vec3>)
    ensures |r| == |boxes| && forall k :: 0 <= k < |boxes| ==> r[k] == boxes[k].minCorner
  {
    seq(|boxes|, k requires 0 <= k < |boxes| => boxes[k].minCorner)
  }

  function MaxCorners(boxes: seq<AABB>): (r: seq<Vec3>)
    ensures |r| == |boxes| && forall k :: 0 <= k < |boxes| ==> r[k] == boxes[k].maxCorner
  {
    seq(|boxes|, k requires 0 <= k < |boxes| => boxes[k].maxCorner)
  }

  /** The constructor's `localAABB`: componentwise min of the mesh boxes'
      min corners and max of their max corners, from the FLT_MAX sentinels. */
  function MeshUnion(boxes: seq<AABB>): AABB {
    AABB(MinOf(HighSentinel, MinCorners(boxes)), MaxOf(LowSentinel, MaxCorners(boxes)))
  }

  predicate ContainsBox(outer: AABB, inner: AABB) {
    LessEq(outer.minCorner, inner.minCorner) && LessEq(inner.maxCorner, outer.maxCorner)
  }

  /** The union holds every mesh box, and is valid when the boxes are. */
  lemma MeshUnionContains(boxes: seq<AABB>)
    ensures forall k :: 0 <= k < |boxes| ==> ContainsBox(MeshUnion(boxes), boxes[k])
    ensures boxes != [] && ValidBox(boxes[0]) ==> ValidBox(MeshUnion(boxes))
  {
    MinOfBelow(HighSentinel, MinCorners(boxes));
    MaxOfAbove(LowSentinel, MaxCorners(boxes));
    forall k | 0 <= k < |boxes| ensures ContainsBox(MeshUnion(boxes), boxes[k]) {
      assert MinCorners(boxes)[k] == boxes[k].minCorner && MaxCorners(boxes)[k] == boxes[k].maxCorner;
    }
    if boxes != [] && ValidBox(boxes[0]) {
      assert ContainsBox(MeshUnion(boxes), boxes[0]);
    }
  }

  /** Without meshes the union stays at the inverted sentinels, which is no
      valid box. */
  lemma MeshUnionOfNone()
    ensures MeshUnion([]) == AABB(HighSentinel, LowSentinel)
    ensures !ValidBox(MeshUnion([]))
  {
    assert At(HighSentinel, X) > At(LowSentinel, X);
  }

  function Midpoint(b: AABB): Vec3 { Times(0.5, Add(b.maxCorner, b.minCorner)) }

  function Extent(b: AABB): Vec3 { Sub(b.maxCorner, b.minCorner) }

  /** `position` is the centre of the box and `size` its extent: the box is
      recovered from them. */
  lemma MidpointExtent(b: AABB)
    ensures Sub(Midpoint(b), Times(0.5, Extent(b))) == b.minCorner
    ensures Add(Midpoint(b), Times(0.5, Extent(b))) == b.maxCorner
  {
  }

  /** One more mesh box in the corner sequence. */
  lemma CornerPointsStep(apply: (Mat, Vec3) -> Vec3, m: Mat, boxes: seq<AABB>, i: nat)
    requires i < |boxes|
    ensures CornerPoints(apply, m, boxes[..i + 1]) == CornerPoints(apply, m, boxes[..i]) + Transformed(apply, m, Corners(boxes[i]))
  {
    assert boxes[..i + 1][..i] == boxes[..i];
  }

  /** Folding corner `j` extends the running min and max by one point. */
  lemma FoldStep(apply: (Mat, Vec3) -> Vec3, m: Mat, done: seq<Vec3>, corners: seq<Vec3>, j: nat)
    requires j < |corners|
    ensures MinOf(HighSentinel, done + Transformed(apply, m, corners[..j + 1]))
            == VMin(MinOf(HighSentinel, done + Transformed(apply, m, corners[..j])), apply(m, corners[j]))
    ensures MaxOf(LowSentinel, done + Transformed(apply, m, corners[..j + 1]))
            == VMax(MaxOf(LowSentinel, done + Transformed(apply, m, corners[..j])), apply(m, corners[j]))
  {
    var next := done + Transformed(apply, m, corners[..j + 1]);
    assert next[..|next| - 1] == done + Transformed(apply, m, corners[..j]);
  }

  /** The inner loop of `getGlobalAABB`: folds the transformed corners of one
      mesh box into the running min and max. */
  method FoldCorners(apply: (Mat, Vec3) -> Vec3, m: Mat, done: seq<Vec3>, corners: seq<Vec3>, min: Vec3, max: Vec3)
    returns (min': Vec3, max': Vec3)
    requires min == MinOf(HighSentinel, done) && max == MaxOf(LowSentinel, done)
    ensures min' == MinOf(HighSentinel, done + Transformed(apply, m, corners))
    ensures max' == MaxOf(LowSentinel, done + Transformed(apply, m, corners))
  {
    min', max' := min, max;
    var j := 0;
    assert done + Transformed(apply, m, corners[..0]) == done;
    while j < |corners|
      invariant 0 <= j <= |corners|
      invariant min' == MinOf(HighSentinel, done + Transformed(apply, m, corners[..j]))
      invariant max' == MaxOf(LowSentinel, done + Transformed(apply, m, corners[..j]))
    {
      var transformed := apply(m, corners[j]);
      FoldStep(apply, m, done, corners, j);
      min' := VMin(min', transformed);
      max' := VMax(max', transformed);
      j := j + 1;
    }
    assert corners[..j] == corners;
  }

  class Model {
    var position: Vec3
    var size: Vec3
    var localAABB: AABB
    var factor: real
    /** The `boundingBox` of each mesh, in mesh order. */
    var meshes: seq<AABB>
    var baseModel: Mat
    var model: Mat
    var valid: bool

    function State(): TransformState
      reads this
    {
      TransformState(model, baseModel, factor)
    }

    /** What `getGlobalAABB` returns: the zero box for a model without
        meshes, otherwise a valid box holding every corner of every mesh
        box as the current matrix places it. */
    function GlobalAABB(apply: (Mat, Vec3) -> Vec3): (box: AABB)
      reads this
      ensures meshes == [] ==> box == ZeroBox
      ensures meshes != [] ==> ValidBox(box)
      ensures forall k, c :: 0 <= k < |meshes| && 0 <= c < 8 ==>
                ContainsPoint(box, apply(model, Corners(meshes[k])[c]))
    {
      if meshes == [] then ZeroBox
      else
        GlobalBoxContains(apply, model, meshes);
        GlobalBox(apply, model, meshes)
    }

    /** The constructor without the shader: `meshes` are the boxes of the
        meshes read from the file. Unless the shader initialised, the
        transform fields keep no defined value. */
    constructor (meshes: seq<AABB>, shaderInitialized: bool)
      ensures this.meshes == meshes && valid == shaderInitialized
      ensures shaderInitialized ==>
                && baseModel == Identity && model == Identity && factor == 1.0
                && localAABB == MeshUnion(meshes)
    {
      this.meshes := meshes;
      valid := false;
      if shaderInitialized {
        baseModel := Identity;
        model := Identity;
        valid := true;
        factor := 1.0;
        var min, max := HighSentinel, LowSentinel;
        var i := 0;
        while i < |meshes|
          invariant 0 <= i <= |meshes|
          invariant min == MinOf(HighSentinel, MinCorners(meshes[..i]))
          invariant max == MaxOf(LowSentinel, MaxCorners(meshes[..i]))
        {
          assert MinCorners(meshes[..i + 1])[..i] == MinCorners(meshes[..i]);
          assert MaxCorners(meshes[..i + 1])[..i] == MaxCorners(meshes[..i]);
          min := VMin(min, meshes[i].minCorner);
          max := VMax(max, meshes[i].maxCorner);
          i := i + 1;
        }
        assert meshes[..i] == meshes;
        localAABB := AABB(min, max);
      }
    }

    method Reverse()
      modifies this`factor
      ensures State() == ReverseStep(old(State()))
    {
      factor := -factor;
    }

    method QuakeTranslate(offset: Vec3)
      modifies this`model
      ensures State() == QuakeStep(old(State()), offset)
    {
      model := Translated(baseModel, Times(factor, offset));
    }

    method SetIdentity()
      modifies this`model, this`baseModel
      ensures State() == IdentityStep(old(State()))
    {
      model := Identity;
      baseModel := model;
    }

    method Translate(v: Vec3, accumulate: bool := true)
      modifies this`model, this`baseModel
      ensures State() == TranslateStep(old(State()), v, accumulate)
    {
      if accumulate {
        model := Translated(model, v);
        baseModel := model;
      } else {
        model := Translated(baseModel, v);
      }
    }

    method Scale(v: Vec3)
      modifies this`model, this`baseModel
      ensures State() == ScaleStep(old(State()), v)
    {
      model := Scaled(model, v);
      baseModel := model;
    }

    method Rotate(degrees: real, axis: Vec3, accumulate: bool := true)
      modifies this`model, this`baseModel
      ensures State() == RotateStep(old(State()), degrees, axis, accumulate)
    {
      if accumulate {
        model := Rotated(model, degrees, axis);
        baseModel := model;
      } else {
        model := Rotated(baseModel, degrees, axis);
      }
    }

    /** `getGlobalAABB`: the zero box for no meshes, leaving `position` and
        `size` alone; otherwise the box over all transformed corners, whose
        centre and extent become `position` and `size`. */
    method GetGlobalAABB(apply: (Mat, Vec3) -> Vec3) returns (box: AABB)
      modifies this`position, this`size
      ensures box == GlobalAABB(apply)
      ensures meshes == [] ==> position == old(position) && size == old(size)
      ensures meshes != [] ==> position == Midpoint(box) && size == Extent(box)
    {
      if meshes == [] {
        return ZeroBox;
      }
      var globalMin, globalMax := HighSentinel, LowSentinel;
      var i := 0;
      while i < |meshes|
        invariant 0 <= i <= |meshes|
        invariant globalMin == MinOf(HighSentinel, CornerPoints(apply, model, meshes[..i]))
        invariant globalMax == MaxOf(LowSentinel, CornerPoints(apply, model, meshes[..i]))
      {
        CornerPointsStep(apply, model, meshes, i);
        globalMin, globalMax := FoldCorners(apply, model, CornerPoints(apply, model, meshes[..i]), Corners(meshes[i]), globalMin, globalMax);
        i := i + 1;
      }
      assert meshes[..i] == meshes;
      box := AABB(globalMin, globalMax);
      position := Times(0.5, Add(globalMax, globalMin));
      size := Sub(globalMax, globalMin);
    }
  }
}
