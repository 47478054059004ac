/** `collideWithRoom` of utils/collision.hpp: the vector that pushes a
    model's world box back inside the room's world box, axis by axis. */
module RoomCollision {
  import opened Geometry
  import opened Transforms

  /** The correction on one axis: a model sticking out below the room is
      pushed up to the room's minimum; otherwise one sticking out above is
      pulled down to its maximum; otherwise nothing moves. */
  function AxisCorrection(roomMin: real, roomMax: real, modelMin: real, modelMax: real): (c: real)
    ensures modelMin < roomMin ==> c > 0.0 && modelMin + c == roomMin
    ensures roomMin <= modelMin && roomMax < modelMax ==> c < 0.0 && modelMax + c == roomMax
    ensures roomMin <= modelMin && modelMax <= roomMax ==> c == 0.0
  {
    if modelMin < roomMin then roomMin - modelMin
    else if modelMax > roomMax then roomMax - modelMax
    else 0.0
  }

  /** The correction on one axis of the two boxes. */
  function AxisOf(room: AABB, model: AABB, ax: Axis): real {
    AxisCorrection(At(room.minCorner, ax), At(room.maxCorner, ax), At(model.minCorner, ax), At(model.maxCorner, ax))
  }

  /** The value `collideWithRoom` returns for the two world boxes: on every
      axis where the model sticks out below, a push flush with the room's
      minimum; where it only sticks out above, a pull flush with the
      maximum; where it lies inside, no move. */
  function Correction(room: AABB, model: AABB): (c: Vec3)
    ensures forall ax :: At(model.minCorner, ax) < At(room.minCorner, ax) ==>
              At(c, ax) > 0.0 && At(model.minCorner, ax) + At(c, ax) == At(room.minCorner, ax)
    ensures forall ax :: At(room.minCorner, ax) <= At(model.minCorner, ax) && At(room.maxCorner, ax) < At(model.maxCorner, ax) ==>
              At(c, ax) < 0.0 && At(model.maxCorner, ax) + At(c, ax) == At(room.maxCorner, ax)
    ensures forall ax :: At(room.minCorner, ax) <= At(model.minCorner, ax) && At(model.maxCorner, ax) <= At(room.maxCorner, ax) ==>
              At(c, ax) == 0.0
  {
    Vec3(AxisOf(room, model, X), AxisOf(room, model, Y), AxisOf(room, model, Z))
  }

  /** No correction exactly when the model already lies inside the room. */
  lemma ZeroIffInside(room: AABB, model: AABB)
    ensures Correction(room, model) == Zero3 <==> ContainsBox(room, model)
  {
    if Correction(room, model) == Zero3 {
      forall ax ensures At(room.minCorner, ax) <= At(model.minCorner, ax) && At(model.maxCorner, ax) <= At(room.maxCorner, ax) {
        assert At(Correction(room, model), ax) == 0.0;
      }
    }
  }

  /** Each axis moves by its own rule: the correction on one axis depends on
      that axis's coordinates only. */
  lemma AxesIndependent(room: AABB, model: AABB, room': AABB, model': AABB, ax: Axis)
    requires At(room.minCorner, ax) == At(room'.minCorner, ax) && At(room.maxCorner, ax) == At(room'.maxCorner, ax)
    requires At(model.minCorner, ax) == At(model'.minCorner, ax) && At(model.maxCorner, ax) == At(model'.maxCorner, ax)
    ensures At(Correction(room, model), ax) == At(Correction(room', model'), ax)
  {
  }

  /** A model no wider than the room on any axis ends up inside it once
      moved by the correction. */
  lemma CorrectedInside(room: AABB, model: AABB)
    requires forall ax :: At(model.maxCorner, ax) - At(model.minCorner, ax) <= At(room.maxCorner, ax) - At(room.minCorner, ax)
    ensures ContainsBox(room, Shift(model, Correction(room, model)))
  {
    var c := Correction(room, model);
    forall ax
      ensures At(room.minCorner, ax) <= At(model.minCorner, ax) + At(c, ax)
      ensures At(model.maxCorner, ax) + At(c, ax) <= At(room.maxCorner, ax)
    {
      assert At(c, ax) == AxisOf(room, model, ax);
      assert At(model.maxCorner, ax) - At(model.minCorner, ax) <= At(room.maxCorner, ax) - At(room.minCorner, ax);
    }
    assert forall ax :: At(Shift(model, c).minCorner, ax) == At(model.minCorner, ax) + At(c, ax);
    assert forall ax :: At(Shift(model, c).maxCorner, ax) == At(model.maxCorner, ax) + At(c, ax);
  }

  /** Moving by the correction fixes the model: a second call asks for no
      further move. */
  lemma CorrectionSettles(room: AABB, model: AABB)
    requires forall ax :: At(model.maxCorner, ax) - At(model.minCorner, ax) <= At(room.maxCorner, ax) - At(room.minCorner, ax)
    ensures Correction(room, Shift(model, Correction(room, model))) == Zero3
  {
    CorrectedInside(room, model);
    ZeroIffInside(room, Shift(model, Correction(room, model)));
  }

  /** A model wider than the room and sticking out below is pushed flush with
      the room's minimum, which leaves it sticking out above. */
  lemma LowSideWins(room: AABB, model: AABB, ax: Axis)
    requires At(model.minCorner, ax) < At(room.minCorner, ax)
    requires At(model.maxCorner, ax) - At(model.minCorner, ax) > At(room.maxCorner, ax) - At(room.minCorner, ax)
    ensures At(Shift(model, Correction(room, model)).minCorner, ax) == At(room.minCorner, ax)
    ensures At(Shift(model, Correction(room, model)).maxCorner, ax) > At(room.maxCorner, ax)
  {
    var c := Correction(room, model);
    assert At(c, ax) == At(room.minCorner, ax) - At(model.minCorner, ax);
    assert At(Shift(model, c).minCorner, ax) == At(model.minCorner, ax) + At(c, ax);
    assert At(Shift(model, c).maxCorner, ax) == At(model.maxCorner, ax) + At(c, ax);
  }

  /** One axis of `collideWithRoom`, starting from the zero correction. */
  method AxisStep(roomMin: real, roomMax: real, modelMin: real, modelMax: real) returns (c: real)
    ensures c == AxisCorrection(roomMin, roomMax, modelMin, modelMax)
  {
    c := 0.0;
    if modelMin < roomMin {
      c := roomMin - modelMin;
    } else if modelMax > roomMax {
      c := roomMax - modelMax;
    }
  }

  /** `collideWithRoom(room, model)`: both world boxes are taken (room
      first), which also refreshes the `position` and `size` of each model
      that has meshes, and the per-axis corrections are combined. */
  method CollideWithRoom(room: Model, model: Model, apply: (Mat, Vec3) -> Vec3) returns (correction: Vec3)
    modifies room`position, room`size, model`position, model`size
    ensures correction == Correction(room.GlobalAABB(apply), model.GlobalAABB(apply))
    ensures model.meshes != [] ==>
              model.position == Midpoint(model.GlobalAABB(apply)) && model.size == Extent(model.GlobalAABB(apply))
    ensures room.meshes != [] ==>
              room.position == Midpoint(room.GlobalAABB(apply)) && room.size == Extent(room.GlobalAABB(apply))
    ensures model.meshes == [] ==> model.position == old(model.position) && model.size == old(model.size)
    ensures room.meshes == [] ==> room.position == old(room.position) && room.size == old(room.size)
  {
    var roomBox := room.GetGlobalAABB(apply);
    var modelBox := model.GetGlobalAABB(apply);
    var cx := AxisStep(roomBox.minCorner.x, roomBox.maxCorner.x, modelBox.minCorner.x, modelBox.maxCorner.x);
    var cy := AxisStep(roomBox.minCorner.y, roomBox.maxCorner.y, modelBox.minCorner.y, modelBox.maxCorner.y);
    var cz := AxisStep(roomBox.minCorner.z, roomBox.maxCorner.z, modelBox.minCorner.z, modelBox.maxCorner.z);
    correction := Vec3(cx, cy, cz);
  }
}
