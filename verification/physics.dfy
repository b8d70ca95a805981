/** The part of the cannon-es world the terrain code touches: bodies with a
    position and a cached bounding box, kept in a map from body id. */
module Physics {
  import opened Grid

  datatype Vec3 = Vec3(x: real, y: real, z: real)

  /** A collision shape: a terrain mesh, or anything else (the car). */
  datatype Shape = MeshShape(mesh: Trimesh) | OtherShape

  /** A body. `aabbAt` is the position its cached bounding box was last computed
      for; broadphase queries see the body there. */
  datatype Body = Body(position: Vec3, aabbAt: Vec3, shape: Shape)

  /** Body ids are handed out by a counter, like cannon-es `Body.idCounter`. */
  type World = map<nat, Body>

  /** The broadphase sees the body where it is. */
  predicate AabbSynced(b: Body)
  {
    b.aabbAt == b.position
  }

  /** Set the horizontal position and refresh the cached box (`aabbNeedsUpdate`
      followed by `updateAABB`). */
  function PlaceAt(b: Body, x: real, z: real): (b': Body)
    ensures b'.position == Vec3(x, b.position.y, z) && AabbSynced(b') && b'.shape == b.shape
  {
    var p := Vec3(x, b.position.y, z);
    b.(position := p, aabbAt := p)
  }

  /** Move a body horizontally by (-dx, -dz) and refresh its box. */
  function ShiftBody(b: Body, dx: real, dz: real): (b': Body)
    ensures b'.position.x + dx == b.position.x && b'.position.z + dz == b.position.z
    ensures b'.position.y == b.position.y && AabbSynced(b') && b'.shape == b.shape
  {
    PlaceAt(b, b.position.x - dx, b.position.z - dz)
  }

  /** Shift every body of the world; ids are kept. */
  function ShiftAll(w: World, dx: real, dz: real): (w': World)
    ensures w'.Keys == w.Keys
    ensures forall id :: id in w ==> w'[id] == ShiftBody(w[id], dx, dz)
  {
    map id | id in w :: ShiftBody(w[id], dx, dz)
  }
}
