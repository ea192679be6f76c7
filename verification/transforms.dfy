/**
  Plain value types for the engine data the paddle system touches: a
  three-component vector, an entity transform, and an optional value for
  "the query may find no entity".
 */
module Transforms {

  /** A point or extent in world space. The engine uses 32-bit floats; this
      model uses exact reals. */
  datatype Vec3 = Vec3(x: real, y: real, z: real)

  /** The part of an entity's transform the game sets: where its centre is
      and how large its sprite is drawn. Rotation is always the identity. */
  datatype Transform = Transform(translation: Vec3, scale: Vec3)

  /** The result of asking the world for an entity that may not exist. */
  datatype Option<+T> = None | Some(value: T)

  /** The same vector with only its x component replaced. */
  function WithX(v: Vec3, x: real): (r: Vec3)
    ensures r.x == x
    ensures r.y == v.y && r.z == v.z
  {
    v.(x := x)
  }
}
