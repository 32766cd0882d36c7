/** Exact three-component vectors and axis-aligned boxes, standing in for the
    renderer's vector and bounding-box objects (over `real`, not floats). */
module Geometry {

  datatype Vec3 = Vec3(x: real, y: real, z: real)

  function Add(a: Vec3, b: Vec3): Vec3
  {
    Vec3(a.x + b.x, a.y + b.y, a.z + b.z)
  }

  function Sub(a: Vec3, b: Vec3): Vec3
  {
    Vec3(a.x - b.x, a.y - b.y, a.z - b.z)
  }

  function Scale(v: Vec3, k: real): Vec3
  {
    Vec3(k * v.x, k * v.y, k * v.z)
  }

  /** An axis-aligned box given by its two corners, as a computed bounding box
      or a mesh's extent is. Nothing forces `min <= max`. */
  datatype Box3 = Box3(min: Vec3, max: Vec3)

  /** Moving a box moves both corners. */
  function Translate(b: Box3, v: Vec3): Box3
  {
    Box3(Add(b.min, v), Add(b.max, v))
  }

  function Max(a: real, b: real): real
  {
    if a >= b then a else b
  }

  function Min(a: real, b: real): real
  {
    if a <= b then a else b
  }

  function Abs(a: real): real
  {
    if a >= 0.0 then a else -a
  }
}
