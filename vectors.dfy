/**
 * Unity's Vector3 over exact reals. Only the operations the turret and the
 * bullet use are defined; the ones that need a square root or an arc tangent
 * (Vector3.magnitude, the launch pitch) are supplied by the host as a
 * `Geometry` and stay abstract.
 */
module Vectors {

  datatype Vec3 = Vec3(x: real, y: real, z: real)

  const Zero := Vec3(0.0, 0.0, 0.0)
  const Up := Vec3(0.0, 1.0, 0.0)
  const Forward := Vec3(0.0, 0.0, 1.0)

  function Add(a: Vec3, b: Vec3): Vec3 {
    Vec3(a.x + b.x, a.y + b.y, a.z + b.z)
  }

  function Sub(a: Vec3, b: Vec3): Vec3 {
    Vec3(a.x - b.x, a.y - b.y, a.z - b.z)
  }

  function Neg(a: Vec3): Vec3 {
    Vec3(-a.x, -a.y, -a.z)
  }

  /** `k * a` */
  function Scale(k: real, a: Vec3): Vec3 {
    Vec3(k * a.x, k * a.y, k * a.z)
  }

  /** `a / k`, component by component */
  function Div(a: Vec3, k: real): Vec3
    requires k != 0.0
  {
    Vec3(a.x / k, a.y / k, a.z / k)
  }

  /** `new Vector3(a.x, 0, a.z).sqrMagnitude` */
  function FlatSqrMagnitude(a: Vec3): real {
    a.x * a.x + a.z * a.z
  }

  /**
   * The host's floating-point measures of a vector: its length
   * (`Vector3.magnitude`) and its launch pitch in degrees
   * (`Mathf.Atan2(v.y, |(v.x, 0, v.z)|) * Mathf.Rad2Deg`).
   */
  datatype Geometry = Geometry(magnitude: Vec3 -> real, pitchDeg: Vec3 -> real)
}
