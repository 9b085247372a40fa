/**
 * The small part of THREE.Vector3 that the game uses, over the reals, and the
 * samples of Math.random() that the game's spawn and burst rules draw.
 */
module Geometry {
  datatype Vec3 = Vec3(x: real, y: real, z: real)

  /** `a.add(b)` */
  function Add(a: Vec3, b: Vec3): Vec3 {
    Vec3(a.x + b.x, a.y + b.y, a.z + b.z)
  }

  /** `a.clone().multiplyScalar(k)` */
  function Scale(a: Vec3, k: real): Vec3 {
    Vec3(a.x * k, a.y * k, a.z * k)
  }

  /** One value of Math.random(): a real in [0, 1). */
  type Unit = r: real | 0.0 <= r < 1.0
}
