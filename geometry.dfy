/**
 * Points, vectors and matrices as the pose pipeline sees them.
 *
 * A matrix is represented by the word of factors it is the product of:
 * `Mul` concatenates words and `Identity` is the empty word. Matrix product
 * is associative with the identity as unit, so evaluating a word into a real
 * 4x4 matrix is a monoid homomorphism, and every EQUATION between words
 * proved in this project holds for the matrices they denote. No disequality
 * between matrices is stated anywhere, since evaluation may identify words
 * (a rotation by 0 is the identity, for one).
 */
module Geometry {

  /** A joint position as the sensor reports it, in metres. */
  datatype SkeletonPoint = SkeletonPoint(x: real, y: real, z: real)

  /** A vector in the model's coordinate space. */
  datatype Vector3 = Vector3(x: real, y: real, z: real)

  const Up: Vector3 := Vector3(0.0, 1.0, 0.0)
  const Down: Vector3 := Vector3(0.0, -1.0, 0.0)
  const Left: Vector3 := Vector3(-1.0, 0.0, 0.0)
  const Right: Vector3 := Vector3(1.0, 0.0, 0.0)

  function Plus(a: Vector3, b: Vector3): Vector3 {
    Vector3(a.x + b.x, a.y + b.y, a.z + b.z)
  }

  function Minus(a: Vector3, b: Vector3): Vector3 {
    Vector3(a.x - b.x, a.y - b.y, a.z - b.z)
  }

  /** The dot product; the pose solver applies it to vectors that are not normalised. */
  function Dot(a: Vector3, b: Vector3): real {
    a.x * b.x + a.y * b.y + a.z * b.z
  }

  /** One factor of a matrix product. */
  datatype Factor =
    | ZeroMatrix               // the all-zero matrix, the default value of a matrix array element
    | RotationY(radians: real) // Matrix.CreateRotationY
    | RotationZ(radians: real) // Matrix.CreateRotationZ
    | Loaded(id: nat)          // a matrix read from the content pipeline

  type Matrix = seq<Factor>

  const Identity: Matrix := []

  /** The default value of an element of a matrix array. */
  const Zero: Matrix := [ZeroMatrix]

  function Mul(a: Matrix, b: Matrix): Matrix {
    a + b
  }

  /** Matrix products associate. */
  lemma MulAssociates(a: Matrix, b: Matrix, c: Matrix)
    ensures Mul(a, Mul(b, c)) == Mul(Mul(a, b), c)
  {
  }

  /** The identity is a unit on both sides. */
  lemma MulIdentity(a: Matrix)
    ensures Mul(Identity, a) == a && Mul(a, Identity) == a
  {
  }

  function CreateRotationY(radians: real): Matrix {
    [RotationY(radians)]
  }

  function CreateRotationZ(radians: real): Matrix {
    [RotationZ(radians)]
  }
}
