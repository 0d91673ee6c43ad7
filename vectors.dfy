/** Real 3-vectors and 3x3 matrices: the part of numpy that the simulator
    uses (`np.array` of length 3, the `@` product and `+`). */
module Vectors {

  /** A column vector (x, y, z). */
  datatype Vec3 = Vec3(x: real, y: real, z: real)

  /** A 3x3 matrix, stored row by row. */
  datatype Mat3 = Mat3(r0: Vec3, r1: Vec3, r2: Vec3)

  /** An angle, known only through its cosine and sine. */
  datatype Angle = Angle(cos: real, sin: real) {

    /** The pair is the cosine and sine of some real angle. */
    predicate OnUnitCircle() {
      cos * cos + sin * sin == 1.0
    }

    /** The angle -theta: cos(-theta) = cos(theta), sin(-theta) = -sin(theta). */
    function Negated(): (r: Angle)
      ensures r.OnUnitCircle() <==> OnUnitCircle()
    {
      Angle(cos, -sin)
    }
  }

  function Add(a: Vec3, b: Vec3): Vec3 {
    Vec3(a.x + b.x, a.y + b.y, a.z + b.z)
  }

  function Scale(k: real, a: Vec3): Vec3 {
    Vec3(k * a.x, k * a.y, k * a.z)
  }

  function Dot(a: Vec3, b: Vec3): real {
    a.x * b.x + a.y * b.y + a.z * b.z
  }

  /** The matrix-vector product `m @ v`. */
  function Apply(m: Mat3, v: Vec3): Vec3 {
    Vec3(Dot(m.r0, v), Dot(m.r1, v), Dot(m.r2, v))
  }

  /** Row `a` times matrix `b`: one row of a matrix product. */
  function RowTimes(a: Vec3, b: Mat3): Vec3 {
    Add(Add(Scale(a.x, b.r0), Scale(a.y, b.r1)), Scale(a.z, b.r2))
  }

  /** The matrix product `a @ b`. */
  function MatMul(a: Mat3, b: Mat3): Mat3 {
    Mat3(RowTimes(a.r0, b), RowTimes(a.r1, b), RowTimes(a.r2, b))
  }

  /** The squared Euclidean length |v|^2. */
  function NormSq(v: Vec3): real {
    v.x * v.x + v.y * v.y + v.z * v.z
  }

  /** The squared length of the transverse (x, y) part, Mx^2 + My^2. */
  function TransverseSq(v: Vec3): real {
    v.x * v.x + v.y * v.y
  }

  lemma RowTimesDot(a: Vec3, b: Mat3, v: Vec3)
    ensures Dot(RowTimes(a, b), v) == Dot(a, Apply(b, v))
  {
    calc {
      Dot(RowTimes(a, b), v);
      a.x * Dot(b.r0, v) + a.y * Dot(b.r1, v) + a.z * Dot(b.r2, v);
      Dot(a, Apply(b, v));
    }
  }

  /** Applying a product is applying its factors right to left:
      (a @ b) @ v == a @ (b @ v). */
  lemma ApplyMatMul(a: Mat3, b: Mat3, v: Vec3)
    ensures Apply(MatMul(a, b), v) == Apply(a, Apply(b, v))
  {
    RowTimesDot(a.r0, b, v);
    RowTimesDot(a.r1, b, v);
    RowTimesDot(a.r2, b, v);
  }

  /** The matrix-vector product distributes over vector addition. */
  lemma ApplyAdd(m: Mat3, u: Vec3, v: Vec3)
    ensures Apply(m, Add(u, v)) == Add(Apply(m, u), Apply(m, v))
  {
  }

  /** A product of three: ((a @ b) @ c) @ v == a @ (b @ (c @ v)). */
  lemma ApplyMatMul3(a: Mat3, b: Mat3, c: Mat3, v: Vec3)
    ensures Apply(MatMul(MatMul(a, b), c), v) == Apply(a, Apply(b, Apply(c, v)))
  {
    ApplyMatMul(MatMul(a, b), c, v);
    ApplyMatMul(a, b, Apply(c, v));
  }

  /** An affine map a @ m + b followed by the rotation-like map r is the
      affine map (r @ a) @ m + r @ b. */
  lemma RotatedAffine(r: Mat3, a: Mat3, b: Vec3, m: Vec3)
    ensures Add(Apply(MatMul(r, a), m), Apply(r, b)) == Apply(r, Add(Apply(a, m), b))
  {
    ApplyMatMul(r, a, m);
    ApplyAdd(r, Apply(a, m), b);
  }
}
