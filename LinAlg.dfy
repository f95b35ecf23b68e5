/** Vectors and matrices over the reals, laid out as glm lays them out:
    a matrix is a sequence of columns, `m[c][r]` is column `c`, row `r`,
    and a matrix times a vector is the sum of the columns weighted by the
    vector's components. Floating-point rounding is not modelled. */
module LinAlg {

  datatype Vec3 = Vec3(x: real, y: real, z: real)
  datatype Vec4 = Vec4(x: real, y: real, z: real, w: real)

  /** A 4x4 matrix given by its four columns. */
  datatype Mat4 = Mat4(c0: Vec4, c1: Vec4, c2: Vec4, c3: Vec4)

  /** A 3x3 matrix given by its three columns. */
  datatype Mat3 = Mat3(c0: Vec3, c1: Vec3, c2: Vec3)

  const Zero3: Vec3 := Vec3(0.0, 0.0, 0.0)
  const Zero4: Vec4 := Vec4(0.0, 0.0, 0.0, 0.0)

  const Identity3: Mat3 := Mat3(Vec3(1.0, 0.0, 0.0), Vec3(0.0, 1.0, 0.0), Vec3(0.0, 0.0, 1.0))
  const Identity4: Mat4 :=
    Mat4(Vec4(1.0, 0.0, 0.0, 0.0), Vec4(0.0, 1.0, 0.0, 0.0),
         Vec4(0.0, 0.0, 1.0, 0.0), Vec4(0.0, 0.0, 0.0, 1.0))

  function Add3(a: Vec3, b: Vec3): Vec3 { Vec3(a.x + b.x, a.y + b.y, a.z + b.z) }
  function Scale3(s: real, a: Vec3): Vec3 { Vec3(s * a.x, s * a.y, s * a.z) }

  function Add4(a: Vec4, b: Vec4): Vec4 { Vec4(a.x + b.x, a.y + b.y, a.z + b.z, a.w + b.w) }
  function Scale4(s: real, a: Vec4): Vec4 { Vec4(s * a.x, s * a.y, s * a.z, s * a.w) }

  /** The first three components of a homogeneous vector. */
  function Xyz(v: Vec4): Vec3 { Vec3(v.x, v.y, v.z) }

  /** `v` lifted to homogeneous form with the given `w` (1 for a point, 0 for a direction). */
  function Lift(v: Vec3, w: real): Vec4 { Vec4(v.x, v.y, v.z, w) }

  /** glm's `mat4 * vec4`: the columns of `m` weighted by the components of `v`. */
  function MulMV(m: Mat4, v: Vec4): Vec4 {
    Add4(Add4(Scale4(v.x, m.c0), Scale4(v.y, m.c1)), Add4(Scale4(v.z, m.c2), Scale4(v.w, m.c3)))
  }

  /** glm's `mat4 * mat4`: column `c` of the product is `a` times column `c` of `b`. */
  function MulMM(a: Mat4, b: Mat4): Mat4 {
    Mat4(MulMV(a, b.c0), MulMV(a, b.c1), MulMV(a, b.c2), MulMV(a, b.c3))
  }

  /** Two matrices with the same first three columns: they differ at most in
      their translation column. */
  predicate SameLinearPart(a: Mat4, b: Mat4) {
    a.c0 == b.c0 && a.c1 == b.c1 && a.c2 == b.c2
  }

  lemma MulMVAdd(m: Mat4, p: Vec4, q: Vec4)
    ensures MulMV(m, Add4(p, q)) == Add4(MulMV(m, p), MulMV(m, q))
  {
    MulMVRows(m, p);
    MulMVRows(m, q);
    MulMVRows(m, Add4(p, q));
    AddRows(m, p, q, MulMV(m, p), MulMV(m, q), MulMV(m, Add4(p, q)));
  }

  /** Row `i` of a matrix. */
  function Row(m: Mat4, i: nat): Vec4
    requires i < 4
  {
    if i == 0 then Vec4(m.c0.x, m.c1.x, m.c2.x, m.c3.x)
    else if i == 1 then Vec4(m.c0.y, m.c1.y, m.c2.y, m.c3.y)
    else if i == 2 then Vec4(m.c0.z, m.c1.z, m.c2.z, m.c3.z)
    else Vec4(m.c0.w, m.c1.w, m.c2.w, m.c3.w)
  }

  /** The dot product, its terms written in the order `MulMV` produces them. */
  function Dot4(a: Vec4, b: Vec4): real {
    b.x * a.x + b.y * a.y + (b.z * a.z + b.w * a.w)
  }

  /** `MulMV` written out row by row. */
  lemma MulMVRows(m: Mat4, v: Vec4)
    ensures MulMV(m, v) == Vec4(Dot4(Row(m, 0), v), Dot4(Row(m, 1), v), Dot4(Row(m, 2), v), Dot4(Row(m, 3), v))
  {
  }

  lemma DotScale(r: Vec4, s: real, p: Vec4)
    ensures Dot4(r, Scale4(s, p)) == s * Dot4(r, p)
  {
    var q := Scale4(s, p);
    var a, b, c, d := q.x * r.x, q.y * r.y, q.z * r.z, q.w * r.w;
    assert a == s * (p.x * r.x);
    assert b == s * (p.y * r.y);
    assert c == s * (p.z * r.z);
    assert d == s * (p.w * r.w);
    assert Dot4(r, q) == a + b + (c + d);
  }

  lemma DotAdd(r: Vec4, p: Vec4, q: Vec4)
    ensures Dot4(r, Add4(p, q)) == Dot4(r, p) + Dot4(r, q)
  {
    var u := Add4(p, q);
    assert u.x * r.x == p.x * r.x + q.x * r.x;
    assert u.y * r.y == p.y * r.y + q.y * r.y;
    assert u.z * r.z == p.z * r.z + q.z * r.z;
    assert u.w * r.w == p.w * r.w + q.w * r.w;
  }

  // Like ScaleRows below: the rows are passed as opaque values.
  lemma AddRows(m: Mat4, p: Vec4, q: Vec4, rp: Vec4, rq: Vec4, r: Vec4)
    requires rp == Vec4(Dot4(Row(m, 0), p), Dot4(Row(m, 1), p), Dot4(Row(m, 2), p), Dot4(Row(m, 3), p))
    requires rq == Vec4(Dot4(Row(m, 0), q), Dot4(Row(m, 1), q), Dot4(Row(m, 2), q), Dot4(Row(m, 3), q))
    requires r == Vec4(Dot4(Row(m, 0), Add4(p, q)), Dot4(Row(m, 1), Add4(p, q)),
                       Dot4(Row(m, 2), Add4(p, q)), Dot4(Row(m, 3), Add4(p, q)))
    ensures r == Add4(rp, rq)
  {
    DotAdd(Row(m, 0), p, q);
    DotAdd(Row(m, 1), p, q);
    DotAdd(Row(m, 2), p, q);
    DotAdd(Row(m, 3), p, q);
  }

  lemma MulMVScale(m: Mat4, s: real, p: Vec4)
    ensures MulMV(m, Scale4(s, p)) == Scale4(s, MulMV(m, p))
  {
    MulMVRows(m, p);
    MulMVRows(m, Scale4(s, p));
    ScaleRows(m, s, p, MulMV(m, p), MulMV(m, Scale4(s, p)));
  }

  // Kept apart from MulMVScale so that the solver sees the rows only as
  // opaque values here; with MulMV unfolded beside them it gives up.
  lemma ScaleRows(m: Mat4, s: real, p: Vec4, q: Vec4, r: Vec4)
    requires q == Vec4(Dot4(Row(m, 0), p), Dot4(Row(m, 1), p), Dot4(Row(m, 2), p), Dot4(Row(m, 3), p))
    requires r == Vec4(Dot4(Row(m, 0), Scale4(s, p)), Dot4(Row(m, 1), Scale4(s, p)),
                       Dot4(Row(m, 2), Scale4(s, p)), Dot4(Row(m, 3), Scale4(s, p)))
    ensures r == Scale4(s, q)
  {
    DotScale(Row(m, 0), s, p);
    DotScale(Row(m, 1), s, p);
    DotScale(Row(m, 2), s, p);
    DotScale(Row(m, 3), s, p);
  }

  /** The matrix product is composition: applying `MulMM(a, b)` to a vector
      is applying `b` first and `a` second. */
  lemma MulMMIsComposition(a: Mat4, b: Mat4, v: Vec4)
    ensures MulMV(MulMM(a, b), v) == MulMV(a, MulMV(b, v))
  {
    var p0, p1 := Scale4(v.x, b.c0), Scale4(v.y, b.c1);
    var p2, p3 := Scale4(v.z, b.c2), Scale4(v.w, b.c3);
    calc {
      MulMV(a, MulMV(b, v));
      MulMV(a, Add4(Add4(p0, p1), Add4(p2, p3)));
      { MulMVAdd(a, Add4(p0, p1), Add4(p2, p3)); MulMVAdd(a, p0, p1); MulMVAdd(a, p2, p3); }
      Add4(Add4(MulMV(a, p0), MulMV(a, p1)), Add4(MulMV(a, p2), MulMV(a, p3)));
      { MulMVScale(a, v.x, b.c0); MulMVScale(a, v.y, b.c1); MulMVScale(a, v.z, b.c2); MulMVScale(a, v.w, b.c3); }
      MulMV(MulMM(a, b), v);
    }
  }

  /** A direction (w = 0) does not see the translation column of a matrix. */
  lemma DirectionIgnoresTranslation(a: Mat4, b: Mat4, n: Vec3)
    requires SameLinearPart(a, b)
    ensures MulMV(a, Lift(n, 0.0)) == MulMV(b, Lift(n, 0.0))
  {
  }

  lemma MulIdentity4(v: Vec4)
    ensures MulMV(Identity4, v) == v
  {
  }
}
