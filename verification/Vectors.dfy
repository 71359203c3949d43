/**
 * Vectors, matrices and wrenches over the reals, with the algebra that the
 * wrench pipeline of the force/torque shoe needs.  A Wrench stands for the
 * drivers' vectors of six numbers (force first, then moment), and a Mat6 for a
 * 6x6 matrix cut into its four 3x3 blocks.
 */
module Vectors {

  datatype Vec3 = Vec3(x: real, y: real, z: real)

  /** A 3x3 matrix, given by its rows. */
  datatype Mat3 = Mat3(a: Vec3, b: Vec3, c: Vec3)

  datatype Wrench = Wrench(f: Vec3, m: Vec3)

  /** A 6x6 matrix in blocks: rows (ff fm) give the force, rows (mf mm) the moment. */
  datatype Mat6 = Mat6(ff: Mat3, fm: Mat3, mf: Mat3, mm: Mat3)

  const ZERO3 := Vec3(0.0, 0.0, 0.0)
  const IDENTITY3 := Mat3(Vec3(1.0, 0.0, 0.0), Vec3(0.0, 1.0, 0.0), Vec3(0.0, 0.0, 1.0))
  const NULL3 := Mat3(ZERO3, ZERO3, ZERO3)
  const ZERO6 := Wrench(ZERO3, ZERO3)
  const MINUS_IDENTITY3 := Mat3(Vec3(-1.0, 0.0, 0.0), Vec3(0.0, -1.0, 0.0), Vec3(0.0, 0.0, -1.0))
  const MINUS_IDENTITY6 := Mat6(MINUS_IDENTITY3, NULL3, NULL3, MINUS_IDENTITY3)

  function Add(u: Vec3, v: Vec3): Vec3 { Vec3(u.x + v.x, u.y + v.y, u.z + v.z) }

  function Minus(u: Vec3, v: Vec3): Vec3 { Vec3(u.x - v.x, u.y - v.y, u.z - v.z) }

  function Scale(k: real, u: Vec3): Vec3 { Vec3(k * u.x, k * u.y, k * u.z) }

  function Dot(u: Vec3, v: Vec3): real { u.x * v.x + u.y * v.y + u.z * v.z }

  function Cross(u: Vec3, v: Vec3): Vec3 {
    Vec3(u.y * v.z - u.z * v.y, u.z * v.x - u.x * v.z, u.x * v.y - u.y * v.x)
  }

  function Apply(A: Mat3, v: Vec3): Vec3 { Vec3(Dot(A.a, v), Dot(A.b, v), Dot(A.c, v)) }

  function Transpose(A: Mat3): Mat3 {
    Mat3(Vec3(A.a.x, A.b.x, A.c.x), Vec3(A.a.y, A.b.y, A.c.y), Vec3(A.a.z, A.b.z, A.c.z))
  }

  /** The row vector r times the matrix B. */
  function RowTimes(r: Vec3, B: Mat3): Vec3 {
    Add(Add(Scale(r.x, B.a), Scale(r.y, B.b)), Scale(r.z, B.c))
  }

  function Mul33(A: Mat3, B: Mat3): Mat3 { Mat3(RowTimes(A.a, B), RowTimes(A.b, B), RowTimes(A.c, B)) }

  function Add33(A: Mat3, B: Mat3): Mat3 { Mat3(Add(A.a, B.a), Add(A.b, B.b), Add(A.c, B.c)) }

  /** The matrix of the map v -> u x v. */
  function Skew(u: Vec3): Mat3 {
    Mat3(Vec3(0.0, -u.z, u.y), Vec3(u.z, 0.0, -u.x), Vec3(-u.y, u.x, 0.0))
  }

  function Det(A: Mat3): real { Dot(A.a, Cross(A.b, A.c)) }

  /** The transpose is the inverse: a rotation, or a rotation and a reflection. */
  predicate Orthogonal(A: Mat3) {
    Mul33(Transpose(A), A) == IDENTITY3 && Mul33(A, Transpose(A)) == IDENTITY3
  }

  function Add6(u: Wrench, v: Wrench): Wrench { Wrench(Add(u.f, v.f), Add(u.m, v.m)) }

  function Minus6(u: Wrench, v: Wrench): Wrench { Wrench(Minus(u.f, v.f), Minus(u.m, v.m)) }

  function Scale6(k: real, w: Wrench): Wrench { Wrench(Scale(k, w.f), Scale(k, w.m)) }

  function Apply6(A: Mat6, w: Wrench): Wrench {
    Wrench(Add(Apply(A.ff, w.f), Apply(A.fm, w.m)), Add(Apply(A.mf, w.f), Apply(A.mm, w.m)))
  }

  function Mul66(A: Mat6, B: Mat6): Mat6 {
    Mat6(Add33(Mul33(A.ff, B.ff), Mul33(A.fm, B.mf)), Add33(Mul33(A.ff, B.fm), Mul33(A.fm, B.mm)),
         Add33(Mul33(A.mf, B.ff), Mul33(A.mm, B.mf)), Add33(Mul33(A.mf, B.fm), Mul33(A.mm, B.mm)))
  }

  /** Six consecutive numbers of a list of channels, as a wrench. */
  function WrenchAt(values: seq<real>, at: nat): Wrench
    requires at + 5 < |values|
  {
    Wrench(Vec3(values[at], values[at + 1], values[at + 2]), Vec3(values[at + 3], values[at + 4], values[at + 5]))
  }

  /** The moment that wrench w exerts about point p. */
  function MomentAbout(w: Wrench, p: Vec3): Vec3 { Minus(w.m, Cross(p, w.f)) }

  // ---- scalar identities ----

  lemma Distribute(k: real, p: real, q: real)
    ensures k * (p + q) == k * p + k * q
    ensures k * (p - q) == k * p - k * q
  {
  }

  // ---- linearity ----

  lemma DotLinear(k: real, u: Vec3, v: Vec3, w: Vec3)
    ensures Dot(Add(u, v), w) == Dot(u, w) + Dot(v, w) == Dot(w, Add(u, v))
    ensures Dot(Scale(k, u), w) == k * Dot(u, w) == Dot(w, Scale(k, u))
    ensures Dot(u, w) == Dot(w, u)
  {
  }

  lemma ApplyLinear(A: Mat3, k: real, u: Vec3, v: Vec3)
    ensures Apply(A, Add(u, v)) == Add(Apply(A, u), Apply(A, v))
    ensures Apply(A, Scale(k, u)) == Scale(k, Apply(A, u))
  {
    DotLinear(k, u, v, A.a);
    DotLinear(k, u, v, A.b);
    DotLinear(k, u, v, A.c);
  }

  lemma ApplyAdd33(A: Mat3, B: Mat3, v: Vec3)
    ensures Apply(Add33(A, B), v) == Add(Apply(A, v), Apply(B, v))
  {
    DotLinear(1.0, A.a, B.a, v);
    DotLinear(1.0, A.b, B.b, v);
    DotLinear(1.0, A.c, B.c, v);
  }

  lemma DotWithImage(r: Vec3, B: Mat3, v: Vec3)
    ensures Dot(r, Apply(B, v)) == r.x * Dot(B.a, v) + r.y * Dot(B.b, v) + r.z * Dot(B.c, v)
  {
    hide Apply;
    assert Apply(B, v) == Vec3(Dot(B.a, v), Dot(B.b, v), Dot(B.c, v)) by { ImageOf(B, v); }
  }

  lemma ImageOf(B: Mat3, v: Vec3)
    ensures Apply(B, v) == Vec3(Dot(B.a, v), Dot(B.b, v), Dot(B.c, v))
  {
    hide Dot;
  }

  lemma DotRowTimes(r: Vec3, B: Mat3, v: Vec3)
    ensures Dot(RowTimes(r, B), v) == Dot(r, Apply(B, v))
  {
    hide Dot, Add, Scale, Apply;
    DotWithImage(r, B, v);
    DotLinear(r.x, B.a, B.a, v);
    DotLinear(r.y, B.b, B.b, v);
    DotLinear(r.z, B.c, B.c, v);
    DotLinear(1.0, Scale(r.x, B.a), Scale(r.y, B.b), v);
    DotLinear(1.0, Add(Scale(r.x, B.a), Scale(r.y, B.b)), Scale(r.z, B.c), v);
  }

  lemma ApplyMul33(A: Mat3, B: Mat3, v: Vec3)
    ensures Apply(Mul33(A, B), v) == Apply(A, Apply(B, v))
  {
    DotRowTimes(A.a, B, v);
    DotRowTimes(A.b, B, v);
    DotRowTimes(A.c, B, v);
  }

  lemma ApplyMul66(A: Mat6, B: Mat6, w: Wrench)
    ensures Apply6(Mul66(A, B), w) == Apply6(A, Apply6(B, w))
  {
    ApplyBlockRow(A.ff, A.fm, B, w);
    ApplyBlockRow(A.mf, A.mm, B, w);
  }

  /** One block row of the product of two 6x6 matrices. */
  lemma ApplyBlockRow(P: Mat3, Q: Mat3, B: Mat6, w: Wrench)
    ensures Add(Apply(Add33(Mul33(P, B.ff), Mul33(Q, B.mf)), w.f), Apply(Add33(Mul33(P, B.fm), Mul33(Q, B.mm)), w.m))
         == Add(Apply(P, Apply6(B, w).f), Apply(Q, Apply6(B, w).m))
  {
    ApplyAdd33(Mul33(P, B.ff), Mul33(Q, B.mf), w.f);
    ApplyAdd33(Mul33(P, B.fm), Mul33(Q, B.mm), w.m);
    ApplyMul33(P, B.ff, w.f);
    ApplyMul33(Q, B.mf, w.f);
    ApplyMul33(P, B.fm, w.m);
    ApplyMul33(Q, B.mm, w.m);
    ApplyLinear(P, 1.0, Apply(B.ff, w.f), Apply(B.fm, w.m));
    ApplyLinear(Q, 1.0, Apply(B.mf, w.f), Apply(B.mm, w.m));
  }

  lemma ApplyIdentity(v: Vec3)
    ensures Apply(IDENTITY3, v) == v && Apply(NULL3, v) == ZERO3
  {
  }

  lemma ApplyMinusIdentity(w: Wrench)
    ensures Apply6(MINUS_IDENTITY6, w) == Scale6(-1.0, w)
  {
    ApplyMinusIdentity3(w.f);
    ApplyMinusIdentity3(w.m);
    ApplyIdentity(w.f);
    ApplyIdentity(w.m);
  }

  lemma DotAxis(k: real, v: Vec3)
    ensures Dot(Vec3(k, 0.0, 0.0), v) == k * v.x
    ensures Dot(Vec3(0.0, k, 0.0), v) == k * v.y
    ensures Dot(Vec3(0.0, 0.0, k), v) == k * v.z
  {
  }

  lemma ApplyMinusIdentity3(v: Vec3)
    ensures Apply(MINUS_IDENTITY3, v) == Scale(-1.0, v)
  {
    hide Dot;
    DotAxis(-1.0, v);
  }

  // ---- orthogonal matrices ----

  /** An orthogonal matrix keeps every scalar product, and its transpose undoes it. */
  lemma OrthogonalKeepsDot(R: Mat3, u: Vec3, v: Vec3)
    requires Orthogonal(R)
    ensures Dot(Apply(R, u), Apply(R, v)) == Dot(u, v)
    ensures Apply(R, Apply(Transpose(R), u)) == u == Apply(Transpose(R), Apply(R, u))
  {
    ApplyMul33(R, Transpose(R), u);
    ApplyMul33(Transpose(R), R, u);
    ApplyMul33(Transpose(R), R, v);
    ApplyIdentity(u);
    ApplyIdentity(v);
    DotTranspose(R, u, Apply(R, v));
  }

  lemma DotTranspose(R: Mat3, u: Vec3, w: Vec3)
    ensures Dot(Apply(R, u), w) == Dot(u, Apply(Transpose(R), w))
  {
    assert Apply(Transpose(R), w) == RowTimes(w, R);
    DotRowTimes(w, R, u);
    DotLinear(1.0, w, w, Apply(R, u));
    DotLinear(1.0, RowTimes(w, R), u, u);
  }

  lemma BinetCauchy(a: Vec3, b: Vec3, u: Vec3, v: Vec3)
    ensures Dot(Cross(a, b), Cross(u, v)) == Dot(a, u) * Dot(b, v) - Dot(b, u) * Dot(a, v)
  {
  }

  lemma CrossMinus(u: Vec3, v: Vec3, w: Vec3)
    ensures Cross(Minus(u, v), w) == Minus(Cross(u, w), Cross(v, w))
  {
  }

  lemma CrossAdd(u: Vec3, v: Vec3, w: Vec3)
    ensures Cross(w, Add(u, v)) == Add(Cross(w, u), Cross(w, v))
  {
  }

  lemma CrossIsNormal(u: Vec3, v: Vec3)
    ensures Dot(u, Cross(u, v)) == 0.0 && Dot(v, Cross(u, v)) == 0.0
  {
  }

  lemma ApplySkew(u: Vec3, v: Vec3)
    ensures Apply(Skew(u), v) == Cross(u, v)
  {
  }

  lemma ScaleScale(j: real, k: real, v: Vec3)
    ensures Scale(j, Scale(k, v)) == Scale(j * k, v)
  {
  }

  /** The scalar triple product is invariant under cyclic shifts. */
  lemma TripleProduct(a: Vec3, b: Vec3, c: Vec3)
    ensures Dot(a, Cross(b, c)) == Dot(b, Cross(c, a)) == Dot(c, Cross(a, b))
  {
    ExpandTriple(a, b, c);
    ExpandTriple(b, c, a);
    ExpandTriple(c, a, b);
  }

  lemma ExpandTriple(a: Vec3, b: Vec3, c: Vec3)
    ensures Dot(a, Cross(b, c)) == (a.x * (b.y * c.z) - a.x * (b.z * c.y)) + (a.y * (b.z * c.x) - a.y * (b.x * c.z))
                                 + (a.z * (b.x * c.y) - a.z * (b.y * c.x))
  {
    Distribute(a.x, b.y * c.z, b.z * c.y);
    Distribute(a.y, b.z * c.x, b.x * c.z);
    Distribute(a.z, b.x * c.y, b.y * c.x);
  }

  /** The cross product of two rows of an orthogonal matrix is the third row, up to sign. */
  lemma OrthogonalRows(R: Mat3)
    requires Orthogonal(R)
    ensures Cross(R.b, R.c) == Scale(Det(R), R.a)
    ensures Cross(R.c, R.a) == Scale(Det(R), R.b)
    ensures Cross(R.a, R.b) == Scale(Det(R), R.c)
  {
    var d := Det(R);
    TripleProduct(R.a, R.b, R.c);
    CrossIsNormal(R.b, R.c);
    CrossIsNormal(R.c, R.a);
    CrossIsNormal(R.a, R.b);
    assert Apply(R, Cross(R.b, R.c)) == Vec3(d, 0.0, 0.0);
    assert Apply(R, Cross(R.c, R.a)) == Vec3(0.0, d, 0.0);
    assert Apply(R, Cross(R.a, R.b)) == Vec3(0.0, 0.0, d);
    OrthogonalKeepsDot(R, Cross(R.b, R.c), ZERO3);
    OrthogonalKeepsDot(R, Cross(R.c, R.a), ZERO3);
    OrthogonalKeepsDot(R, Cross(R.a, R.b), ZERO3);
    TransposeOfAxes(R, d);
  }

  lemma TransposeOfAxes(R: Mat3, d: real)
    ensures Apply(Transpose(R), Vec3(d, 0.0, 0.0)) == Scale(d, R.a)
    ensures Apply(Transpose(R), Vec3(0.0, d, 0.0)) == Scale(d, R.b)
    ensures Apply(Transpose(R), Vec3(0.0, 0.0, d)) == Scale(d, R.c)
  {
  }

  /** An orthogonal matrix has determinant 1 (a rotation) or -1 (with a reflection). */
  lemma OrthogonalDet(R: Mat3)
    requires Orthogonal(R)
    ensures Det(R) == 1.0 || Det(R) == -1.0
  {
    var d := Det(R);
    OrthogonalRows(R);
    BinetCauchy(R.b, R.c, R.b, R.c);
    RowsAreUnit(R);
    DotLinear(d, R.a, R.a, Scale(d, R.a));
    DotLinear(d, R.a, R.a, R.a);
    UnitSquare(d);
  }

  lemma UnitSquare(d: real)
    requires d * d == 1.0
    ensures d == 1.0 || d == -1.0
  {
    assert (d - 1.0) * (d + 1.0) == 0.0;
  }

  lemma RowsAreUnit(R: Mat3)
    requires Orthogonal(R)
    ensures Dot(R.a, R.a) == Dot(R.b, R.b) == Dot(R.c, R.c) == 1.0
    ensures Dot(R.b, R.c) == 0.0
  {
    hide Dot, RowTimes;
    RowTimesTranspose(R.a, R);
    RowTimesTranspose(R.b, R);
    RowTimesTranspose(R.c, R);
  }

  lemma RowTimesTranspose(r: Vec3, R: Mat3)
    ensures RowTimes(r, Transpose(R)) == Vec3(Dot(r, R.a), Dot(r, R.b), Dot(r, R.c))
  {
  }

  /**
   * Moving a cross product through an orthogonal matrix costs its determinant:
   * a rotation commutes with the cross product, a reflection reverses it.
   */
  lemma CrossUnderOrthogonal(R: Mat3, u: Vec3, v: Vec3)
    requires Orthogonal(R)
    ensures Cross(Apply(R, u), Apply(R, v)) == Scale(Det(R), Apply(R, Cross(u, v)))
  {
    OrthogonalRows(R);
    CrossOfImages(R, u, v);
    ScaledRows(R, Det(R), Cross(u, v));
  }

  lemma ScaledRows(R: Mat3, d: real, n: Vec3)
    ensures Vec3(Dot(Scale(d, R.a), n), Dot(Scale(d, R.b), n), Dot(Scale(d, R.c), n)) == Scale(d, Apply(R, n))
  {
    hide Dot, Apply;
    DotLinear(d, R.a, R.a, n);
    DotLinear(d, R.b, R.b, n);
    DotLinear(d, R.c, R.c, n);
    ImageOf(R, n);
  }

  /** Binet-Cauchy, for the three pairs of rows of a matrix at once. */
  lemma CrossOfImages(R: Mat3, u: Vec3, v: Vec3)
    ensures Cross(Apply(R, u), Apply(R, v))
         == Vec3(Dot(Cross(R.b, R.c), Cross(u, v)), Dot(Cross(R.c, R.a), Cross(u, v)), Dot(Cross(R.a, R.b), Cross(u, v)))
  {
    BinetCauchy(R.b, R.c, u, v);
    BinetCauchy(R.c, R.a, u, v);
    BinetCauchy(R.a, R.b, u, v);
  }
}
