/**
 * The quaternion class of the vivarium (Quaternion.py): type-checked
 * construction, the Hamilton product, the epsilon-guarded normalisation,
 * reset and the closed-form rotation matrix.
 *
 * A quaternion is its scalar part `s` and its vector part `v`. Component
 * values arrive as Python values, so construction checks that each one is an
 * `int` or a `float` (a `bool` is an `int` in Python) before storing it.
 */
module Quaternion {
  import opened Python
  import opened Vectors

  datatype Quat = Quat(s: real, v: V3)

  /** The Python values a caller can hand to `set` or `multiply`. */
  datatype PyValue = PyInt(i: int) | PyFloat(f: real) | PyBool(b: bool) | PyQuat(q: Quat) | PyOther

  /** `isNum`: an `int` (including `bool`) or a `float`. */
  function IsNum(x: PyValue): (r: bool)
    ensures r <==> !(x.PyQuat? || x.PyOther?)
  {
    x.PyInt? || x.PyFloat? || x.PyBool?
  }

  function AsReal(x: PyValue): real
    requires IsNum(x)
  {
    match x
    case PyInt(i) => i as real
    case PyFloat(f) => f
    case PyBool(b) => if b then 1.0 else 0.0
  }

  const Identity := Quat(1.0, Origin)

  /** The state an instance holds before `__init__` calls `set`: class default `s`, `v = [0, 0, 0]`. */
  const Blank := Quat(0.0, Origin)

  /**
   * `set(s, v0, v1, v2)`: store the four components, or raise TypeError
   * when any of them is not a number. The check comes before any
   * assignment, so a raise leaves the quaternion as it was.
   */
  function Set(q: Quat, s: PyValue, v0: PyValue, v1: PyValue, v2: PyValue): (r: Outcome<Quat>)
    ensures r.Ok? <==> IsNum(s) && IsNum(v0) && IsNum(v1) && IsNum(v2)
    ensures r.Raised? ==> r.exc == TypeError && r.state == q
    ensures r.Ok? ==> r.value.s == AsReal(s) && r.value.v == V3(AsReal(v0), AsReal(v1), AsReal(v2))
  {
    if !IsNum(s) || !IsNum(v0) || !IsNum(v1) || !IsNum(v2) then Raised(TypeError, q)
    else Ok(Quat(AsReal(s), V3(AsReal(v0), AsReal(v1), AsReal(v2))))
  }

  /** `Quaternion(s, v0, v1, v2)`: a fresh instance passed through `set`. */
  function New(s: PyValue, v0: PyValue, v1: PyValue, v2: PyValue): (r: Outcome<Quat>)
    ensures r.Ok? <==> IsNum(s) && IsNum(v0) && IsNum(v1) && IsNum(v2)
    ensures r.Raised? ==> r.exc == TypeError
  {
    Set(Blank, s, v0, v1, v2)
  }

  /** `Quaternion()` with the default arguments `s=1, v0=v1=v2=0` is the identity. */
  lemma DefaultIsIdentity()
    ensures New(PyInt(1), PyInt(0), PyInt(0), PyInt(0)) == Ok(Identity)
  {
  }

  /** The product, written component by component as `multiply` computes it. */
  function Product(p: Quat, q: Quat): (r: Quat)
    ensures r.s == p.s * q.s - Dot(p.v, q.v)
    ensures r.v == Add(Add(Scale(q.v, p.s), Scale(p.v, q.s)), Cross(p.v, q.v))
  {
    var r := Quat(
      p.s * q.s - p.v.x * q.v.x - p.v.y * q.v.y - p.v.z * q.v.z,
      V3(
        (p.s * q.v.x) + (q.s * p.v.x) + (p.v.y * q.v.z - p.v.z * q.v.y),
        (p.s * q.v.y) + (q.s * p.v.y) + (p.v.z * q.v.x - p.v.x * q.v.z),
        (p.s * q.v.z) + (q.s * p.v.z) + (p.v.x * q.v.y - p.v.y * q.v.x)));
    var h := Add(Add(Scale(q.v, p.s), Scale(p.v, q.s)), Cross(p.v, q.v));
    assert r.v.x == h.x && r.v.y == h.y && r.v.z == h.z;
    r
  }

  /**
   * The component formulas are the Hamilton product:
   * `s = s1 s2 - v1.v2` and `v = s1 v2 + s2 v1 + v1 x v2`.
   */
  lemma ProductIsHamilton(p: Quat, q: Quat)
    ensures Product(p, q).s == p.s * q.s - Dot(p.v, q.v)
    ensures Product(p, q).v == Add(Add(Scale(q.v, p.s), Scale(p.v, q.s)), Cross(p.v, q.v))
  {
    var r, h := Product(p, q).v, Add(Add(Scale(q.v, p.s), Scale(p.v, q.s)), Cross(p.v, q.v));
    assert r.x == h.x && r.y == h.y && r.z == h.z;
  }

  /** `self.multiply(q)`: the product as a new quaternion, or TypeError for a non-quaternion `q`. */
  function Multiply(self: Quat, q: PyValue): (r: Outcome<Quat>)
    ensures r.Ok? <==> q.PyQuat?
    ensures r.Raised? ==> r.exc == TypeError && r.state == self
    ensures r.Ok? ==> r.value == Product(self, q.q)
  {
    if !q.PyQuat? then Raised(TypeError, self) else Ok(Product(self, q.q))
  }

  /** The identity quaternion is a two-sided unit of the product. */
  lemma IdentityIsUnit(q: Quat)
    ensures Product(Identity, q) == q
    ensures Product(q, Identity) == q
  {
  }

  function Neg(q: Quat): Quat {
    Quat(-q.s, V3(-q.v.x, -q.v.y, -q.v.z))
  }

  /**
   * Swapping the factors keeps the scalar part and changes the vector part
   * by exactly `2 (v1 x v2)`: the product is not commutative.
   */
  lemma ProductCommutator(p: Quat, q: Quat)
    ensures Product(p, q).s == Product(q, p).s
    ensures Product(p, q).v == Add(Product(q, p).v, Scale(Cross(p.v, q.v), 2.0))
  {
    ProductIsHamilton(p, q);
    ProductIsHamilton(q, p);
  }

  /**
   * Two pure quaternions (zero scalar part) with orthogonal vector parts
   * anticommute: `q p == -(p q)`, as `i j == k` and `j i == -k`.
   */
  lemma OrthogonalPureAnticommute(p: Quat, q: Quat)
    requires p.s == 0.0 && q.s == 0.0
    requires Dot(p.v, q.v) == 0.0
    ensures Product(q, p) == Neg(Product(p, q))
  {
    var pq, qp := Product(p, q), Product(q, p);
    assert pq.s == 0.0 - Dot(p.v, q.v);
    assert qp.s == 0.0 - Dot(p.v, q.v);
    assert pq.v == Cross(p.v, q.v);
    assert qp.v == Cross(q.v, p.v);
  }

  /** Sum of the squares of the four components. */
  function SumSq4(q: Quat): real {
    q.s * q.s + SumSq(q.v)
  }

  /**
   * `norm()`: the library square root of the sum of squares. Under an exact
   * square root it is zero exactly at the zero quaternion.
   */
  function Norm(m: MathLib, q: Quat): (r: real)
    ensures SqrtExactAt(m, SumSq4(q)) ==> r >= 0.0 && r * r == SumSq4(q)
    ensures SqrtExactAt(m, SumSq4(q)) ==> (r == 0.0 <==> q == Quat(0.0, Origin))
  {
    if SqrtExactAt(m, SumSq4(q)) then NormZero(m, q); m.sqrt(SumSq4(q)) else m.sqrt(SumSq4(q))
  }

  /** An exact square root of the sum of squares is zero exactly at the zero quaternion. */
  lemma NormZero(m: MathLib, q: Quat)
    requires SqrtExactAt(m, SumSq4(q))
    ensures m.sqrt(SumSq4(q)) == 0.0 <==> q == Quat(0.0, Origin)
  {
    SumSq4Zero(q);
    SquareZero(m.sqrt(SumSq4(q)));
  }

  /** A real square is never negative, and it is zero exactly at zero. */
  lemma SquareZero(x: real)
    ensures x * x >= 0.0
    ensures x * x == 0.0 <==> x == 0.0
  {
    if x < 0.0 {
      var y := -x;
      assert y * y == x * x;
    }
    if x != 0.0 {
      assert x == (x * x) / x;
    }
  }

  /** A sum of non-negative terms is non-negative, and zero only when every term is. */
  lemma NonNegSum(t: real, a: real, u: real, b: real, c: real, d: real)
    requires t == a + u && u == b + c + d
    requires a >= 0.0 && b >= 0.0 && c >= 0.0 && d >= 0.0
    ensures t >= 0.0
    ensures t == 0.0 <==> a == 0.0 && b == 0.0 && c == 0.0 && d == 0.0
  {
  }

  /** The sum of squares is never negative, and it is zero only for the zero quaternion. */
  lemma SumSq4Zero(q: Quat)
    ensures SumSq4(q) >= 0.0
    ensures SumSq4(q) == 0.0 <==> q == Quat(0.0, Origin)
  {
    SquareZero(q.s);
    SquareZero(q.v.x);
    SquareZero(q.v.y);
    SquareZero(q.v.z);
    NonNegSum(SumSq4(q), q.s * q.s, SumSq(q.v), q.v.x * q.v.x, q.v.y * q.v.y, q.v.z * q.v.z);
  }

  function ScaleQ(q: Quat, k: real): Quat {
    Quat(q.s * k, Scale(q.v, k))
  }

  /**
   * `normalize()`: divide every component by the norm when the norm exceeds
   * 1e-6, otherwise keep all components. It returns `self`, so the result is
   * the new state of the instance.
   */
  function Normalize(m: MathLib, q: Quat): (r: Quat)
    ensures Norm(m, q) > Epsilon ==> ScaleQ(r, Norm(m, q)) == q
    ensures Norm(m, q) <= Epsilon ==> r == q
  {
    var mag := Norm(m, q);
    if mag > Epsilon then Quat(q.s / mag, V3(q.v.x / mag, q.v.y / mag, q.v.z / mag)) else q
  }

  /** Scaling by `k` scales the sum of squares by `k * k`. */
  lemma ScaleSumSq4(q: Quat, k: real)
    ensures SumSq4(ScaleQ(q, k)) == k * k * SumSq4(q)
  {
    ScaleSumSq(q.v, k);
    assert (q.s * k) * (q.s * k) == k * k * (q.s * q.s);
  }

  /** With an exact square root, normalising a quaternion of norm above 1e-6 gives sum of squares 1. */
  lemma NormalizeIsUnit(m: MathLib, q: Quat)
    requires SqrtExactAt(m, SumSq4(q))
    requires Norm(m, q) > Epsilon
    ensures SumSq4(Normalize(m, q)) == 1.0
  {
    var k := Norm(m, q);
    var r := Normalize(m, q);
    var n := SumSq4(r);
    assert ScaleQ(r, k) == q;
    ScaleSumSq4(r, k);
    assert SumSq4(q) == k * k * n;
    assert SumSq4(q) == k * k;
    assert k * k > 0.0 by {
      assert k > 0.0;
    }
    ProductOne(k * k, n);
  }

  /** `reset()`: back to the identity, whatever the prior state. */
  function Reset(q: Quat): (r: Quat)
    ensures Product(r, q) == q && Product(q, r) == q
  {
    IdentityIsUnit(q);
    Identity
  }

  /** A 4 by 4 matrix as a sequence of rows. */
  type Matrix = seq<seq<real>>

  predicate Is4x4(a: Matrix) {
    |a| == 4 && forall i :: 0 <= i < 4 ==> |a[i]| == 4
  }

  const IdentityMatrix: Matrix := [
    [1.0, 0.0, 0.0, 0.0],
    [0.0, 1.0, 0.0, 0.0],
    [0.0, 0.0, 1.0, 0.0],
    [0.0, 0.0, 0.0, 1.0]]

  /** The nine pairwise products of `(s, a, b, c)` the rotation matrix is made of. */
  datatype Pairs = Pairs(aa: real, bb: real, cc: real, ab: real, ac: real, bc: real, sa: real, sb: real, sc: real)

  function PairsOf(q: Quat): Pairs {
    var s, a, b, c := q.s, q.v.x, q.v.y, q.v.z;
    Pairs(a * a, b * b, c * c, a * b, a * c, b * c, s * a, s * b, s * c)
  }

  /** The homogeneous rotation matrix written in terms of the pairwise products. */
  function MatrixOf(p: Pairs): Matrix {
    [
      [1.0 - 2.0 * p.bb - 2.0 * p.cc, 2.0 * p.ab - 2.0 * p.sc, 2.0 * p.ac + 2.0 * p.sb, 0.0],
      [2.0 * p.ab + 2.0 * p.sc, 1.0 - 2.0 * p.aa - 2.0 * p.cc, 2.0 * p.bc - 2.0 * p.sa, 0.0],
      [2.0 * p.ac - 2.0 * p.sb, 2.0 * p.bc + 2.0 * p.sa, 1.0 - 2.0 * p.aa - 2.0 * p.bb, 0.0],
      [0.0, 0.0, 0.0, 1.0]
    ]
  }

  /**
   * `toMatrix()`: the closed-form homogeneous rotation matrix of
   * `(s, a, b, c)`; no trigonometry, only products of components.
   */
  function ToMatrix(q: Quat): (r: Matrix)
    ensures Is4x4(r)
    ensures r[3] == [0.0, 0.0, 0.0, 1.0]
    ensures forall i :: 0 <= i < 3 ==> r[i][3] == 0.0
  {
    MatrixOf(PairsOf(q))
  }

  /** A zero vector part makes every pairwise product zero. */
  lemma PairsOfScalar(s: real)
    ensures PairsOf(Quat(s, Origin)) == Pairs(0.0, 0.0, 0.0, 0.0, 0.0, 0.0, 0.0, 0.0, 0.0)
  {
  }

  /** All-zero products give the identity matrix. */
  lemma MatrixOfZero()
    ensures MatrixOf(Pairs(0.0, 0.0, 0.0, 0.0, 0.0, 0.0, 0.0, 0.0, 0.0)) == IdentityMatrix
  {
  }

  /** A quaternion with a zero vector part maps to the identity matrix, whatever its scalar part. */
  lemma ToMatrixOfScalar(s: real)
    ensures ToMatrix(Quat(s, Origin)) == IdentityMatrix
  {
    PairsOfScalar(s);
    MatrixOfZero();
  }

  /** The identity quaternion, and so any reset quaternion, maps to the 4 by 4 identity. */
  lemma ResetToMatrix(q: Quat)
    ensures ToMatrix(Reset(q)) == IdentityMatrix
  {
    ToMatrixOfScalar(1.0);
  }

  /** A product of two negated factors equals the product of the factors. */
  lemma NegTimesNeg(x: real, y: real)
    ensures (-x) * (-y) == x * y
  {
  }

  /** Negating all four components keeps every pairwise product. */
  lemma PairsOfNeg(q: Quat)
    ensures PairsOf(Neg(q)) == PairsOf(q)
  {
    var s, a, b, c := q.s, q.v.x, q.v.y, q.v.z;
    NegTimesNeg(a, a);
    NegTimesNeg(b, b);
    NegTimesNeg(c, c);
    NegTimesNeg(a, b);
    NegTimesNeg(a, c);
    NegTimesNeg(b, c);
    NegTimesNeg(s, a);
    NegTimesNeg(s, b);
    NegTimesNeg(s, c);
  }

  /** Every entry is quadratic in the components, so `q` and `-q` give the same matrix. */
  lemma ToMatrixSignInvariant(q: Quat)
    ensures ToMatrix(Neg(q)) == ToMatrix(q)
  {
    PairsOfNeg(q);
  }
}
