/**
 * Three-component points and vectors, as the core uses its `Point` type:
 * sums, differences, scaling, dot and cross products, the epsilon-guarded
 * normalisation, distances, and the mirror reflection `v - 2(n.v)n` used by
 * every bounce in the vivarium.
 *
 * Numbers are mathematical reals. The square root and the trigonometric
 * functions are not defined here: they are the fields of a `MathLib` value
 * that every caller passes in, and a lemma that needs a fact about one of
 * them asks for it, at the one point it needs, in its `requires`.
 */
module Vectors {

  datatype V3 = V3(x: real, y: real, z: real)

  const Origin := V3(0.0, 0.0, 0.0)

  /** `math.sqrt`, `math.acos`, `math.sin` and `math.cos`, left uninterpreted. */
  datatype MathLib = MathLib(sqrt: real -> real, acos: real -> real, sin: real -> real, cos: real -> real)

  /** `m.sqrt` is the exact non-negative square root at `x`. */
  predicate SqrtExactAt(m: MathLib, x: real) {
    m.sqrt(x) >= 0.0 && m.sqrt(x) * m.sqrt(x) == x
  }

  /** Below this magnitude `normalize` leaves a vector alone (1e-6). */
  const Epsilon: real := 0.000001

  function Add(a: V3, b: V3): V3 {
    V3(a.x + b.x, a.y + b.y, a.z + b.z)
  }

  function Sub(a: V3, b: V3): V3 {
    V3(a.x - b.x, a.y - b.y, a.z - b.z)
  }

  function Scale(a: V3, k: real): V3 {
    V3(a.x * k, a.y * k, a.z * k)
  }

  function Dot(a: V3, b: V3): real {
    a.x * b.x + a.y * b.y + a.z * b.z
  }

  function Cross(a: V3, b: V3): V3 {
    V3(a.y * b.z - a.z * b.y, a.z * b.x - a.x * b.z, a.x * b.y - a.y * b.x)
  }

  /** Squared length, `Dot(a, a)`. */
  function SumSq(a: V3): real {
    a.x * a.x + a.y * a.y + a.z * a.z
  }

  /** A product with a non-zero factor is zero only when the other factor is. */
  lemma ProductZero(a: real, b: real)
    requires a != 0.0
    requires a * b == 0.0
    ensures b == 0.0
  {
    assert b == (a * b) / a;
  }

  /** `a * b == a` with a non-zero `a` forces `b == 1`. */
  lemma ProductOne(a: real, b: real)
    requires a != 0.0
    requires a * b == a
    ensures b == 1.0
  {
    assert a * (b - 1.0) == 0.0;
    ProductZero(a, b - 1.0);
  }

  /** `Point.norm()`: the length through the library square root. */
  function Norm(m: MathLib, v: V3): real {
    m.sqrt(SumSq(v))
  }

  /**
   * `Point.normalize()`: divide by the length when it exceeds `Epsilon`,
   * otherwise return the vector unchanged.
   */
  function Normalize(m: MathLib, v: V3): (r: V3)
    ensures Norm(m, v) > Epsilon ==> Scale(r, Norm(m, v)) == v
    ensures Norm(m, v) <= Epsilon ==> r == v
    ensures v.x == 0.0 ==> r.x == 0.0
    ensures v.y == 0.0 ==> r.y == 0.0
    ensures v.z == 0.0 ==> r.z == 0.0
    ensures v == Origin ==> r == Origin
  {
    var mag := Norm(m, v);
    if mag > Epsilon then V3(v.x / mag, v.y / mag, v.z / mag) else v
  }

  /** `p.distance(q)`: the length of `p - q`. */
  function Distance(m: MathLib, p: V3, q: V3): real {
    Norm(m, Sub(p, q))
  }

  /** `v - 2 * n.dot(v) * n`: mirror `v` in the plane whose normal is `n`. */
  function Reflect(v: V3, n: V3): V3 {
    Sub(v, Scale(n, 2.0 * Dot(n, v)))
  }

  /** The part of `v` orthogonal to `n` (for a unit `n`). */
  function Tangent(v: V3, n: V3): V3 {
    Sub(v, Scale(n, Dot(v, n)))
  }

  /** Dot product is linear in its second argument. */
  lemma DotSubScale(n: V3, v: V3, k: real)
    ensures Dot(n, Sub(v, Scale(n, k))) == Dot(n, v) - k * SumSq(n)
  {
    calc {
      Dot(n, Sub(v, Scale(n, k)));
      n.x * (v.x - n.x * k) + n.y * (v.y - n.y * k) + n.z * (v.z - n.z * k);
      Dot(n, v) - k * (n.x * n.x + n.y * n.y + n.z * n.z);
    }
  }

  /** Reflection reverses the normal component: `v'.n == -(v.n)`. */
  lemma ReflectReversesNormal(v: V3, n: V3)
    requires SumSq(n) == 1.0
    ensures Dot(Reflect(v, n), n) == -Dot(v, n)
  {
    DotSubScale(n, v, 2.0 * Dot(n, v));
    assert Dot(Reflect(v, n), n) == Dot(n, Reflect(v, n));
  }

  /** Reflection keeps the tangential component. */
  lemma ReflectKeepsTangent(v: V3, n: V3)
    requires SumSq(n) == 1.0
    ensures Tangent(Reflect(v, n), n) == Tangent(v, n)
  {
    ReflectReversesNormal(v, n);
    var d := Dot(v, n);
    assert Dot(n, v) == d;
    var r := Reflect(v, n);
    assert r == Sub(v, Scale(n, 2.0 * d));
    assert Tangent(r, n) == Sub(r, Scale(n, -d));
  }

  /** Reflection keeps the length: `|v'| == |v|`. */
  lemma ReflectKeepsLength(v: V3, n: V3)
    requires SumSq(n) == 1.0
    ensures SumSq(Reflect(v, n)) == SumSq(v)
  {
    var d := Dot(n, v);
    var r := Reflect(v, n);
    calc {
      SumSq(r);
      Dot(Sub(v, Scale(n, 2.0 * d)), Sub(v, Scale(n, 2.0 * d)));
      { DotSubScale(Sub(v, Scale(n, 2.0 * d)), v, 0.0); }
      SumSq(v) - 4.0 * d * d + 4.0 * d * d * SumSq(n);
      SumSq(v);
    }
  }

  /** Reflecting twice about the same unit normal restores the vector. */
  lemma ReflectTwice(v: V3, n: V3)
    requires SumSq(n) == 1.0
    ensures Reflect(Reflect(v, n), n) == v
  {
    ReflectReversesNormal(v, n);
    assert Dot(n, Reflect(v, n)) == -Dot(n, v);
  }

  /** Scaling by `k` scales the squared length by `k * k`. */
  lemma ScaleSumSq(a: V3, k: real)
    ensures SumSq(Scale(a, k)) == k * k * SumSq(a)
  {
    assert (a.x * k) * (a.x * k) == k * k * (a.x * a.x);
    assert (a.y * k) * (a.y * k) == k * k * (a.y * a.y);
    assert (a.z * k) * (a.z * k) == k * k * (a.z * a.z);
  }

  /** With an exact square root, a vector longer than `Epsilon` normalises to unit length. */
  lemma NormalizeIsUnit(m: MathLib, v: V3)
    requires SqrtExactAt(m, SumSq(v))
    requires Norm(m, v) > Epsilon
    ensures SumSq(Normalize(m, v)) == 1.0
  {
    var k := Norm(m, v);
    var r := Normalize(m, v);
    var q := k * k;
    var n := SumSq(r);
    assert Scale(r, k) == v;
    ScaleSumSq(r, k);
    assert SumSq(v) == q * n;
    assert SumSq(v) == q;
    assert q > 0.0 by {
      assert k > 0.0;
    }
    ProductOne(q, n);
  }

  /** A unit vector is a fixed point of `Normalize` when the square root of 1 is 1. */
  lemma NormalizeFixesUnit(m: MathLib, v: V3)
    requires SumSq(v) == 1.0
    requires m.sqrt(1.0) == 1.0
    ensures Normalize(m, v) == v
  {
  }
}
