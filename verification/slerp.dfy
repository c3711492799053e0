/**
 * `Quaternion.slerp`: spherical linear interpolation between two
 * quaternions, with its clamp of the parameter, its flip onto the shorter
 * arc and its linear fallback when the angle is degenerate.
 */
module Slerp {
  import opened Python
  import opened Vectors
  import opened Quaternion

  /** `max(0.0, min(t, 1.0))`. */
  function Clamp(t: real): (r: real)
    ensures 0.0 <= r <= 1.0
    ensures 0.0 <= t <= 1.0 ==> r == t
  {
    Max(0.0, Min(t, 1.0))
  }

  /** The four-component dot product `slerp` computes first. */
  function Dot4(p: Quat, q: Quat): real {
    p.s * q.s + Dot(p.v, q.v)
  }

  /** Below this `|sin(omega)|`, `slerp` falls back to linear interpolation (1e-10). */
  const SinTolerance: real := 0.0000000001

  /** `p * a + q * b`, component by component. */
  function Blend(p: Quat, a: real, q: Quat, b: real): Quat {
    Quat(p.s * a + q.s * b, V3(p.v.x * a + q.v.x * b, p.v.y * a + q.v.y * b, p.v.z * a + q.v.z * b))
  }

  /** Whether `slerp` takes its linear fallback for this dot product. */
  predicate Degenerate(m: MathLib, dot: real) {
    Abs(m.sin(m.acos(dot))) < SinTolerance
  }

  /** `sin(k * omega) / sin(omega)`, one weight of the spherical blend. */
  function SineRatio(m: MathLib, k: real, omega: real): real
    requires m.sin(omega) != 0.0
  {
    m.sin(k * omega) / m.sin(omega)
  }

  /** The weights `(scale_q1, scale_q2)` for an already clamped `t`. */
  function Weights(m: MathLib, dot: real, t: real): (real, real) {
    var omega := m.acos(dot);
    if Degenerate(m, dot) then (1.0 - t, t)
    else (SineRatio(m, 1.0 - t, omega), SineRatio(m, t, omega))
  }

  /** The two branches of the weights: linear in the fallback, the sine ratios otherwise. */
  lemma WeightsOf(m: MathLib, dot: real, t: real)
    ensures Degenerate(m, dot) ==> Weights(m, dot, t) == (1.0 - t, t)
    ensures !Degenerate(m, dot) ==>
      Weights(m, dot, t) == (SineRatio(m, 1.0 - t, m.acos(dot)), SineRatio(m, t, m.acos(dot)))
  {
  }

  /** The partner `slerp` actually blends towards: `-q2` when the dot product is negative. */
  function Partner(q1: Quat, q2: Quat): (r: Quat)
    ensures Dot4(q1, r) >= 0.0
    ensures r == q2 || r == Neg(q2)
  {
    if Dot4(q1, q2) < 0.0 then Neg(q2) else q2
  }

  /**
   * `slerp(q1, q2, t)`: clamp `t`, flip `q2` onto the shorter arc, and blend
   * with the weights of the angle `acos` of the dot product taken BEFORE the
   * flip.
   */
  function Slerp(m: MathLib, q1: Quat, q2: Quat, t: real): (r: Quat)
    ensures Degenerate(m, Dot4(q1, q2)) ==> r == Blend(q1, 1.0 - Clamp(t), Partner(q1, q2), Clamp(t))
    ensures !Degenerate(m, Dot4(q1, q2)) ==>
      var omega := m.acos(Dot4(q1, q2));
      r == Blend(q1, SineRatio(m, 1.0 - Clamp(t), omega), Partner(q1, q2), SineRatio(m, Clamp(t), omega))
  {
    var tc := Clamp(t);
    var w := Weights(m, Dot4(q1, q2), tc);
    WeightsOf(m, Dot4(q1, q2), tc);
    Blend(q1, w.0, Partner(q1, q2), w.1)
  }

  /** Only the clamped parameter matters. */
  lemma SlerpClamps(m: MathLib, q1: Quat, q2: Quat, t: real)
    ensures Slerp(m, q1, q2, t) == Slerp(m, q1, q2, Clamp(t))
    ensures t <= 0.0 ==> Slerp(m, q1, q2, t) == Slerp(m, q1, q2, 0.0)
    ensures t >= 1.0 ==> Slerp(m, q1, q2, t) == Slerp(m, q1, q2, 1.0)
  {
  }

  /** In the fallback branch the result is the straight blend `(1 - t) q1 + t q2'`. */
  lemma SlerpFallbackIsLinear(m: MathLib, q1: Quat, q2: Quat, t: real)
    requires Degenerate(m, Dot4(q1, q2))
    requires 0.0 <= t <= 1.0
    ensures Slerp(m, q1, q2, t) == Blend(q1, 1.0 - t, Partner(q1, q2), t)
  {
  }

  /**
   * When `sin(0) == 0`, `t = 0` gives `q1` and `t = 1` gives the partner
   * `q2'` (that is `-q2` when the dot product is negative), in both branches.
   */
  lemma SlerpEndpoints(m: MathLib, q1: Quat, q2: Quat)
    requires m.sin(0.0) == 0.0
    ensures Slerp(m, q1, q2, 0.0) == q1
    ensures Slerp(m, q1, q2, 1.0) == Partner(q1, q2)
    ensures Dot4(q1, q2) < 0.0 ==> Slerp(m, q1, q2, 1.0) == Neg(q2)
  {
    var d := Dot4(q1, q2);
    var omega := m.acos(d);
    if !Degenerate(m, d) {
      var so := m.sin(omega);
      assert so != 0.0;
      assert (1.0 - 0.0) * omega == omega;
      assert 0.0 * omega == 0.0;
      assert (1.0 - 1.0) * omega == 0.0;
      assert 1.0 * omega == omega;
      assert so / so == 1.0 && 0.0 / so == 0.0;
      assert Weights(m, d, 0.0) == (so / so, 0.0 / so);
      assert Weights(m, d, 1.0) == (0.0 / so, so / so);
    }
    assert Weights(m, d, 0.0) == (1.0, 0.0);
    assert Weights(m, d, 1.0) == (0.0, 1.0);
    assert Clamp(0.0) == 0.0 && Clamp(1.0) == 1.0;
    BlendUnitWeights(q1, Partner(q1, q2));
  }

  /** Weights `(1, 0)` pick the first quaternion and `(0, 1)` the second. */
  lemma BlendUnitWeights(p: Quat, q: Quat)
    ensures Blend(p, 1.0, q, 0.0) == p
    ensures Blend(p, 0.0, q, 1.0) == q
  {
  }

  /** Interpolating from the other end swaps the two weights. */
  lemma WeightsSwap(m: MathLib, d: real, t: real)
    ensures Weights(m, d, 1.0 - t) == (Weights(m, d, t).1, Weights(m, d, t).0)
  {
    assert 1.0 - (1.0 - t) == t;
  }

  /** For a unit quaternion with `acos(1) == 0` and `sin(0) == 0`, `slerp(q, q, t) == q`. */
  lemma SlerpSelf(m: MathLib, q: Quat, t: real)
    requires SumSq4(q) == 1.0
    requires m.acos(1.0) == 0.0 && m.sin(0.0) == 0.0
    ensures Slerp(m, q, q, t) == q
  {
    assert Dot4(q, q) == 1.0;
    assert Degenerate(m, 1.0);
  }

  /**
   * Running the interpolation backwards from `q2` gives the same point,
   * negated when `slerp` flipped the partner.
   */
  lemma SlerpReverse(m: MathLib, q1: Quat, q2: Quat, t: real)
    requires 0.0 <= t <= 1.0
    ensures Dot4(q1, q2) >= 0.0 ==> Slerp(m, q2, q1, 1.0 - t) == Slerp(m, q1, q2, t)
    ensures Dot4(q1, q2) < 0.0 ==> Slerp(m, q2, q1, 1.0 - t) == Neg(Slerp(m, q1, q2, t))
  {
    var d := Dot4(q1, q2);
    assert Dot4(q2, q1) == d;
    assert Clamp(t) == t && Clamp(1.0 - t) == 1.0 - t;
    WeightsSwap(m, d, t);
    var w := Weights(m, d, t);
    assert Slerp(m, q1, q2, t) == Blend(q1, w.0, Partner(q1, q2), w.1);
    assert Slerp(m, q2, q1, 1.0 - t) == Blend(q2, w.1, Partner(q2, q1), w.0);
    BlendSwap(q1, w.0, q2, w.1);
    BlendNeg(q1, w.0, q2, w.1);
  }

  /** Blending is symmetric in its two weighted terms. */
  lemma BlendSwap(p: Quat, a: real, q: Quat, b: real)
    ensures Blend(q, b, p, a) == Blend(p, a, q, b)
  {
  }

  /** Negating both inputs negates the blend. */
  lemma BlendNeg(p: Quat, a: real, q: Quat, b: real)
    ensures Blend(q, b, Neg(p), a) == Neg(Blend(p, a, Neg(q), b))
  {
  }
}
