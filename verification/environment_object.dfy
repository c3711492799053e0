/**
 * The environment-object capability every creature mixes in
 * (EnvironmentObject.py): the class-level defaults, adding and removing
 * collision partners, and `rotateDirection`, which turns a target heading
 * into an orientation quaternion measured from the rest direction +z and
 * applies a one-shot, species-specific correction the first time it runs.
 *
 * The orientation is recorded as the quaternion whose matrix is handed to
 * `setPostRotation`, and the correction as the total number of degrees the
 * object has been turned about the x axis by `rotate`.
 */
module EnvironmentObject {
  import opened Python
  import opened Vectors
  import opened Quaternion

  /** The per-instance attributes the capability defines. */
  datatype EnvObj = EnvObj(
    itemId: int,
    speciesId: int,
    boundRadius: Option<real>,
    boundCenter: V3,
    firstRotation: bool,
    shouldBeRemoved: bool,
    heading: Quat,
    xTurn: real)

  /**
   * The class-level defaults: item and species 0, no bounding radius, centre
   * at the origin, the correction still pending, not marked for removal, and
   * no orientation or turn applied yet.
   */
  const Defaults := EnvObj(0, 0, None, Origin, true, false, Identity, 0.0)

  // Collision partners

  /** `addCollisionObj(a)`: append `a` when it is an environment object. */
  function AddCollisionObj<T>(xs: seq<T>, a: T, isEnvObj: bool): (r: seq<T>)
    ensures isEnvObj ==> |r| == |xs| + 1 && r[..|xs|] == xs && r[|xs|] == a
    ensures !isEnvObj ==> r == xs
  {
    if isEnvObj then xs + [a] else xs
  }

  /**
   * `rmCollisionObj(a)`: `list.remove(a)` when `a` is an environment
   * object, which raises ValueError when `a` is absent; any other argument
   * leaves the list alone.
   */
  function RmCollisionObj<T(==)>(xs: seq<T>, a: T, isEnvObj: bool): (r: Outcome<seq<T>>)
    ensures r.Raised? <==> isEnvObj && a !in xs
    ensures r.Raised? ==> r.exc == ValueError && r.state == xs
    ensures r.Ok? && isEnvObj ==> multiset(r.value) == multiset(xs) - multiset{a}
    ensures r.Ok? && isEnvObj ==> |r.value| == |xs| - 1
    ensures r.Ok? && isEnvObj ==> r.value[..IndexOf(xs, a)] == xs[..IndexOf(xs, a)] && r.value[IndexOf(xs, a)..] == xs[IndexOf(xs, a) + 1..]
    ensures !isEnvObj ==> r == Ok(xs)
  {
    if isEnvObj then Remove(xs, a) else Ok(xs)
  }

  /** Adding a partner that was not listed and removing it again restores the list. */
  lemma {:induction false} AddThenRemove<T>(xs: seq<T>, a: T)
    requires a !in xs
    ensures RmCollisionObj(AddCollisionObj(xs, a, true), a, true) == Ok(xs)
  {
    var ys := xs + [a];
    assert IndexOf(ys, a) == |xs| by {
      IndexOfAppend(xs, a);
    }
    assert ys[..|xs|] + ys[|xs| + 1..] == xs;
  }

  /** The first occurrence of `a` in `xs + [a]` is the appended one when `a` is not in `xs`. */
  lemma {:induction false} IndexOfAppend<T>(xs: seq<T>, a: T)
    requires a !in xs
    ensures IndexOf(xs + [a], a) == |xs|
  {
    if |xs| > 0 {
      assert (xs + [a])[1..] == xs[1..] + [a];
      IndexOfAppend(xs[1..], a);
    }
  }

  /** Removing a partner twice raises on the second call when it was listed once. */
  lemma RemoveTwiceRaises<T>(xs: seq<T>, a: T)
    requires Count(xs, a) == 1
    ensures RmCollisionObj(xs, a, true).Ok?
    ensures RmCollisionObj(RmCollisionObj(xs, a, true).value, a, true) == Raised(ValueError, RmCollisionObj(xs, a, true).value)
  {
    var r := RmCollisionObj(xs, a, true).value;
    assert multiset(r)[a] == 0;
  }

  // Orientation from a heading

  /** The direction a freshly built creature faces. */
  const RestDirection := V3(0.0, 0.0, 1.0)

  /** `current_direction.cross3d(target_direction)`, before normalising. */
  function RawAxis(m: MathLib, target: V3): V3 {
    Cross(RestDirection, Vectors.Normalize(m, target))
  }

  /** The rotation axis: the normalised cross product of the rest direction and the normalised target. */
  function RotationAxis(m: MathLib, target: V3): V3 {
    Vectors.Normalize(m, RawAxis(m, target))
  }

  /** The rotation angle `acos(rest . target)` of the normalised target. */
  function RotationAngle(m: MathLib, target: V3): real {
    m.acos(Dot(RestDirection, Vectors.Normalize(m, target)))
  }

  /**
   * The quaternion `Quaternion(cos(a/2), axis * sin(a/2))` built from the
   * axis and angle. Its four components are floats, so the type-checked
   * construction always succeeds.
   */
  function HeadingQuat(m: MathLib, target: V3): (q: Quat)
    ensures q.s == m.cos(RotationAngle(m, target) / 2.0)
    ensures q.v == Scale(RotationAxis(m, target), m.sin(RotationAngle(m, target) / 2.0))
  {
    var half := RotationAngle(m, target) / 2.0;
    var axis := RotationAxis(m, target);
    var sh := m.sin(half);
    var made := New(PyFloat(m.cos(half)), PyFloat(axis.x * sh), PyFloat(axis.y * sh), PyFloat(axis.z * sh));
    made.value
  }

  /** The cross product with +z is `(-ty, tx, 0)`. */
  lemma RawAxisComponents(m: MathLib, target: V3)
    ensures RawAxis(m, target) == V3(-Vectors.Normalize(m, target).y, Vectors.Normalize(m, target).x, 0.0)
  {
  }

  /** The axis never has a z component, and the raw cross product vanishes exactly when the target lies on the z axis. */
  lemma AxisInXYPlane(m: MathLib, target: V3)
    ensures RotationAxis(m, target).z == 0.0
    ensures RawAxis(m, target) == Origin <==> Vectors.Normalize(m, target).x == 0.0 && Vectors.Normalize(m, target).y == 0.0
  {
    var t := Vectors.Normalize(m, target);
    RawAxisComponents(m, target);
    assert RawAxis(m, target).z == 0.0;
    assert RawAxis(m, target) == Origin <==> -t.y == 0.0 && t.x == 0.0;
  }

  /** The axis is orthogonal to both the rest direction and the normalised target. */
  lemma AxisOrthogonal(m: MathLib, target: V3)
    ensures Dot(RotationAxis(m, target), RestDirection) == 0.0
    ensures Dot(RotationAxis(m, target), Vectors.Normalize(m, target)) == 0.0
  {
    var t := Vectors.Normalize(m, target);
    var c := RawAxis(m, target);
    RawAxisComponents(m, target);
    assert Dot(c, t) == 0.0;
    var mag := Vectors.Norm(m, c);
    if mag > Epsilon {
      var a := RotationAxis(m, target);
      assert Scale(a, mag) == c;
      DotScale(a, t, mag);
      ProductZero(mag, Dot(a, t));
    }
  }

  /** Scaling the first argument of a dot product scales the product. */
  lemma DotScale(a: V3, b: V3, k: real)
    ensures Dot(Scale(a, k), b) == k * Dot(a, b)
  {
    assert (a.x * k) * b.x == k * (a.x * b.x);
    assert (a.y * k) * b.y == k * (a.y * b.y);
    assert (a.z * k) * b.z == k * (a.z * b.z);
  }

  /**
   * With `cos^2 + sin^2 == 1` at the half angle and an exact square root of
   * the axis length, the heading is a unit quaternion.
   */
  lemma HeadingIsUnit(m: MathLib, target: V3)
    requires SqrtExactAt(m, SumSq(RawAxis(m, target)))
    requires Vectors.Norm(m, RawAxis(m, target)) > Epsilon
    requires m.cos(RotationAngle(m, target) / 2.0) * m.cos(RotationAngle(m, target) / 2.0)
           + m.sin(RotationAngle(m, target) / 2.0) * m.sin(RotationAngle(m, target) / 2.0) == 1.0
    ensures SumSq4(HeadingQuat(m, target)) == 1.0
  {
    var q := HeadingQuat(m, target);
    var sh := m.sin(RotationAngle(m, target) / 2.0);
    Vectors.NormalizeIsUnit(m, RawAxis(m, target));
    ScaleSumSq(RotationAxis(m, target), sh);
    assert SumSq(q.v) == sh * sh;
  }

  /**
   * A target on the z axis, facing along +z or against it, gives a zero axis
   * and so the identity matrix: an antiparallel heading does not turn the
   * creature round.
   */
  lemma OnAxisHeadingIsIdentity(m: MathLib, target: V3)
    requires target.x == 0.0 && target.y == 0.0
    ensures RotationAxis(m, target) == Origin
    ensures ToMatrix(HeadingQuat(m, target)) == IdentityMatrix
  {
    RawAxisComponents(m, target);
    var q := HeadingQuat(m, target);
    assert q.v == Origin;
    ToMatrixOfScalar(q.s);
  }

  // The one-shot correction

  /** The extra turn about x each species needs once: 90 degrees for species 1, 180 for species 2, none otherwise. */
  function CorrectionDegrees(speciesId: int): real {
    if speciesId == 1 then 90.0 else if speciesId == 2 then 180.0 else 0.0
  }

  /** Whether a species gets the one-shot correction at all. */
  predicate Corrected(speciesId: int) {
    speciesId == 1 || speciesId == 2
  }

  /**
   * The tail of `rotateDirection`: species 1 turns 90 degrees about x and
   * species 2 turns 180, each only while `first_rotation` is set, which the
   * turn then clears.
   */
  function Correction(e: EnvObj): (r: EnvObj)
    ensures r.xTurn == e.xTurn + (if e.firstRotation then CorrectionDegrees(e.speciesId) else 0.0)
    ensures r.firstRotation <==> e.firstRotation && !Corrected(e.speciesId)
    ensures r == e.(xTurn := r.xTurn, firstRotation := r.firstRotation)
  {
    var e1 := if e.speciesId == 1 && e.firstRotation then e.(xTurn := e.xTurn + 90.0, firstRotation := false) else e;
    if e1.speciesId == 2 && e1.firstRotation then e1.(xTurn := e1.xTurn + 180.0, firstRotation := false) else e1
  }

  /**
   * `rotateDirection(v1)`: replace the orientation by the heading quaternion
   * of `v1`, whatever it was before, then apply the correction.
   */
  function RotateDirection(m: MathLib, e: EnvObj, target: V3): (r: EnvObj)
    ensures r.heading == HeadingQuat(m, target)
    ensures r.speciesId == e.speciesId && r.itemId == e.itemId && r.boundRadius == e.boundRadius
    ensures r.boundCenter == e.boundCenter && r.shouldBeRemoved == e.shouldBeRemoved
    ensures r.xTurn == e.xTurn + (if e.firstRotation then CorrectionDegrees(e.speciesId) else 0.0)
    ensures r.firstRotation <==> e.firstRotation && !Corrected(e.speciesId)
  {
    Correction(e.(heading := HeadingQuat(m, target)))
  }

  /** The correction fires at most once: applying it again changes nothing. */
  lemma CorrectionIdempotent(e: EnvObj)
    ensures Correction(Correction(e)) == Correction(e)
  {
  }

  /** A second heading change adds no turn about x, whatever the two targets. */
  lemma SecondRotationAddsNoTurn(m: MathLib, e: EnvObj, t1: V3, t2: V3)
    requires Corrected(e.speciesId)
    ensures RotateDirection(m, RotateDirection(m, e, t1), t2).xTurn == RotateDirection(m, e, t1).xTurn
    ensures !RotateDirection(m, e, t1).firstRotation
  {
  }

  /** An object of any other species, such as one left at the default 0, is never turned and keeps its flag. */
  lemma UncorrectedSpecies(m: MathLib, e: EnvObj, target: V3)
    requires !Corrected(e.speciesId)
    ensures RotateDirection(m, e, target).xTurn == e.xTurn
    ensures RotateDirection(m, e, target).firstRotation == e.firstRotation
  {
  }

  /** With the class defaults the flag stays set through any heading change. */
  lemma DefaultsNeverCorrected(m: MathLib, target: V3)
    ensures RotateDirection(m, Defaults, target).firstRotation
    ensures RotateDirection(m, Defaults, target).xTurn == 0.0
  {
    UncorrectedSpecies(m, Defaults, target);
  }
}
