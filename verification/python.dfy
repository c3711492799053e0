/**
 * The slice of Python's runtime behaviour the simulation core relies on:
 * `None`, raised exceptions, and the list operations `remove`, `count`,
 * `in` and the reversed copy `xs[::-1]`.
 */
module Python {

  /** An attribute that may hold Python's `None`. */
  datatype Option<+T> = None | Some(value: T)

  /** The exceptions the modelled code can raise. */
  datatype Exc = TypeError | ValueError | AttributeError | IndexError

  /**
   * The outcome of a call that may raise. A raise does not roll back the
   * mutations made before it, so `Raised` carries the state the mutable
   * objects hold at the moment of the raise.
   */
  datatype Outcome<+T> = Ok(value: T) | Raised(exc: Exc, state: T) {
    /** The state after the call, whether it returned or raised. */
    function After(): T {
      if Ok? then value else state
    }
  }

  /** Position of the first element equal to `x` (what `list.index` returns). */
  function IndexOf<T(==)>(xs: seq<T>, x: T): (i: nat)
    requires x in xs
    ensures i < |xs| && xs[i] == x
    ensures forall j :: 0 <= j < i ==> xs[j] != x
  {
    if xs[0] == x then 0 else 1 + IndexOf(xs[1..], x)
  }

  /**
   * `xs.remove(x)`: drop the first element equal to `x`, or raise
   * ValueError. Everything before the first `x` stays in place and
   * everything after it moves down one position.
   */
  function Remove<T(==)>(xs: seq<T>, x: T): (r: Outcome<seq<T>>)
    ensures r.Ok? <==> x in xs
    ensures r.Raised? ==> r.exc == ValueError && r.state == xs
    ensures r.Ok? ==> |r.value| == |xs| - 1
    ensures r.Ok? ==> multiset(r.value) == multiset(xs) - multiset{x}
    ensures r.Ok? ==> r.value[..IndexOf(xs, x)] == xs[..IndexOf(xs, x)] && r.value[IndexOf(xs, x)..] == xs[IndexOf(xs, x) + 1..]
  {
    if x in xs then
      var i := IndexOf(xs, x);
      assert xs == xs[..i] + [x] + xs[i + 1..];
      Ok(xs[..i] + xs[i + 1..])
    else
      Raised(ValueError, xs)
  }

  /** `xs.count(x)`: how many elements equal `x`. */
  function Count<T(==)>(xs: seq<T>, x: T): (n: nat)
    ensures n <= |xs|
    ensures n == multiset(xs)[x]
    ensures n == 0 <==> x !in xs
  {
    if |xs| == 0 then 0
    else
      assert xs == [xs[0]] + xs[1..];
      (if xs[0] == x then 1 else 0) + Count(xs[1..], x)
  }

  /** `xs[::-1]`: a reversed copy. */
  function Reversed<T>(xs: seq<T>): (r: seq<T>)
    ensures |r| == |xs|
    ensures forall i :: 0 <= i < |xs| ==> r[i] == xs[|xs| - 1 - i]
  {
    if |xs| == 0 then [] else Reversed(xs[1..]) + [xs[0]]
  }

  /** `xs` with every element equal to `x` left out, order kept. */
  function Without<T(==)>(xs: seq<T>, x: T): (r: seq<T>)
    ensures x !in r
    ensures forall i :: 0 <= i < |r| ==> r[i] in xs
    ensures forall i :: 0 <= i < |xs| && xs[i] != x ==> xs[i] in r
    ensures |r| <= |xs|
  {
    if |xs| == 0 then []
    else if xs[0] == x then Without(xs[1..], x)
    else [xs[0]] + Without(xs[1..], x)
  }

  /** Leaving out `x` distributes over concatenation. */
  lemma {:induction false} WithoutAppend<T>(a: seq<T>, b: seq<T>, x: T)
    ensures Without(a + b, x) == Without(a, x) + Without(b, x)
  {
    if |a| > 0 {
      assert (a + b)[0] == a[0];
      assert (a + b)[1..] == a[1..] + b;
      WithoutAppend(a[1..], b, x);
      var head := if a[0] == x then [] else [a[0]];
      assert Without(a, x) == head + Without(a[1..], x);
      assert Without(a + b, x) == head + (Without(a[1..], x) + Without(b, x));
      assert head + (Without(a[1..], x) + Without(b, x)) == (head + Without(a[1..], x)) + Without(b, x);
    } else {
      assert a + b == b;
    }
  }

  /** Removing the first `x` leaves every other element, in order, where it was. */
  lemma RemoveKeepsOthers<T>(xs: seq<T>, x: T)
    requires x in xs
    ensures Without(Remove(xs, x).value, x) == Without(xs, x)
  {
    var i := IndexOf(xs, x);
    assert xs == xs[..i] + ([x] + xs[i + 1..]);
    WithoutAppend(xs[..i], [x] + xs[i + 1..], x);
    WithoutAppend(xs[..i], xs[i + 1..], x);
    assert ([x] + xs[i + 1..])[1..] == xs[i + 1..];
  }

  /** The larger of two reals (Python's two-argument `max`). */
  function Max(a: real, b: real): (r: real)
    ensures r >= a && r >= b
    ensures r == a || r == b
  {
    if a >= b then a else b
  }

  /** The smaller of two reals (Python's two-argument `min`). */
  function Min(a: real, b: real): (r: real)
    ensures r <= a && r <= b
    ensures r == a || r == b
  {
    if a <= b then a else b
  }

  /** Python's `abs` on a real. */
  function Abs(x: real): (r: real)
    ensures r >= 0.0
    ensures r == x || r == -x
  {
    if x < 0.0 then -x else x
  }
}
