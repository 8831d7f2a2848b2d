/** Real vectors (numpy arrays and Python lists of floats, with exact real
    arithmetic in place of floating point), what both source files do with
    them element by element, and the facts about real products their
    proofs share. */
module Vectors {

  type Vector = seq<real>

  datatype Option<+T> = None | Some(value: T)

  /** `a + b` on two arrays (or lists) of the same length. */
  function Add(a: Vector, b: Vector): (r: Vector)
    requires |a| == |b|
    ensures |r| == |a|
    ensures forall k :: 0 <= k < |r| ==> r[k] == a[k] + b[k]
  {
    seq(|a|, k requires 0 <= k < |a| => a[k] + b[k])
  }

  /** Every component of `a` lies in the half-open interval [lo, hi). */
  predicate AllIn(a: Vector, lo: real, hi: real)
  {
    forall k :: 0 <= k < |a| ==> lo <= a[k] < hi
  }

  /** `m` is the first index of `xs` where `f` is least: no element is
      better, and every earlier one is strictly worse. */
  predicate IsFirstMin(f: Vector -> real, xs: seq<Vector>, m: int)
  {
    0 <= m < |xs| && (forall k :: 0 <= k < |xs| ==> f(xs[m]) <= f(xs[k])) &&
    (forall k :: 0 <= k < m ==> f(xs[k]) > f(xs[m]))
  }

  /** The positive part of `a`. */
  function Max0(a: real): real { if a < 0.0 then 0.0 else a }

  /** The negative part of `a`. */
  function Min0(a: real): real { if a < 0.0 then a else 0.0 }

  /** Two terms each scaled by a factor in [0, 1) add up to something
      between their negative parts and their positive parts. */
  lemma ScaledSumBetween(r: real, a: real, s: real, b: real)
    requires 0.0 <= r < 1.0 && 0.0 <= s < 1.0
    ensures Min0(a) + Min0(b) <= r * a + s * b <= Max0(a) + Max0(b)
  {
    ScaledBetween(r, a);
    ScaledBetween(s, b);
  }

  lemma ScaledBetween(r: real, a: real)
    requires 0.0 <= r < 1.0
    ensures Min0(a) <= r * a <= Max0(a)
  {
    if a < 0.0 {
      assert r * a >= 1.0 * a;
    } else {
      assert r * a <= 1.0 * a;
    }
  }

  /** `x ** 2`. */
  function Sq(x: real): real
  {
    x * x
  }

  /** The square of a non-zero real is positive. */
  lemma SquarePositive(d: real)
    requires d != 0.0
    ensures Sq(d) > 0.0
  {
    var e := if d < 0.0 then -d else d;
    var q := e * e;
    ProductPositive(e, e, q);
    assert Sq(d) == q;
  }

  lemma ProductPositive(a: real, b: real, q: real)
    requires a > 0.0 && b > 0.0 && q == a * b
    ensures q > 0.0
  {
  }

  lemma PositivePlusNonNegative(q: real, r: real)
    requires q > 0.0 && r >= 0.0
    ensures q + r > 0.0
  {
  }
}
