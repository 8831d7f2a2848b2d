/** The `Polynomial` objective of pso.py: the squared distance to a chosen
    minimum, `np.sum((args - minimum) ** 2)`. */
module PsoObjective {
  import opened Vectors

  /** The sum over components of `(a[k] - m[k]) ** 2`. */
  function SumSquaredDiff(a: Vector, m: Vector): (r: real)
    requires |a| == |m|
    ensures r >= 0.0
    decreases |a|
  {
    if a == [] then 0.0 else Sq(a[0] - m[0]) + SumSquaredDiff(a[1..], m[1..])
  }

  /** A sum of squares vanishes exactly when every term does. */
  lemma {:induction false} SumSquaredDiffZero(a: Vector, m: Vector)
    requires |a| == |m|
    ensures SumSquaredDiff(a, m) == 0.0 <==> a == m
    decreases |a|
  {
    if a != [] {
      SumSquaredDiffZero(a[1..], m[1..]);
      var d := a[0] - m[0];
      if d != 0.0 {
        SquarePositive(d);
        PositivePlusNonNegative(Sq(d), SumSquaredDiff(a[1..], m[1..]));
      } else {
        assert a == [a[0]] + a[1..] && m == [m[0]] + m[1..];
      }
    }
  }

  /** `Polynomial(n_dims, minimum)`: a `Function` of `n_dims` arguments. */
  datatype Polynomial = Polynomial(nDims: nat, minimum: Vector)
  {
    /** `__call__`. */
    function Call(args: Vector): (y: real)
      requires |args| == |minimum|
    {
      SumSquaredDiff(args, minimum)
    }
  }

  /** The objective is non-negative and reaches 0 exactly at `minimum`, so
      `minimum` is its unique global minimiser. */
  lemma PolynomialMinimum(p: Polynomial, args: Vector)
    requires |args| == |p.minimum|
    ensures p.Call(args) >= 0.0
    ensures p.Call(args) == 0.0 <==> args == p.minimum
    ensures p.Call(p.minimum) <= p.Call(args)
  {
    SumSquaredDiffZero(args, p.minimum);
    SumSquaredDiffZero(p.minimum, p.minimum);
  }
}
