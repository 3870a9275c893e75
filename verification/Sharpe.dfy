/**
 The Sharpe ratio of a list of returns. Square roots are irrational in general, so the deviation and
 the square root of 252 are parameters: any real numbers with the right squares.
 */
module Sharpe {
  import opened Numbers
  import opened Weighted

  function Square(x: real): real {
    x * x
  }

  function Squares(xs: seq<real>, center: real): (r: seq<real>)
    ensures |r| == |xs| && forall i :: 0 <= i < |xs| ==> r[i] == Square(xs[i] - center)
  {
    seq(|xs|, i requires 0 <= i < |xs| => Square(xs[i] - center))
  }

  /** The population variance. */
  function Variance(xs: seq<real>): real
    requires xs != []
  {
    Mean(Squares(xs, Mean(xs)))
  }

  /** What `np.std` answers; without returns the engine takes zero. */
  predicate IsDeviation(d: real, xs: seq<real>) {
    if xs == [] then d == 0.0 else d >= 0.0 && Square(d) == Variance(xs)
  }

  predicate IsAnnualFactor(r: real) {
    r > 0.0 && Square(r) == 252.0
  }

  function Average(xs: seq<real>): real {
    if xs == [] then 0.0 else Mean(xs)
  }

  function SharpeRatio(xs: seq<real>, deviation: real, annual: real): real {
    if deviation > 0.0 then Average(xs) / deviation * annual else 0.0
  }

  // ----- the parameters leave no choice

  lemma {:induction false} RootUnique(x: real, y: real)
    requires x >= 0.0 && y >= 0.0 && Square(x) == Square(y)
    ensures x == y
  {
    hide Square;
    if x < y {
      SquareStrict(x, y);
    } else if y < x {
      SquareStrict(y, x);
    }
  }

  lemma {:induction false} SquareStrict(x: real, y: real)
    requires 0.0 <= x < y
    ensures Square(x) < Square(y)
  {
    hide Square;
    PositiveProduct(y - x, y + x, Square(y) - Square(x)) by {
      DifferenceOfSquares(x, y);
    }
  }

  lemma {:induction false} PositiveProduct(x: real, y: real, product: real)
    requires x > 0.0 && y > 0.0 && product == x * y
    ensures product > 0.0
  {
  }

  lemma {:induction false} DifferenceOfSquares(x: real, y: real)
    ensures Square(y) - Square(x) == (y - x) * (y + x)
    ensures Square(-x) == Square(x) && Square(0.0) == 0.0
  {
  }

  /** The reported ratio is determined by the returns alone. */
  lemma {:induction false} SharpeUnique(xs: seq<real>, d: real, e: real, r: real, s: real)
    requires IsDeviation(d, xs) && IsDeviation(e, xs) && IsAnnualFactor(r) && IsAnnualFactor(s)
    ensures SharpeRatio(xs, d, r) == SharpeRatio(xs, e, s)
  {
    hide Square, Variance;
    RootUnique(r, s);
    if xs != [] {
      RootUnique(d, e);
    }
  }

  // ----- what the ratio means

  /** Its square times the variance is 252 times the squared mean, and its sign is that of the mean. */
  lemma {:induction false} SharpeSquared(xs: seq<real>, d: real, annual: real)
    requires xs != [] && IsDeviation(d, xs) && IsAnnualFactor(annual) && d > 0.0
    ensures Square(SharpeRatio(xs, d, annual)) * Variance(xs) == 252.0 * Square(Mean(xs))
    ensures SharpeRatio(xs, d, annual) > 0.0 <==> Mean(xs) > 0.0
  {
    hide Variance, Mean;
    var q := Mean(xs) / d;
    DivTimes(Mean(xs), d);
    SquareOfProduct(q, annual);
    SquareOfProduct(q, d);
    Rearrange(Square(q), Square(annual), Square(d));
    if Mean(xs) > 0.0 {
      if q <= 0.0 {
        MulMonotone(q, 0.0, d);
      }
      MulStrict(0.0, q, annual);
    } else {
      if q > 0.0 {
        MulStrict(0.0, q, d);
      }
      MulMonotone(q, 0.0, annual);
    }
  }

  lemma {:induction false} SquareOfProduct(x: real, y: real)
    ensures Square(x * y) == Square(x) * Square(y)
  {
  }

  lemma {:induction false} Rearrange(x: real, y: real, z: real)
    ensures (x * y) * z == y * (x * z)
  {
  }

  lemma {:induction false} SquareNonNegative(x: real)
    ensures Square(x) >= 0.0
    ensures Square(x) == 0.0 <==> x == 0.0
  {
    hide Square;
    DifferenceOfSquares(x, 0.0);
    if x > 0.0 {
      SquareStrict(0.0, x);
    } else if x < 0.0 {
      SquareStrict(0.0, -x);
    }
  }

  /** The deviation vanishes, and with it the reported ratio, exactly when every return equals the mean. */
  lemma {:induction false} FlatReturns(xs: seq<real>, d: real)
    requires xs != [] && IsDeviation(d, xs)
    ensures d == 0.0 <==> forall i :: 0 <= i < |xs| ==> xs[i] == Mean(xs)
  {
    hide Square, Mean;
    var squares := Squares(xs, Mean(xs));
    forall i | 0 <= i < |xs|
      ensures squares[i] >= 0.0 && (squares[i] == 0.0 <==> xs[i] == Mean(xs))
    {
      SquareNonNegative(xs[i] - Mean(xs));
    }
    MeanZero(squares);
    SquareNonNegative(d);
  }

  // ----- leverage

  ghost predicate IsMultiple(ys: seq<real>, c: real, xs: seq<real>) {
    |ys| == |xs| && forall i :: 0 <= i < |xs| ==> ys[i] == c * xs[i]
  }

  lemma {:induction false} MeanOfMultiple(ys: seq<real>, c: real, xs: seq<real>)
    requires IsMultiple(ys, c, xs) && xs != []
    ensures Mean(ys) == c * Mean(xs)
  {
    hide Mean;
    assert IsBlend(ys, c, xs, 0.0, xs);
    MeanLinear(ys, c, xs, 0.0, xs);
  }

  lemma {:induction false} VarianceOfMultiple(ys: seq<real>, c: real, xs: seq<real>)
    requires IsMultiple(ys, c, xs) && xs != []
    ensures Variance(ys) == Square(c) * Variance(xs)
  {
    hide Square, Mean;
    MeanOfMultiple(ys, c, xs);
    var squares, squares' := Squares(xs, Mean(xs)), Squares(ys, Mean(ys));
    forall i | 0 <= i < |xs|
      ensures squares'[i] == Square(c) * squares[i]
    {
      SquareOfMultiple(c, xs[i], Mean(xs), ys[i], Mean(ys));
    }
    MeanOfMultiple(squares', Square(c), squares);
  }

  lemma {:induction false} SquareOfMultiple(c: real, x: real, m: real, cx: real, cm: real)
    requires cx == c * x && cm == c * m
    ensures Square(cx - cm) == Square(c) * Square(x - m)
  {
    assert cx - cm == c * (x - m);
    SquareOfProduct(c, x - m);
  }

  /** Leverage does not change the ratio: multiplying all returns by a positive factor leaves it the same. */
  lemma {:induction false} SharpeScaleFree(xs: seq<real>, ys: seq<real>, c: real, d: real, e: real, annual: real)
    requires xs != [] && c > 0.0 && IsMultiple(ys, c, xs) && IsDeviation(d, xs) && IsDeviation(e, ys)
    ensures SharpeRatio(ys, e, annual) == SharpeRatio(xs, d, annual)
  {
    hide Square, Mean, Variance;
    MeanOfMultiple(ys, c, xs);
    VarianceOfMultiple(ys, c, xs);
    SquareOfProduct(c, d);
    MulMonotone(0.0, d, c);
    RootUnique(e, c * d);
    if d > 0.0 {
      MulStrict(0.0, d, c);
      CancelFactor(Mean(xs), d, c);
    }
  }

  lemma {:induction false} CancelFactor(x: real, d: real, c: real)
    requires d != 0.0 && c != 0.0 && c * d != 0.0
    ensures (c * x) / (c * d) == x / d
  {
    var q := x / d;
    DivTimes(x, d);
    Rearrange(q, c, d);
    QuotientIs(c * x, c * d, q);
  }
}
