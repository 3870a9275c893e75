/**
 Exact counterparts of the numeric built-ins the engine relies on: optional
 values (a NumPy NaN or a Python None becomes `None`), absolute value, and
 Python's `round(x, d)`, which rounds half to even.
 */
module Numbers {

  datatype Option<+T> = None | Some(value: T)

  function Abs(x: real): real {
    if x < 0.0 then -x else x
  }

  function Max(x: real, y: real): real {
    if x < y then y else x
  }

  function Min(x: real, y: real): real {
    if y < x then y else x
  }

  /** The nearest integer; of two nearest integers, the even one. */
  function RoundHalfEven(y: real): (k: int)
    ensures -0.5 <= y - k as real <= 0.5
    ensures y - k as real == 0.5 || y - k as real == -0.5 ==> k % 2 == 0
  {
    var below := y.Floor;
    var rest := y - below as real;
    if rest < 0.5 then below
    else if rest > 0.5 then below + 1
    else if below % 2 == 0 then below
    else below + 1
  }

  /** The contract of RoundHalfEven leaves exactly one answer. */
  lemma {:induction false} RoundHalfEvenUnique(y: real, k: int)
    requires -0.5 <= y - k as real <= 0.5
    requires y - k as real == 0.5 || y - k as real == -0.5 ==> k % 2 == 0
    ensures k == RoundHalfEven(y)
  {
  }

  function Round2(x: real): real {
    RoundHalfEven(x * 100.0) as real / 100.0
  }

  function Round4(x: real): real {
    RoundHalfEven(x * 10000.0) as real / 10000.0
  }

  /** Rounding to four decimals moves a value by at most half a unit in the fourth place. */
  lemma {:induction false} Round4Close(x: real)
    ensures -0.00005 <= Round4(x) - x <= 0.00005
  {
  }

  lemma {:induction false} Round2Close(x: real)
    ensures -0.005 <= Round2(x) - x <= 0.005
  {
  }

  /** Rounding never crosses zero: a non-negative value stays non-negative. */
  lemma {:induction false} Round4NonNegative(x: real)
    requires x >= 0.0
    ensures Round4(x) >= 0.0
  {
  }

  /**
   A value that does not round to zero less than doubles. The tie rule is what makes
   this strict: 0.00005 rounds to the even neighbour 0, not up to 0.0001.
   */
  lemma {:induction false} Round4LessThanDoubles(x: real)
    requires Round4(x) > 0.0
    ensures x > 0.00005
    ensures Round4(x) < 2.0 * x
  {
  }

  /** A number of ticks that half-even rounding does not raise. */
  predicate RoundsDown(y: real) {
    var rest := y - y.Floor as real;
    rest < 0.5 || (rest == 0.5 && y.Floor % 2 == 0)
  }

  lemma {:induction false} Round4DownIff(x: real)
    ensures Round4(x) <= x <==> RoundsDown(x * 10000.0)
  {
    var y := x * 10000.0;
    var k := RoundHalfEven(y);
    assert k as real <= y <==> RoundsDown(y);
  }

  /** Rounding is monotone. */
  lemma {:induction false} Round4Monotone(x: real, y: real)
    requires x <= y
    ensures Round4(x) <= Round4(y)
  {
    var u, v := x * 10000.0, y * 10000.0;
    var j, k := RoundHalfEven(u), RoundHalfEven(v);
    assert u <= v;
    assert j <= k;
  }

  function Power(x: real, n: nat): real {
    if n == 0 then 1.0 else x * Power(x, n - 1)
  }

  function Sum(xs: seq<real>): real {
    if xs == [] then 0.0 else Sum(xs[..|xs| - 1]) + xs[|xs| - 1]
  }

  lemma {:induction false} SumOfNone(xs: seq<real>)
    requires xs == []
    ensures Sum(xs) == 0.0
  {
  }

  lemma {:induction false} SumSplit(xs: seq<real>)
    requires xs != []
    ensures Sum(xs) == Sum(xs[..|xs| - 1]) + xs[|xs| - 1]
  {
  }

  lemma {:induction false} SumAppend(xs: seq<real>, ys: seq<real>)
    ensures Sum(xs + ys) == Sum(xs) + Sum(ys)
  {
    if ys == [] {
      assert xs + ys == xs;
    } else {
      var front := ys[..|ys| - 1];
      assert (xs + ys)[..|xs + ys| - 1] == xs + front;
      SumAppend(xs, front);
    }
  }

  lemma {:induction false} SumNonNegative(xs: seq<real>)
    requires forall i :: 0 <= i < |xs| ==> xs[i] >= 0.0
    ensures Sum(xs) >= 0.0
    ensures forall i :: 0 <= i < |xs| ==> xs[i] <= Sum(xs)
  {
    if xs == [] {
    } else {
      SumNonNegative(xs[..|xs| - 1]);
      forall i | 0 <= i < |xs|
        ensures xs[i] <= Sum(xs)
      {
        if i < |xs| - 1 {
          assert xs[i] == xs[..|xs| - 1][i];
        }
      }
    }
  }

  /** Changing one entry of a sequence changes its sum by the same amount. */
  lemma {:induction false} SumUpdate(xs: seq<real>, i: nat, v: real)
    requires i < |xs|
    ensures Sum(xs[i := v]) == Sum(xs) - xs[i] + v
  {
    var ys := xs[i := v];
    if i == |xs| - 1 {
      assert ys[..|ys| - 1] == xs[..|xs| - 1];
    } else {
      assert ys[..|ys| - 1] == xs[..|xs| - 1][i := v];
      SumUpdate(xs[..|xs| - 1], i, v);
    }
  }

  // ----- products and quotients of reals

  lemma {:induction false} MulMonotone(a: real, b: real, c: real)
    requires a <= b && c >= 0.0
    ensures a * c <= b * c
  {
  }

  lemma {:induction false} Associate(x: real, y: real, z: real, yz: real)
    requires yz == y * z
    ensures (x * y) * z == x * yz
  {
  }

  lemma {:induction false} MulStrict(a: real, b: real, c: real)
    requires a < b && c > 0.0
    ensures a * c < b * c
  {
  }

  /** A quotient is determined by its product with the divisor. */
  lemma {:induction false} QuotientIs(x: real, d: real, q: real)
    requires d != 0.0 && q * d == x
    ensures x / d == q
  {
  }

  lemma {:induction false} DivTimes(x: real, d: real)
    requires d != 0.0
    ensures x / d * d == x
  {
  }

  lemma {:induction false} DivMonotone(x: real, y: real, d: real)
    requires x <= y && d > 0.0
    ensures x / d <= y / d
  {
  }

  /** A quotient lies between the bounds that hold for its numerator. */
  lemma {:induction false} QuotientBetween(lo: real, x: real, hi: real, d: real)
    requires d > 0.0 && lo * d <= x <= hi * d
    ensures lo <= x / d <= hi
  {
    var q := x / d;
    DivTimes(x, d);
    if q < lo {
      MulStrict(q, lo, d);
    } else if q > hi {
      MulStrict(hi, q, d);
    }
  }

  /** A quantity rounded to four decimals is worth its price times half a tick more or less. */
  lemma {:induction false} TickValue(exact: real, rounded: real, price: real, value: real)
    requires price > 0.0 && exact * price == value && -0.00005 <= rounded - exact <= 0.00005
    ensures value - 0.00005 * price <= rounded * price <= value + 0.00005 * price
  {
    var tick := 0.00005;
    MulMonotone(rounded, exact + tick, price);
    MulMonotone(exact - tick, rounded, price);
    assert (exact + tick) * price == exact * price + tick * price;
    assert (exact - tick) * price == exact * price - tick * price;
  }

  /** `(x - y) / x` is `1 - y / x`. */
  lemma {:induction false} DivComplement(x: real, y: real)
    requires x != 0.0
    ensures (x - y) / x == 1.0 - y / x
  {
    var q := y / x;
    assert (1.0 - q) * x == x - q * x;
    QuotientIs(x - y, x, 1.0 - q);
  }
}
