/** Weighted sums and exponential smoothing: the common ground of the moving averages. */
module Weighted {
  import opened Numbers

  function Dot(w: seq<real>, v: seq<real>): real
    requires |w| == |v|
  {
    if w == [] then 0.0 else Dot(w[..|w| - 1], v[..|v| - 1]) + w[|w| - 1] * v[|v| - 1]
  }

  function Scale(w: seq<real>, c: real): (r: seq<real>)
    ensures |r| == |w|
  {
    if w == [] then [] else Scale(w[..|w| - 1], c) + [c * w[|w| - 1]]
  }

  lemma {:induction false} ScaleAt(w: seq<real>, c: real, i: nat)
    requires i < |w|
    ensures Scale(w, c)[i] == c * w[i]
  {
    if i < |w| - 1 {
      ScaleAt(w[..|w| - 1], c, i);
      assert w[..|w| - 1][i] == w[i];
    }
  }

  /** Non-negative weights that add up to one. */
  ghost predicate Convex(w: seq<real>) {
    Sum(w) == 1.0 && forall i :: 0 <= i < |w| ==> w[i] >= 0.0
  }

  lemma {:induction false} DotAppend(w: seq<real>, v: seq<real>, c: real, x: real)
    requires |w| == |v|
    ensures Dot(w + [c], v + [x]) == Dot(w, v) + c * x
    ensures Sum(w + [c]) == Sum(w) + c
  {
  }

  lemma {:induction false} SumScale(w: seq<real>, c: real)
    ensures Sum(Scale(w, c)) == c * Sum(w)
  {
    if w == [] {
    } else {
      var n := |w| - 1;
      SumScale(w[..n], c);
      assert Scale(w, c)[..n] == Scale(w[..n], c);
      Distribute(c, Sum(w[..n]), w[n]);
    }
  }

  lemma {:induction false} DotScale(w: seq<real>, v: seq<real>, c: real)
    requires |w| == |v|
    ensures Dot(Scale(w, c), v) == c * Dot(w, v)
  {
    if w == [] {
    } else {
      var n := |w| - 1;
      DotScale(w[..n], v[..n], c);
      assert Scale(w, c)[..n] == Scale(w[..n], c);
      Spread(c, Dot(w[..n], v[..n]), w[n], v[n]);
    }
  }

  lemma {:induction false} Distribute(c: real, x: real, y: real)
    ensures c * (x + y) == c * x + c * y
  {
  }

  lemma {:induction false} Spread(c: real, d: real, x: real, y: real)
    ensures c * (d + x * y) == c * d + (c * x) * y
  {
  }

  /** A weighted sum with non-negative weights lies between the bounds of its values, scaled by the total weight. */
  lemma {:induction false} DotBounds(w: seq<real>, v: seq<real>, lo: real, hi: real)
    requires |w| == |v| && forall i :: 0 <= i < |w| ==> w[i] >= 0.0
    requires forall i :: 0 <= i < |v| ==> lo <= v[i] <= hi
    ensures Sum(w) * lo <= Dot(w, v) <= Sum(w) * hi
  {
    hide Sum, Dot;
    SplitLast(w, v);
    if w == [] {
    } else {
      var n := |w| - 1;
      DotBounds(w[..n], v[..n], lo, hi);
      BoundStep(Sum(w[..n]), Dot(w[..n], v[..n]), w[n], v[n], lo, hi);
    }
  }

  lemma {:induction false} SplitLast(w: seq<real>, v: seq<real>)
    requires |w| == |v|
    ensures w == [] ==> Dot(w, v) == 0.0 && Sum(w) == 0.0
    ensures w != [] ==> var n := |w| - 1;
      Dot(w, v) == Dot(w[..n], v[..n]) + w[n] * v[n] && Sum(w) == Sum(w[..n]) + w[n]
  {
  }

  lemma {:induction false} BoundStep(total: real, dot: real, c: real, x: real, lo: real, hi: real)
    requires total * lo <= dot <= total * hi && c >= 0.0 && lo <= x <= hi
    ensures (total + c) * lo <= dot + c * x <= (total + c) * hi
  {
  }

  // ----- means

  function Mean(v: seq<real>): real
    requires |v| >= 1
  {
    Sum(v) / |v| as real
  }

  function Equal(n: nat, c: real): (w: seq<real>)
    ensures |w| == n && forall i :: 0 <= i < n ==> w[i] == c
  {
    if n == 0 then [] else Equal(n - 1, c) + [c]
  }

  lemma {:induction false} EqualWeights(v: seq<real>, c: real)
    ensures Dot(Equal(|v|, c), v) == c * Sum(v)
    ensures Sum(Equal(|v|, c)) == c * |v| as real
  {
    hide Dot, Sum;
    if v == [] {
      SplitLast(v, v);
    } else {
      var n := |v| - 1;
      EqualWeights(v[..n], c);
      assert v == v[..n] + [v[n]] && Equal(|v|, c) == Equal(n, c) + [c];
      DotAppend(Equal(n, c), v[..n], c, v[n]);
      SplitLast(v, v);
      Distribute(c, Sum(v[..n]), v[n]);
      Distribute(c, n as real, 1.0);
    }
  }

  /** The mean is the convex combination with equal weights. */
  lemma {:induction false} MeanIsConvex(v: seq<real>)
    requires |v| >= 1
    ensures Convex(Equal(|v|, 1.0 / |v| as real))
    ensures Dot(Equal(|v|, 1.0 / |v| as real), v) == Mean(v)
  {
    hide Sum, Dot, Equal;
    var n := |v| as real;
    EqualWeights(v, 1.0 / n);
    EqualShare(Sum(v), n);
  }

  lemma {:induction false} EqualShare(total: real, n: real)
    requires n > 0.0
    ensures 1.0 / n > 0.0 && (1.0 / n) * n == 1.0 && (1.0 / n) * total == total / n
  {
  }

  lemma {:induction false} MeanZero(xs: seq<real>)
    requires |xs| >= 1 && forall i :: 0 <= i < |xs| ==> xs[i] >= 0.0
    ensures Mean(xs) == 0.0 <==> forall i :: 0 <= i < |xs| ==> xs[i] == 0.0
  {
    SumNonNegative(xs);
    DivTimes(Sum(xs), |xs| as real);
    if forall i :: 0 <= i < |xs| ==> xs[i] == 0.0 {
      SumZero(xs);
      QuotientIs(0.0, |xs| as real, 0.0);
    }
  }

  lemma {:induction false} SumZero(xs: seq<real>)
    requires forall i :: 0 <= i < |xs| ==> xs[i] == 0.0
    ensures Sum(xs) == 0.0
  {
    if xs == [] {
    } else {
      SumZero(xs[..|xs| - 1]);
    }
  }

  // ----- smoothing

  /** One smoothing step towards a value. */
  function Toward(previous: real, value: real, m: real): real {
    (value - previous) * m + previous
  }

  /** Exponential smoothing with factor `m`, started with `seed` at index `start`. */
  function Smooth(values: seq<real>, start: nat, seed: real, m: real, i: nat): real
    requires start <= i < |values|
  {
    if i == start then seed else Toward(Smooth(values, start, seed, m, i - 1), values[i], m)
  }

  /** The weights after `n` more values, when the seed was a combination with weights `w`. */
  function Decay(w: seq<real>, m: real, n: nat): (r: seq<real>)
    ensures |r| == |w| + n
  {
    if n == 0 then w else Scale(Decay(w, m, n - 1), 1.0 - m) + [m]
  }

  lemma {:induction false} TowardIsMix(previous: real, value: real, m: real)
    ensures Toward(previous, value, m) == (1.0 - m) * previous + m * value
  {
  }

  lemma {:induction false} DecayConvex(w: seq<real>, m: real, n: nat)
    requires Convex(w) && 0.0 <= m <= 1.0
    ensures Convex(Decay(w, m, n))
  {
    hide Sum, Scale;
    if n == 0 {
    } else {
      DecayConvex(w, m, n - 1);
      var d := Decay(w, m, n - 1);
      SumScale(d, 1.0 - m);
      ScaleNonNegative(d, 1.0 - m);
      Numbers.SumAppend(Scale(d, 1.0 - m), [m]);
      SumOne(m);
    }
  }

  lemma {:induction false} SumOne(x: real)
    ensures Sum([x]) == x
  {
  }

  lemma {:induction false} ScaleNonNegative(w: seq<real>, c: real)
    requires c >= 0.0 && forall i :: 0 <= i < |w| ==> w[i] >= 0.0
    ensures forall i :: 0 <= i < |w| ==> Scale(w, c)[i] >= 0.0
  {
    forall i | 0 <= i < |w|
      ensures Scale(w, c)[i] >= 0.0
    {
      ScaleAt(w, c, i);
      MulMonotone(0.0, w[i], c);
    }
  }

  /** Smoothing a seed that is a weighted sum gives a weighted sum again. */
  lemma {:induction false} SmoothIsDot(values: seq<real>, start: nat, seed: real, m: real, w: seq<real>, i: nat)
    requires start <= i < |values| && |w| == start + 1
    requires seed == Dot(w, values[..start + 1])
    ensures Smooth(values, start, seed, m, i) == Dot(Decay(w, m, i - start), values[..i + 1])
  {
    hide Dot, Scale, Toward;
    if i == start {
    } else {
      SmoothIsDot(values, start, seed, m, w, i - 1);
      var d, v := Decay(w, m, i - 1 - start), values[..i];
      assert values[..i + 1] == v + [values[i]];
      MixIsDot(d, v, m, values[i]);
    }
  }

  lemma {:induction false} MixIsDot(d: seq<real>, v: seq<real>, m: real, x: real)
    requires |d| == |v|
    ensures Toward(Dot(d, v), x, m) == Dot(Scale(d, 1.0 - m) + [m], v + [x])
  {
    hide *;
    DotScale(d, v, 1.0 - m);
    DotAppend(Scale(d, 1.0 - m), v, m, x);
    TowardIsMix(Dot(d, v), x, m);
  }

  /** Each weight decays geometrically from the moment its value arrives. */
  lemma {:induction false} DecayFormula(w: seq<real>, m: real, n: nat, j: nat)
    requires j < |w| + n
    ensures Decay(w, m, n)[j] ==
      if j < |w| then Power(1.0 - m, n) * w[j] else Power(1.0 - m, n - 1 - (j - |w|)) * m
  {
    hide Decay, Power;
    DecayIsFaded(w, m, n, j);
  }

  /** What is left of a weight after it has been scaled `n` times. */
  function Faded(x: real, n: nat, y: real): real {
    Power(x, n) * y
  }

  lemma {:induction false} DecayIsFaded(w: seq<real>, m: real, n: nat, j: nat)
    requires j < |w| + n
    ensures Decay(w, m, n)[j] == if j < |w| then Faded(1.0 - m, n, w[j]) else Faded(1.0 - m, n - 1 - (j - |w|), m)
  {
    hide Decay, Faded, Shrunk;
    if n == 0 {
      DecayStarts(w, m);
      NotFaded(1.0 - m, w[j]);
    } else if j == |w| + n - 1 {
      DecayStep(w, m, n, j);
      NotFaded(1.0 - m, m);
    } else {
      DecayIsFaded(w, m, n - 1, j);
      DecayStep(w, m, n, j);
      if j < |w| {
        FadedOnceMore(1.0 - m, n - 1, w[j]);
      } else {
        FadedOnceMore(1.0 - m, n - 2 - (j - |w|), m);
      }
    }
  }

  function Shrunk(x: real, y: real): real {
    x * y
  }

  lemma {:induction false} DecayStarts(w: seq<real>, m: real)
    ensures Decay(w, m, 0) == w
  {
  }

  lemma {:induction false} DecayStep(w: seq<real>, m: real, n: nat, j: nat)
    requires n >= 1 && j < |w| + n
    ensures Decay(w, m, n)[j] == if j < |w| + n - 1 then Shrunk(1.0 - m, Decay(w, m, n - 1)[j]) else m
  {
    hide Scale;
    if j < |w| + n - 1 {
      ScaleAt(Decay(w, m, n - 1), 1.0 - m, j);
    }
  }

  lemma {:induction false} NotFaded(x: real, y: real)
    ensures Faded(x, 0, y) == y
  {
  }

  lemma {:induction false} FadedOnceMore(x: real, n: nat, y: real)
    ensures Faded(x, n + 1, y) == Shrunk(x, Faded(x, n, y))
  {
    Associate(x, Power(x, n), y, Faded(x, n, y));
  }

  // ----- linearity

  /** `z` is the combination `a x + b y`, element by element. */
  ghost predicate IsBlend(z: seq<real>, a: real, x: seq<real>, b: real, y: seq<real>) {
    |z| == |x| == |y| && forall i :: 0 <= i < |z| ==> z[i] == a * x[i] + b * y[i]
  }

  lemma {:induction false} SumLinear(z: seq<real>, a: real, x: seq<real>, b: real, y: seq<real>)
    requires IsBlend(z, a, x, b, y)
    ensures Sum(z) == a * Sum(x) + b * Sum(y)
  {
    if z == [] {
    } else {
      var n := |z| - 1;
      SumLinear(z[..n], a, x[..n], b, y[..n]);
      assert Sum(z) == Sum(z[..n]) + z[n] && Sum(x) == Sum(x[..n]) + x[n] && Sum(y) == Sum(y[..n]) + y[n];
      hide Sum;
      Distribute(a, Sum(x[..n]), x[n]);
      Distribute(b, Sum(y[..n]), y[n]);
    }
  }

  lemma {:induction false} MeanLinear(z: seq<real>, a: real, x: seq<real>, b: real, y: seq<real>)
    requires IsBlend(z, a, x, b, y) && |z| >= 1
    ensures Mean(z) == a * Mean(x) + b * Mean(y)
  {
    SumLinear(z, a, x, b, y);
    QuotientLinear(Sum(z), a, Sum(x), b, Sum(y), |z| as real);
  }

  lemma {:induction false} QuotientLinear(z: real, a: real, x: real, b: real, y: real, d: real)
    requires d > 0.0 && z == a * x + b * y
    ensures z / d == a * (x / d) + b * (y / d)
  {
  }

  lemma {:induction false} TowardLinear(a: real, p: real, x: real, b: real, q: real, y: real, m: real)
    ensures Toward(a * p + b * q, a * x + b * y, m) == a * Toward(p, x, m) + b * Toward(q, y, m)
  {
  }

  lemma {:induction false} SmoothLinear(
    z: seq<real>, a: real, x: seq<real>, b: real, y: seq<real>, start: nat, s: real, t: real, u: real, m: real, i: nat)
    requires IsBlend(z, a, x, b, y) && start <= i < |z| && s == a * t + b * u
    ensures Smooth(z, start, s, m, i) == a * Smooth(x, start, t, m, i) + b * Smooth(y, start, u, m, i)
  {
    if i == start {
    } else {
      SmoothLinear(z, a, x, b, y, start, s, t, u, m, i - 1);
      TowardLinear(a, Smooth(x, start, t, m, i - 1), x[i], b, Smooth(y, start, u, m, i - 1), y[i], m);
    }
  }
}
