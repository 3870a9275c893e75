/** Relative strength index with Wilder's smoothing. */
module Rsi {
  import opened Numbers
  import opened Weighted

  /** Price changes that went up, and the sizes of those that went down. */
  function Gains(prices: seq<real>): (g: seq<real>)
    ensures |g| == if |prices| == 0 then 0 else |prices| - 1
    ensures forall i :: 0 <= i < |g| ==> g[i] == Max(0.0, prices[i + 1] - prices[i])
  {
    var n := if |prices| == 0 then 0 else |prices| - 1;
    seq(n, i requires 0 <= i < n => var delta := prices[i + 1] - prices[i]; if delta > 0.0 then delta else 0.0)
  }

  function Losses(prices: seq<real>): (l: seq<real>)
    ensures |l| == if |prices| == 0 then 0 else |prices| - 1
    ensures forall i :: 0 <= i < |l| ==> l[i] == Max(0.0, prices[i] - prices[i + 1])
  {
    var n := if |prices| == 0 then 0 else |prices| - 1;
    seq(n, i requires 0 <= i < n => var delta := prices[i + 1] - prices[i]; if delta < 0.0 then -delta else 0.0)
  }

  function WilderStep(average: real, x: real, period: nat): real
    requires period >= 1
  {
    (average * (period - 1) as real + x) / period as real
  }

  /** Wilder's average of the first `k` changes. */
  function Wilder(xs: seq<real>, period: nat, k: nat): real
    requires 1 <= period <= k <= |xs|
  {
    if k == period then Mean(xs[..period]) else WilderStep(Wilder(xs, period, k - 1), xs[k - 1], period)
  }

  function Index(gain: real, loss: real): real
    requires gain >= 0.0 && loss >= 0.0
  {
    if loss == 0.0 then 100.0
    else
      assert gain / loss >= 0.0 by { QuotientNonNegative(gain, loss); }
      100.0 - 100.0 / (1.0 + gain / loss)
  }

  lemma {:induction false} QuotientNonNegative(x: real, d: real)
    requires x >= 0.0 && d > 0.0
    ensures x / d >= 0.0
  {
  }

  lemma {:induction false} WilderNonNegative(xs: seq<real>, period: nat, k: nat)
    requires 1 <= period <= k <= |xs| && forall i :: 0 <= i < |xs| ==> xs[i] >= 0.0
    ensures Wilder(xs, period, k) >= 0.0
  {
    hide Wilder, WilderStep, Mean;
    if k == period {
      WilderFirst(xs, period);
      MeanNonNegative(xs[..period]);
    } else {
      WilderNonNegative(xs, period, k - 1);
      WilderNext(xs, period, k);
      WilderStepNonNegative(Wilder(xs, period, k - 1), xs[k - 1], period);
    }
  }

  lemma {:induction false} MeanNonNegative(xs: seq<real>)
    requires |xs| >= 1 && forall i :: 0 <= i < |xs| ==> xs[i] >= 0.0
    ensures Mean(xs) >= 0.0
  {
    SumNonNegative(xs);
    QuotientNonNegative(Sum(xs), |xs| as real);
  }

  lemma {:induction false} WilderStepNonNegative(average: real, x: real, period: nat)
    requires average >= 0.0 && x >= 0.0 && period >= 1
    ensures WilderStep(average, x, period) >= 0.0
  {
    MulMonotone(0.0, average, (period - 1) as real);
    QuotientNonNegative(average * (period - 1) as real + x, period as real);
  }

  function RsiAt(prices: seq<real>, period: nat, i: nat): real
    requires 1 <= period <= i < |prices|
  {
    WilderNonNegative(Gains(prices), period, i);
    WilderNonNegative(Losses(prices), period, i);
    Index(Wilder(Gains(prices), period, i), Wilder(Losses(prices), period, i))
  }

  function RsiSeries(prices: seq<real>, period: nat): (r: seq<Option<real>>)
    requires period >= 1
    ensures |r| == |prices|
    ensures forall i :: 0 <= i < |prices| ==> r[i] == if i < period then None else Some(RsiAt(prices, period, i))
  {
    seq(|prices|, i requires 0 <= i < |prices| => if i < period then None else Some(RsiAt(prices, period, i)))
  }

  method CalculateRsi(prices: seq<real>, period: nat) returns (rsi: array<Option<real>>)
    requires period >= 1
    ensures fresh(rsi) && rsi[..] == RsiSeries(prices, period)
  {
    hide RsiAt, Wilder, WilderStep, Mean;
    var n := |prices|;
    ghost var series := RsiSeries(prices, period);
    rsi := new Option<real>[n](_ => None);
    if n <= period {
      return;
    }
    var gains, losses := Gains(prices), Losses(prices);
    var avgGain := Mean(gains[..period]);
    var avgLoss := Mean(losses[..period]);
    WilderFirst(gains, period);
    WilderFirst(losses, period);
    var first := RsiValue(prices, period, period, avgGain, avgLoss);
    rsi[period] := Some(first);
    for i := period + 1 to n
      invariant avgGain == Wilder(gains, period, i - 1) && avgLoss == Wilder(losses, period, i - 1)
      invariant forall j :: 0 <= j < i ==> rsi[j] == series[j]
    {
      WilderNext(gains, period, i);
      WilderNext(losses, period, i);
      avgGain := WilderStep(avgGain, gains[i - 1], period);
      avgLoss := WilderStep(avgLoss, losses[i - 1], period);
      var value := RsiValue(prices, period, i, avgGain, avgLoss);
      rsi[i] := Some(value);
    }
  }

  lemma {:induction false} WilderFirst(xs: seq<real>, period: nat)
    requires 1 <= period <= |xs|
    ensures Wilder(xs, period, period) == Mean(xs[..period])
  {
  }

  lemma {:induction false} WilderNext(xs: seq<real>, period: nat, k: nat)
    requires 1 <= period < k <= |xs|
    ensures Wilder(xs, period, k) == WilderStep(Wilder(xs, period, k - 1), xs[k - 1], period)
  {
  }

  /** `100 - 100 / (1 + avg_gain / avg_loss)`, or 100 when there was no loss. */
  method RsiValue(prices: seq<real>, period: nat, i: nat, avgGain: real, avgLoss: real) returns (value: real)
    requires 1 <= period <= i < |prices|
    requires avgGain == Wilder(Gains(prices), period, i) && avgLoss == Wilder(Losses(prices), period, i)
    ensures value == RsiAt(prices, period, i)
  {
    hide Wilder;
    WilderNonNegative(Gains(prices), period, i);
    WilderNonNegative(Losses(prices), period, i);
    value := Index(avgGain, avgLoss);
  }

  // ----- bounds

  /** When anything moved, the index is the gains' share of all movement. */
  lemma {:induction false} IndexIsShare(gain: real, loss: real)
    requires gain >= 0.0 && loss >= 0.0 && gain + loss > 0.0
    ensures Index(gain, loss) == 100.0 * gain / (gain + loss)
  {
  }

  /** The two shares of the movement add up to the whole. */
  lemma {:induction false} Complement(gain: real, loss: real)
    requires gain + loss > 0.0
    ensures 100.0 * gain / (gain + loss) == 100.0 - 100.0 * loss / (gain + loss)
  {
    var total := gain + loss;
    var q := 100.0 * loss / total;
    assert q * total == 100.0 * loss;
    assert (100.0 - q) * total == 100.0 * total - q * total;
    QuotientIs(100.0 * gain, total, 100.0 - q);
  }

  /** Every defined RSI lies between 0 and 100. */
  lemma {:induction false} RsiBounds(prices: seq<real>, period: nat, i: nat)
    requires 1 <= period <= i < |prices|
    ensures 0.0 <= RsiAt(prices, period, i) <= 100.0
  {
    var gain, loss := Wilder(Gains(prices), period, i), Wilder(Losses(prices), period, i);
    WilderNonNegative(Gains(prices), period, i);
    WilderNonNegative(Losses(prices), period, i);
    if loss > 0.0 {
      QuotientNonNegative(gain, loss);
      var q := 100.0 / (1.0 + gain / loss);
      assert q * (1.0 + gain / loss) == 100.0;
      QuotientNonNegative(100.0, 1.0 + gain / loss);
      MulMonotone(0.0, gain / loss, q);
    }
  }

  // ----- reflection

  function Negated(prices: seq<real>): (r: seq<real>)
    ensures |r| == |prices| && forall i :: 0 <= i < |prices| ==> r[i] == -prices[i]
  {
    seq(|prices|, i requires 0 <= i < |prices| => -prices[i])
  }

  /** Negating the prices swaps gains and losses. */
  lemma {:induction false} NegationSwaps(prices: seq<real>)
    ensures Gains(Negated(prices)) == Losses(prices)
    ensures Losses(Negated(prices)) == Gains(prices)
  {
  }

  /**
   RSI reflection: negating the series swaps the two averages, so the two indices add up to 100,
   unless both averages are zero, when both indices are 100.
   */
  lemma {:induction false} RsiReflection(prices: seq<real>, period: nat, i: nat)
    requires 1 <= period <= i < |prices|
    ensures RsiAt(prices, period, i) + RsiAt(Negated(prices), period, i) ==
      if Wilder(Gains(prices), period, i) + Wilder(Losses(prices), period, i) > 0.0 then 100.0 else 200.0
  {
    var gain, loss := Wilder(Gains(prices), period, i), Wilder(Losses(prices), period, i);
    NegationSwaps(prices);
    WilderNonNegative(Gains(prices), period, i);
    WilderNonNegative(Losses(prices), period, i);
    if gain + loss > 0.0 {
      IndexIsShare(gain, loss);
      IndexIsShare(loss, gain);
      Complement(gain, loss);
    }
  }

  /** From period 2 on, an average forgets nothing: it is zero exactly when every change so far was. */
  lemma {:induction false} WilderZero(xs: seq<real>, period: nat, k: nat)
    requires 2 <= period <= k <= |xs| && forall i :: 0 <= i < |xs| ==> xs[i] >= 0.0
    ensures Wilder(xs, period, k) == 0.0 <==> forall i :: 0 <= i < k ==> xs[i] == 0.0
  {
    hide WilderStep, Mean;
    if k == period {
      MeanZero(xs[..period]);
      assert (forall i :: 0 <= i < k ==> xs[i] == 0.0) <==> (forall i :: 0 <= i < k ==> xs[..period][i] == 0.0);
    } else {
      WilderZero(xs, period, k - 1);
      WilderNonNegative(xs, period, k - 1);
      WilderStepZero(Wilder(xs, period, k - 1), xs[k - 1], period);
    }
  }

  lemma {:induction false} WilderStepZero(average: real, x: real, period: nat)
    requires average >= 0.0 && x >= 0.0 && period >= 2
    ensures WilderStep(average, x, period) == 0.0 <==> average == 0.0 && x == 0.0
  {
  }

  /** With period 1 the average is the latest change: it forgets everything before. */
  lemma {:induction false} WilderOne(xs: seq<real>, k: nat)
    requires 1 <= k <= |xs|
    ensures Wilder(xs, 1, k) == xs[k - 1]
  {
    if k == 1 {
      assert xs[..1] == [xs[0]];
      SumOne(xs[0]);
    }
  }

  /** The price has moved in the changes that the averages at `i` remember: all of them, or with period 1 the last. */
  ghost predicate Moved(prices: seq<real>, period: nat, i: nat)
    requires 1 <= i < |prices|
  {
    if period == 1 then prices[i - 1] != prices[i] else exists j :: 0 <= j < i && prices[j] != prices[j + 1]
  }

  /** So the reflection law holds exactly where the price has moved within the averages' memory. */
  lemma {:induction false} ReflectionIffMoved(prices: seq<real>, period: nat, i: nat)
    requires 1 <= period <= i < |prices|
    ensures RsiAt(prices, period, i) + RsiAt(Negated(prices), period, i) == 100.0 <==> Moved(prices, period, i)
  {
    hide RsiAt;
    RsiReflection(prices, period, i);
    if period == 1 {
      WilderOne(Gains(prices), i);
      WilderOne(Losses(prices), i);
    } else {
      AveragesZeroIffStill(prices, period, i);
    }
  }

  lemma {:induction false} AveragesZeroIffStill(prices: seq<real>, period: nat, i: nat)
    requires 2 <= period <= i < |prices|
    ensures Wilder(Gains(prices), period, i) + Wilder(Losses(prices), period, i) > 0.0 <==> Moved(prices, period, i)
  {
    WilderZero(Gains(prices), period, i);
    WilderZero(Losses(prices), period, i);
    WilderNonNegative(Gains(prices), period, i);
    WilderNonNegative(Losses(prices), period, i);
    hide Wilder;
    assert forall j :: 0 <= j < i ==>
      (Gains(prices)[j] == 0.0 && Losses(prices)[j] == 0.0 <==> prices[j] == prices[j + 1]);
  }

  // ----- what the averages and the index say about the prices

  /** The weights of the changes in Wilder's average: exponential smoothing with factor 1 / period. */
  function WilderWeights(period: nat, k: nat): (w: seq<real>)
    requires 1 <= period <= k
    ensures |w| == k
  {
    Decay(Equal(period, 1.0 / period as real), 1.0 / period as real, k - period)
  }

  lemma {:induction false} WilderIsToward(average: real, x: real, period: nat)
    requires period >= 1
    ensures WilderStep(average, x, period) == Toward(average, x, 1.0 / period as real)
  {
    var n := period as real;
    var m := 1.0 / n;
    DivTimes(1.0, n);
    var q := (x - average) * m + average;
    Associate(x - average, m, n, 1.0);
    assert q * n == ((x - average) * m) * n + average * n;
    assert average * (n - 1.0) == average * n - average;
    QuotientIs(average * (period - 1) as real + x, n, q);
  }

  lemma {:induction false} WilderIsSmooth(xs: seq<real>, period: nat, k: nat)
    requires 1 <= period <= k <= |xs|
    ensures Wilder(xs, period, k) == Smooth(xs, period - 1, Mean(xs[..period]), 1.0 / period as real, k - 1)
  {
    hide WilderStep, Toward, Mean;
    if k == period {
    } else {
      WilderIsSmooth(xs, period, k - 1);
      WilderIsToward(Wilder(xs, period, k - 1), xs[k - 1], period);
    }
  }

  /** Wilder's average of the first `k` changes is a convex combination of them. */
  lemma {:induction false} WilderIsWeightedSum(xs: seq<real>, period: nat, k: nat)
    requires 1 <= period <= k <= |xs|
    ensures Convex(WilderWeights(period, k))
    ensures Wilder(xs, period, k) == Dot(WilderWeights(period, k), xs[..k])
  {
    hide Wilder, Smooth, Dot, Decay, Equal, Mean, Convex;
    var n := period as real;
    EqualShare(1.0, n);
    ShareAtMostOne(period);
    WilderIsSmooth(xs, period, k);
    MeanIsConvex(xs[..period]);
    DecayConvex(Equal(period, 1.0 / n), 1.0 / n, k - period);
    SmoothIsDot(xs, period - 1, Mean(xs[..period]), 1.0 / n, Equal(period, 1.0 / n), k - 1);
  }

  lemma {:induction false} ShareAtMostOne(period: nat)
    requires period >= 1
    ensures 0.0 <= 1.0 / period as real <= 1.0
  {
  }

  /** An equal share of the seed for the first `period` changes, then 1 / period, each decaying by 1 - 1 / period. */
  lemma {:induction false} WilderWeightFormula(period: nat, k: nat, j: nat)
    requires 1 <= period <= k && j < k
    ensures var m := 1.0 / period as real;
      WilderWeights(period, k)[j] == Power(1.0 - m, if j < period then k - period else k - 1 - j) * m
  {
    hide Decay, Power;
    DecayFormula(Equal(period, 1.0 / period as real), 1.0 / period as real, k - period, j);
  }

  /** The changes that the averages at `i` remember: all of them, or with period 1 the last. */
  predicate Remembered(period: nat, i: nat, j: int) {
    0 <= j < i && (period == 1 ==> j == i - 1)
  }

  /** RSI is 100 exactly when no remembered price fell, and 0 exactly when none rose but some fell. */
  lemma {:induction false} RsiExtremes(prices: seq<real>, period: nat, i: nat)
    requires 1 <= period <= i < |prices|
    ensures RsiAt(prices, period, i) == 100.0 <==>
      forall j :: Remembered(period, i, j) ==> prices[j] <= prices[j + 1]
    ensures RsiAt(prices, period, i) == 0.0 <==>
      && (forall j :: Remembered(period, i, j) ==> prices[j + 1] <= prices[j])
      && (exists j :: Remembered(period, i, j) && prices[j + 1] < prices[j])
  {
    hide Index, Wilder;
    var gain, loss := Wilder(Gains(prices), period, i), Wilder(Losses(prices), period, i);
    WilderNonNegative(Gains(prices), period, i);
    WilderNonNegative(Losses(prices), period, i);
    IndexExtremes(gain, loss);
    NoMovement(Gains(prices), period, i);
    NoMovement(Losses(prices), period, i);
    GainsAndLosses(prices, period, i);
  }

  lemma {:induction false} IndexExtremes(gain: real, loss: real)
    requires gain >= 0.0 && loss >= 0.0
    ensures Index(gain, loss) == 100.0 <==> loss == 0.0
    ensures Index(gain, loss) == 0.0 <==> gain == 0.0 && loss > 0.0
  {
    if loss > 0.0 {
      var q := gain / loss;
      QuotientNonNegative(gain, loss);
      DivTimes(gain, loss);
      var r := 100.0 / (1.0 + q);
      DivTimes(100.0, 1.0 + q);
      assert r > 0.0;
      if gain == 0.0 {
        QuotientIs(0.0, loss, 0.0);
      } else {
        assert q > 0.0;
        MulStrict(1.0, 1.0 + q, r);
      }
    }
  }

  lemma {:induction false} NoMovement(xs: seq<real>, period: nat, i: nat)
    requires 1 <= period <= i <= |xs| && forall j :: 0 <= j < |xs| ==> xs[j] >= 0.0
    ensures Wilder(xs, period, i) == 0.0 <==> forall j :: Remembered(period, i, j) ==> xs[j] == 0.0
  {
    if period == 1 {
      WilderOne(xs, i);
      assert Remembered(period, i, i - 1);
    } else {
      WilderZero(xs, period, i);
      assert forall j :: 0 <= j < i ==> Remembered(period, i, j);
    }
  }

  lemma {:induction false} GainsAndLosses(prices: seq<real>, period: nat, i: nat)
    requires 1 <= period <= i < |prices|
    ensures forall j :: Remembered(period, i, j) ==> (Gains(prices)[j] == 0.0 <==> prices[j + 1] <= prices[j])
    ensures forall j :: Remembered(period, i, j) ==> (Losses(prices)[j] == 0.0 <==> prices[j] <= prices[j + 1])
  {
  }
}
