/** Exponential moving average and the indicators built on it: MACD and ATR. */
module MovingAverages {
  import opened MarketData
  import opened Numbers
  import opened Weighted

  function Multiplier(period: nat): real {
    2.0 / (period + 1) as real
  }

  /** The EMA at index `i`, seeded with the mean of the first `period` values. */
  function Ema(values: seq<real>, period: nat, i: nat): real
    requires period >= 1 && period - 1 <= i < |values|
  {
    Smooth(values, period - 1, Mean(values[..period]), Multiplier(period), i)
  }

  /** The whole array; NaN (here None) before the seed, and everywhere when the series is too short. */
  function EmaSeries(values: seq<real>, period: nat): (r: seq<Option<real>>)
    requires period >= 1
    ensures |r| == |values|
    ensures forall i :: 0 <= i < |values| ==> (r[i].Some? <==> i >= period - 1)
    ensures forall i :: period - 1 <= i < |values| ==> r[i] == Some(Ema(values, period, i))
  {
    seq(|values|, i requires 0 <= i < |values| => if i < period - 1 then None else Some(Ema(values, period, i)))
  }

  method CalculateEma(values: seq<real>, period: nat) returns (ema: array<Option<real>>)
    requires period >= 1
    ensures fresh(ema) && ema[..] == EmaSeries(values, period)
  {
    var n := |values|;
    ema := new Option<real>[n](_ => None);
    if n < period {
      return;
    }
    var last := Mean(values[..period]);
    ema[period - 1] := Some(last);
    var multiplier := Multiplier(period);
    for i := period to n
      invariant last == Ema(values, period, i - 1)
      invariant forall j :: 0 <= j < n ==>
        ema[j] == if period - 1 <= j < i then Some(Ema(values, period, j)) else None
    {
      last := Toward(last, values[i], multiplier);
      ema[i] := Some(last);
    }
  }

  // ----- closed form

  /** The weight each of the values 0..i has in the EMA at `i`. */
  function EmaWeights(period: nat, i: nat): (w: seq<real>)
    requires period >= 1 && i >= period - 1
    ensures |w| == i + 1
  {
    Decay(Equal(period, 1.0 / period as real), Multiplier(period), i - (period - 1))
  }

  lemma {:induction false} MultiplierInRange(period: nat)
    requires period >= 1
    ensures 0.0 < Multiplier(period) <= 1.0
  {
  }

  /** EMA closed form: every defined value is a convex combination of the values so far. */
  lemma {:induction false} EmaIsWeightedSum(values: seq<real>, period: nat, i: nat)
    requires period >= 1 && period - 1 <= i < |values|
    ensures Convex(EmaWeights(period, i))
    ensures Ema(values, period, i) == Dot(EmaWeights(period, i), values[..i + 1])
  {
    var m, w := Multiplier(period), Equal(period, 1.0 / period as real);
    MultiplierInRange(period);
    MeanIsConvex(values[..period]);
    DecayConvex(w, m, i - (period - 1));
    SmoothIsDot(values, period - 1, Mean(values[..period]), m, w, i);
  }

  /** The weights themselves: geometric for the values after the seed, an equal share of the rest for the seed. */
  lemma {:induction false} EmaWeightFormula(period: nat, i: nat, j: nat)
    requires period >= 1 && i >= period - 1 && j <= i
    ensures var m := Multiplier(period);
      EmaWeights(period, i)[j] ==
        if j < period then Power(1.0 - m, i - (period - 1)) * (1.0 / period as real)
        else Power(1.0 - m, i - j) * m
  {
    hide Decay, Power, Multiplier;
    DecayFormula(Equal(period, 1.0 / period as real), Multiplier(period), i - (period - 1), j);
  }

  /** Hence every EMA value lies between the least and the greatest of the values so far. */
  lemma {:induction false} EmaBounds(values: seq<real>, period: nat, i: nat, lo: real, hi: real)
    requires period >= 1 && period - 1 <= i < |values|
    requires forall j :: 0 <= j <= i ==> lo <= values[j] <= hi
    ensures lo <= Ema(values, period, i) <= hi
  {
    EmaIsWeightedSum(values, period, i);
    DotBounds(EmaWeights(period, i), values[..i + 1], lo, hi);
  }

  /** And the EMA is linear in the series. */
  lemma {:induction false} EmaLinear(z: seq<real>, a: real, x: seq<real>, b: real, y: seq<real>, period: nat, i: nat)
    requires IsBlend(z, a, x, b, y) && period >= 1 && period - 1 <= i < |x|
    ensures Ema(z, period, i) == a * Ema(x, period, i) + b * Ema(y, period, i)
  {
    var s, t, u := Mean(z[..period]), Mean(x[..period]), Mean(y[..period]);
    MeanLinear(z[..period], a, x[..period], b, y[..period]);
    SmoothLinear(z, a, x, b, y, period - 1, s, t, u, Multiplier(period), i);
  }

  // ----- average true range

  function TrueRange(bars: seq<Bar>, i: nat): real
    requires i < |bars|
  {
    var range := bars[i].high - bars[i].low;
    if i == 0 then range
    else Max(range, Max(Abs(bars[i].high - bars[i - 1].close), Abs(bars[i].low - bars[i - 1].close)))
  }

  function TrueRanges(bars: seq<Bar>): (r: seq<real>)
    ensures |r| == |bars| && forall i :: 0 <= i < |bars| ==> r[i] == TrueRange(bars, i)
  {
    seq(|bars|, i requires 0 <= i < |bars| => TrueRange(bars, i))
  }

  function AtrSeries(bars: seq<Bar>, period: nat): (r: seq<Option<real>>)
    requires period >= 1
    ensures |r| == |bars|
  {
    if |bars| < 2 then seq(|bars|, _ => None) else EmaSeries(TrueRanges(bars), period)
  }

  method CalculateAtr(bars: seq<Bar>, period: nat) returns (atr: array<Option<real>>)
    requires period >= 1
    ensures fresh(atr) && atr[..] == AtrSeries(bars, period)
  {
    if |bars| < 2 {
      atr := new Option<real>[|bars|](_ => None);
    } else {
      atr := CalculateEma(TrueRanges(bars), period);
    }
  }

  /** On well-formed candles the true range covers the candle and the ATR is never negative. */
  lemma {:induction false} AtrNonNegative(bars: seq<Bar>, period: nat, i: nat)
    requires period >= 1 && LowsBelowHighs(bars) && i < |bars|
    ensures AtrSeries(bars, period)[i].Some? ==> AtrSeries(bars, period)[i].value >= 0.0
  {
    if |bars| >= 2 && i >= period - 1 {
      var ranges := TrueRanges(bars);
      SumNonNegative(ranges);
      EmaBounds(ranges, period, i, 0.0, Sum(ranges));
    }
  }

  /** On well-formed candles the true range is the span of the candle and the previous close together. */
  lemma {:induction false} TrueRangeIsSpan(bars: seq<Bar>, i: nat)
    requires LowsBelowHighs(bars) && 1 <= i < |bars|
    ensures TrueRange(bars, i) == Max(bars[i].high, bars[i - 1].close) - Min(bars[i].low, bars[i - 1].close)
  {
  }

  /** ATR is defined from index `period - 1` on, given two candles, and is the EMA-weighted sum of the true ranges. */
  lemma {:induction false} AtrIsWeightedSum(bars: seq<Bar>, period: nat, i: nat)
    requires period >= 1 && i < |bars|
    ensures AtrSeries(bars, period)[i].Some? <==> |bars| >= 2 && i >= period - 1
    ensures AtrSeries(bars, period)[i].Some? ==>
      AtrSeries(bars, period)[i].value == Dot(EmaWeights(period, i), TrueRanges(bars)[..i + 1])
    ensures TrueRange(bars, 0) == bars[0].high - bars[0].low
  {
    if |bars| >= 2 && i >= period - 1 {
      EmaIsWeightedSum(TrueRanges(bars), period, i);
    }
  }

  // ----- MACD

  /** NaN-propagating subtraction. */
  function Minus(x: seq<Option<real>>, y: seq<Option<real>>): (r: seq<Option<real>>)
    requires |x| == |y|
    ensures |r| == |x|
    ensures forall i :: 0 <= i < |x| ==>
      r[i] == if x[i].Some? && y[i].Some? then Some(x[i].value - y[i].value) else None
  {
    seq(|x|, i requires 0 <= i < |x| => if x[i].Some? && y[i].Some? then Some(x[i].value - y[i].value) else None)
  }

  /** `np.where(~np.isnan(line))` over the first `n` entries. */
  function ValidIndices(line: seq<Option<real>>, n: nat): (r: seq<nat>)
    requires n <= |line|
    ensures forall k :: 0 <= k < |r| ==> r[k] < n && line[r[k]].Some?
  {
    if n == 0 then [] else ValidIndices(line, n - 1) + if line[n - 1].Some? then [n - 1] else []
  }

  function ValuesAt(line: seq<Option<real>>, indices: seq<nat>): (r: seq<real>)
    requires forall k :: 0 <= k < |indices| ==> indices[k] < |line| && line[indices[k]].Some?
    ensures |r| == |indices| && forall k :: 0 <= k < |indices| ==> r[k] == line[indices[k]].value
  {
    seq(|indices|, k requires 0 <= k < |indices| => line[indices[k]].value)
  }

  method CalculateMacd(prices: seq<real>, fastPeriod: nat, slowPeriod: nat, signalPeriod: nat)
    returns (line: seq<Option<real>>, signal: seq<Option<real>>, hist: seq<Option<real>>)
    requires fastPeriod >= 1 && slowPeriod >= 1 && signalPeriod >= 1
    ensures line == Minus(EmaSeries(prices, fastPeriod), EmaSeries(prices, slowPeriod))
    ensures |signal| == |hist| == |prices|
    ensures SignalHolds(line, signalPeriod, signal)
    ensures hist == Minus(line, signal)
  {
    var fast := CalculateEma(prices, fastPeriod);
    var slow := CalculateEma(prices, slowPeriod);
    line := Minus(fast[..], slow[..]);
    var valid := ValidIndices(line, |line|);
    if |valid| >= signalPeriod {
      var sig := CalculateEma(ValuesAt(line, valid), signalPeriod);
      ValidAscending(line, |line|);
      signal := Scatter(line, valid, sig[..]);
      hist := Minus(line, signal);
    } else {
      signal := seq(|prices|, _ => None);
      hist := seq(|prices|, _ => None);
    }
  }

  /** `out[indices] = values` into an array of NaN. */
  method Scatter(line: seq<Option<real>>, indices: seq<nat>, values: seq<Option<real>>) returns (out: seq<Option<real>>)
    requires |values| == |indices| && Ascending(indices)
    requires forall k :: 0 <= k < |indices| ==> indices[k] < |line| && line[indices[k]].Some?
    ensures |out| == |line|
    ensures forall k :: 0 <= k < |indices| ==> out[indices[k]] == values[k]
    ensures forall i :: 0 <= i < |line| && line[i].None? ==> out[i] == None
  {
    var buffer := new Option<real>[|line|](_ => None);
    for k := 0 to |indices|
      invariant forall j :: 0 <= j < k ==> buffer[indices[j]] == values[j]
      invariant forall i :: 0 <= i < |line| && line[i].None? ==> buffer[i] == None
    {
      buffer[indices[k]] := values[k];
    }
    out := buffer[..];
  }

  ghost predicate Ascending(indices: seq<nat>) {
    forall a, b :: 0 <= a < b < |indices| ==> indices[a] < indices[b]
  }

  lemma {:induction false} ValidAscending(line: seq<Option<real>>, n: nat)
    requires n <= |line|
    ensures Ascending(ValidIndices(line, n))
  {
    if n == 0 {
    } else {
      ValidAscending(line, n - 1);
    }
  }

  /** The signal line: the EMA of the defined MACD values, put back at their indices; nothing when they are too few. */
  ghost predicate SignalHolds(line: seq<Option<real>>, signalPeriod: nat, signal: seq<Option<real>>)
    requires signalPeriod >= 1
  {
    var valid := ValidIndices(line, |line|);
    && |signal| == |line|
    && (|valid| >= signalPeriod ==> forall k :: 0 <= k < |valid| ==>
      signal[valid[k]] == EmaSeries(ValuesAt(line, valid), signalPeriod)[k])
    && (|valid| < signalPeriod ==> forall i :: 0 <= i < |signal| ==> signal[i] == None)
    && (forall i :: 0 <= i < |signal| && line[i].None? ==> signal[i] == None)
  }

  lemma {:induction false} ValidFrom(line: seq<Option<real>>, first: nat, n: nat)
    requires n <= |line| && forall i :: 0 <= i < |line| ==> (line[i].Some? <==> i >= first)
    ensures var v := ValidIndices(line, n);
      |v| == (if n <= first then 0 else n - first) && forall k :: 0 <= k < |v| ==> v[k] == first + k
  {
    if n == 0 {
    } else {
      ValidFrom(line, first, n - 1);
    }
  }

  /**
   Where MACD is defined: the line from the longer period's seed on, signal and histogram exactly
   `signalPeriod - 1` bars later, and there the histogram is the line minus the signal.
   */
  lemma {:induction false} MacdDefined(
    prices: seq<real>, fastPeriod: nat, slowPeriod: nat, signalPeriod: nat,
    line: seq<Option<real>>, signal: seq<Option<real>>, hist: seq<Option<real>>, i: nat)
    requires fastPeriod >= 1 && slowPeriod >= 1 && signalPeriod >= 1 && i < |prices|
    requires line == Minus(EmaSeries(prices, fastPeriod), EmaSeries(prices, slowPeriod))
    requires SignalHolds(line, signalPeriod, signal) && hist == Minus(line, signal)
    ensures var longer := if fastPeriod < slowPeriod then slowPeriod else fastPeriod;
      && (line[i].Some? <==> i >= longer - 1)
      && (signal[i].Some? <==> i >= longer + signalPeriod - 2)
      && (hist[i].Some? <==> i >= longer + signalPeriod - 2)
    ensures hist[i].Some? ==> hist[i].value == line[i].value - signal[i].value
  {
    var first := (if fastPeriod < slowPeriod then slowPeriod else fastPeriod) - 1;
    ValidFrom(line, first, |line|);
    if i >= first {
      assert ValidIndices(line, |line|)[i - first] == i;
    }
  }

  /** The defined values of a series, from index `first` on. */
  function ValuesFrom(line: seq<Option<real>>, first: nat): (r: seq<real>)
    requires first <= |line| && forall i :: first <= i < |line| ==> line[i].Some?
    ensures |r| == |line| - first && forall k :: 0 <= k < |r| ==> r[k] == line[first + k].value
  {
    seq(|line| - first, k requires 0 <= k < |line| - first => line[first + k].value)
  }

  /**
   What MACD is: the line weighs prices with the fast weights minus the slow ones, and the signal is the EMA of
   the line's own defined values, counted from where the line starts.
   */
  lemma {:induction false} MacdValues(
    prices: seq<real>, fastPeriod: nat, slowPeriod: nat, signalPeriod: nat,
    line: seq<Option<real>>, signal: seq<Option<real>>, i: nat)
    requires fastPeriod >= 1 && slowPeriod >= 1 && signalPeriod >= 1 && i < |prices|
    requires line == Minus(EmaSeries(prices, fastPeriod), EmaSeries(prices, slowPeriod))
    requires SignalHolds(line, signalPeriod, signal)
    ensures i >= fastPeriod - 1 && i >= slowPeriod - 1 ==>
      var fast, slow := EmaWeights(fastPeriod, i), EmaWeights(slowPeriod, i);
      line[i] == Some(Dot(fast, prices[..i + 1]) - Dot(slow, prices[..i + 1]))
    ensures var first := (if fastPeriod < slowPeriod then slowPeriod else fastPeriod) - 1;
      i >= first + signalPeriod - 1 ==> signal[i] == Some(Ema(ValuesFrom(line, first), signalPeriod, i - first))
  {
    var first := (if fastPeriod < slowPeriod then slowPeriod else fastPeriod) - 1;
    hide Ema;
    if i >= first {
      EmaIsWeightedSum(prices, fastPeriod, i);
      EmaIsWeightedSum(prices, slowPeriod, i);
    }
    if i >= first + signalPeriod - 1 {
      SignalFrom(line, signalPeriod, signal, first, i);
    }
  }

  lemma {:induction false} SignalFrom(
    line: seq<Option<real>>, signalPeriod: nat, signal: seq<Option<real>>, first: nat, i: nat)
    requires signalPeriod >= 1 && SignalHolds(line, signalPeriod, signal)
    requires forall j :: 0 <= j < |line| ==> (line[j].Some? <==> j >= first)
    requires first + signalPeriod - 1 <= i < |line|
    ensures signal[i] == Some(Ema(ValuesFrom(line, first), signalPeriod, i - first))
  {
    hide Ema;
    ValidFrom(line, first, |line|);
    var valid := ValidIndices(line, |line|);
    assert valid[i - first] == i;
    assert ValuesAt(line, valid) == ValuesFrom(line, first);
  }
}
