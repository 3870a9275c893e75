/** Volume-weighted average price, cumulative over the series. */
module Vwap {
  import opened MarketData
  import opened Numbers
  import opened Weighted

  function TypicalPrice(bar: Bar): real {
    (bar.high + bar.low + bar.close) / 3.0
  }

  function TypicalPrices(bars: seq<Bar>): (r: seq<real>)
    ensures |r| == |bars| && forall i :: 0 <= i < |bars| ==> r[i] == TypicalPrice(bars[i])
  {
    seq(|bars|, i requires 0 <= i < |bars| => TypicalPrice(bars[i]))
  }

  /** Cumulative value over cumulative volume; a zero volume is replaced by 1e-9. */
  function VwapAt(bars: seq<Bar>, volumes: seq<real>, i: nat): real
    requires |bars| == |volumes| && i < |bars|
  {
    var volume := Sum(volumes[..i + 1]);
    Dot(volumes[..i + 1], TypicalPrices(bars)[..i + 1]) / (if volume == 0.0 then 0.000000001 else volume)
  }

  /**
   With non-negative volumes the VWAP lies between the least and greatest typical price so far;
   while nothing has traded it is zero.
   */
  lemma {:induction false} VwapBounds(bars: seq<Bar>, volumes: seq<real>, i: nat, lo: real, hi: real)
    requires |bars| == |volumes| && i < |bars|
    requires forall j :: 0 <= j < |volumes| ==> volumes[j] >= 0.0
    requires forall j :: 0 <= j <= i ==> lo <= TypicalPrice(bars[j]) <= hi
    ensures if Sum(volumes[..i + 1]) == 0.0 then VwapAt(bars, volumes, i) == 0.0
            else lo <= VwapAt(bars, volumes, i) <= hi
  {
    hide Sum, Dot, TypicalPrice;
    var w, v := volumes[..i + 1], TypicalPrices(bars)[..i + 1];
    SumNonNegative(w);
    DotBounds(w, v, lo, hi);
    Ratio(Dot(w, v), Sum(w), lo, hi);
  }

  /** Every bar moves volume times VWAP by its own volume times a third of high + low + close. */
  lemma {:induction false} VwapStep(bars: seq<Bar>, volumes: seq<real>, i: nat)
    requires |bars| == |volumes| && 1 <= i < |bars|
    requires Sum(volumes[..i]) != 0.0 && Sum(volumes[..i + 1]) != 0.0
    ensures VwapAt(bars, volumes, i) * Sum(volumes[..i + 1]) ==
      VwapAt(bars, volumes, i - 1) * Sum(volumes[..i])
      + volumes[i] * ((bars[i].high + bars[i].low + bars[i].close) / 3.0)
    ensures Sum(volumes[..i + 1]) == Sum(volumes[..i]) + volumes[i]
  {
    var v := TypicalPrices(bars);
    hide TypicalPrice, Sum, Dot;
    assert volumes[..i + 1] == volumes[..i] + [volumes[i]] && v[..i + 1] == v[..i] + [v[i]];
    DotAppend(volumes[..i], v[..i], volumes[i], v[i]);
    DivTimes(Dot(volumes[..i], v[..i]), Sum(volumes[..i]));
    DivTimes(Dot(volumes[..i + 1], v[..i + 1]), Sum(volumes[..i + 1]));
    assert v[i] == (bars[i].high + bars[i].low + bars[i].close) / 3.0 by {
      ThirdOfSum(bars[i]);
    }
  }

  lemma {:induction false} ThirdOfSum(bar: Bar)
    ensures TypicalPrice(bar) == (bar.high + bar.low + bar.close) / 3.0
  {
  }

  /** The first bar alone: its typical price. */
  lemma {:induction false} VwapFirst(bars: seq<Bar>, volumes: seq<real>)
    requires |bars| == |volumes| >= 1 && volumes[0] != 0.0
    ensures VwapAt(bars, volumes, 0) == (bars[0].high + bars[0].low + bars[0].close) / 3.0
  {
    var v := TypicalPrices(bars);
    assert volumes[..1] == [] + [volumes[0]] && v[..1] == [] + [v[0]];
    DotAppend([], [], volumes[0], v[0]);
    assert Dot([], []) == 0.0 && Sum([]) == 0.0;
    ThirdOfSum(bars[0]);
    hide Dot, Sum, TypicalPrice;
    QuotientIs(volumes[0] * v[0], volumes[0], v[0]);
  }

  lemma {:induction false} Ratio(value: real, volume: real, lo: real, hi: real)
    requires volume >= 0.0 && volume * lo <= value <= volume * hi
    ensures volume == 0.0 ==> value / 0.000000001 == 0.0
    ensures volume > 0.0 ==> lo <= value / volume <= hi
  {
  }
}
