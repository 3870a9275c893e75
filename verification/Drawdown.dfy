/** What the one-pass drawdown loop computes, in terms of the whole equity curve. */
module Drawdown {
  import opened Numbers
  import opened Backtest

  lemma {:induction false} PeakIsMaximum(curve: seq<real>, start: real, k: nat)
    requires k <= |curve|
    ensures Peak(curve, start, k) >= start
    ensures forall i :: 0 <= i < k ==> curve[i] <= Peak(curve, start, k)
    ensures Peak(curve, start, k) == start || exists i :: 0 <= i < k && curve[i] == Peak(curve, start, k)
  {
    if k == 0 {
    } else {
      PeakIsMaximum(curve, start, k - 1);
      if Peak(curve, start, k) == curve[k - 1] {
      } else if Peak(curve, start, k - 1) != start {
        var i :| 0 <= i < k - 1 && curve[i] == Peak(curve, start, k - 1);
        assert curve[i] == Peak(curve, start, k);
      }
    }
  }

  lemma {:induction false} DrawdownNonNegative(curve: seq<real>, start: real, j: nat)
    requires j < |curve|
    ensures DrawdownAt(curve, start, j) >= 0.0
  {
  }

  /** The loop's result is the largest fall below the running peak: an upper bound that some point attains. */
  lemma {:induction false} MaxDrawdownIsMaximum(curve: seq<real>, start: real, k: nat)
    requires k <= |curve|
    ensures MaxDrawdown(curve, start, k) >= 0.0
    ensures forall j :: 0 <= j < k ==> DrawdownAt(curve, start, j) <= MaxDrawdown(curve, start, k)
    ensures k > 0 ==> exists j :: 0 <= j < k && DrawdownAt(curve, start, j) == MaxDrawdown(curve, start, k)
  {
    if k == 0 {
    } else {
      MaxDrawdownIsMaximum(curve, start, k - 1);
      DrawdownNonNegative(curve, start, k - 1);
      if k > 1 && MaxDrawdown(curve, start, k) != DrawdownAt(curve, start, k - 1) {
        var j :| 0 <= j < k - 1 && DrawdownAt(curve, start, j) == MaxDrawdown(curve, start, k - 1);
        assert DrawdownAt(curve, start, j) == MaxDrawdown(curve, start, k);
      }
    }
  }

  /** The fall from point `i` to point `j`, as a fraction of point `i`. */
  function Fall(curve: seq<real>, i: nat, j: nat): real
    requires i <= j < |curve| && curve[i] > 0.0
  {
    (curve[i] - curve[j]) / curve[i]
  }

  lemma {:induction false} FallGrowsWithPeak(low: real, high: real, value: real)
    requires 0.0 < low <= high && value >= 0.0
    ensures (low - value) / low <= (high - value) / high
  {
  }

  /** A curve that starts at the positive initial capital and never goes negative. */
  ghost predicate Solvent(curve: seq<real>, capital: real) {
    && |curve| > 0 && curve[0] == capital && capital > 0.0
    && forall i :: 0 <= i < |curve| ==> curve[i] >= 0.0
  }

  lemma {:induction false} FallBelowDrawdown(curve: seq<real>, capital: real, i: nat, j: nat)
    requires Solvent(curve, capital) && i <= j < |curve| && curve[i] > 0.0
    ensures Fall(curve, i, j) <= DrawdownAt(curve, capital, j)
  {
    PeakIsMaximum(curve, capital, j + 1);
    FallGrowsWithPeak(curve[i], Peak(curve, capital, j + 1), curve[j]);
  }

  lemma {:induction false} DrawdownIsFall(curve: seq<real>, capital: real, j: nat) returns (i: nat)
    requires Solvent(curve, capital) && j < |curve|
    ensures i <= j && curve[i] > 0.0 && Fall(curve, i, j) == DrawdownAt(curve, capital, j)
  {
    PeakIsMaximum(curve, capital, j + 1);
    i :| 0 <= i <= j && curve[i] == Peak(curve, capital, j + 1);
  }

  ghost predicate IsFall(curve: seq<real>, i: int, j: int, r: real) {
    0 <= i <= j < |curve| && curve[i] > 0.0 && Fall(curve, i, j) == r
  }

  /**
   Maximum drawdown: on a solvent curve the one-pass loop computes the largest relative fall from
   any point to any later point, and that lies between 0 and 1.
   */
  lemma {:induction false} MaxDrawdownIsLargestFall(curve: seq<real>, capital: real)
    requires Solvent(curve, capital)
    ensures forall i, j, r :: IsFall(curve, i, j, r) ==> r <= MaxDrawdown(curve, capital, |curve|)
    ensures exists i, j :: IsFall(curve, i, j, MaxDrawdown(curve, capital, |curve|))
    ensures 0.0 <= MaxDrawdown(curve, capital, |curve|) <= 1.0
  {
    var worst := MaxDrawdown(curve, capital, |curve|);
    MaxDrawdownIsMaximum(curve, capital, |curve|);
    forall i, j, r | IsFall(curve, i, j, r)
      ensures r <= worst
    {
      FallBelowDrawdown(curve, capital, i, j);
    }
    var j :| 0 <= j < |curve| && DrawdownAt(curve, capital, j) == worst;
    var i := DrawdownIsFall(curve, capital, j);
    assert IsFall(curve, i, j, worst);
    DivComplement(curve[i], curve[j]);
    DivMonotone(0.0, curve[j], curve[i]);
  }

  /** Extending a curve never lowers its maximum drawdown. */
  lemma {:induction false} MaxDrawdownGrows(curve: seq<real>, more: seq<real>, start: real)
    ensures MaxDrawdown(curve, start, |curve|) <= MaxDrawdown(curve + more, start, |curve + more|)
  {
    MaxDrawdownIsMaximum(curve, start, |curve|);
    MaxDrawdownIsMaximum(curve + more, start, |curve + more|);
    if curve != [] {
      var j :| 0 <= j < |curve| && DrawdownAt(curve, start, j) == MaxDrawdown(curve, start, |curve|);
      PeakOfPrefix(curve, more, start, j + 1);
      assert DrawdownAt(curve + more, start, j) == DrawdownAt(curve, start, j);
    }
  }

  lemma {:induction false} PeakOfPrefix(curve: seq<real>, more: seq<real>, start: real, k: nat)
    requires k <= |curve|
    ensures Peak(curve + more, start, k) == Peak(curve, start, k)
  {
    if k == 0 {
    } else {
      PeakOfPrefix(curve, more, start, k - 1);
    }
  }

  /**
   The published drawdown, in percent: within half a unit of its last digit of the largest relative fall
   from any point of the curve to a later one.
   */
  lemma {:induction false} PublishedDrawdown(a: Account, capital: real)
    requires a.trades != [] && Solvent(a.equityCurve, capital)
    ensures var m := MetricsOf(a, capital);
      && (forall i, j, r :: IsFall(a.equityCurve, i, j, r) ==> 100.0 * r <= m.maxDrawdown + 0.005)
      && (exists i, j, r :: IsFall(a.equityCurve, i, j, r) && Abs(m.maxDrawdown - 100.0 * r) <= 0.005)
  {
    hide TallyPairs, IsFall, Round2, MaxDrawdown;
    MaxDrawdownIsLargestFall(a.equityCurve, capital);
    Round2Close(MaxDrawdown(a.equityCurve, capital, |a.equityCurve|) * 100.0);
  }
}
