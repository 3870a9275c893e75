/**
 Bounded repainting. A swing is confirmed by bars that come after it, so an analysis of a prefix
 can disagree with an analysis of the full series, but only about the last bars of the prefix.
 */
module Repainting {
  import opened MarketData
  import opened Numbers
  import opened Swings
  import opened FairValueGaps
  import opened TrendAutomaton
  import opened MarketStructure

  /** A prefix confirms exactly the swings of the full series that have their whole window inside it. */
  lemma {:induction false} SwingOfPrefix(bars: seq<Bar>, left: nat, right: nat, m: nat, i: int, isHigh: bool)
    requires m <= |bars|
    ensures SwingAt(bars[..m], left, right, i, isHigh) <==> SwingAt(bars, left, right, i, isHigh) && i < m - right
  {
    if left <= i < m - right {
      forall j | i - left <= j <= i + right
        ensures Inside(bars[..m], i, j, isHigh) == Inside(bars, i, j, isHigh)
      {
        assert bars[..m][j] == bars[j] && bars[..m][i] == bars[i];
      }
    }
  }

  lemma {:induction false} PointsOfPrefix(bars: seq<Bar>, left: nat, right: nat, m: nat, i: nat)
    requires i < m <= |bars|
    ensures PointsOfBar(bars[..m], left, right, i) == if i < m - right then PointsOfBar(bars, left, right, i) else []
  {
    SwingOfPrefix(bars, left, right, m, i, true);
    SwingOfPrefix(bars, left, right, m, i, false);
    hide SwingAt;
    assert bars[..m][i] == bars[i];
  }

  lemma {:induction false} SwingsBelowOfPrefix(bars: seq<Bar>, left: nat, right: nat, m: nat, count: nat)
    requires count <= m <= |bars|
    ensures SwingsBelow(bars[..m], left, right, count) ==
      SwingsBelow(bars, left, right, if count <= m - right then count else if right <= m then m - right else 0)
  {
    if count == 0 {
    } else {
      SwingsBelowOfPrefix(bars, left, right, m, count - 1);
      PointsOfPrefix(bars, left, right, m, count - 1);
      assert SwingsBelow(bars, left, right, count) ==
        SwingsBelow(bars, left, right, count - 1) + PointsOfBar(bars, left, right, count - 1);
      assert SwingsBelow(bars[..m], left, right, count) ==
        SwingsBelow(bars[..m], left, right, count - 1) + PointsOfBar(bars[..m], left, right, count - 1);
      hide *;
    }
  }

  lemma {:induction false} SwingsBelowGrows(bars: seq<Bar>, left: nat, right: nat, lo: nat, hi: nat)
    requires lo <= hi <= |bars|
    ensures SwingsBelow(bars, left, right, lo) <= SwingsBelow(bars, left, right, hi)
  {
    if lo == hi {
    } else {
      SwingsBelowGrows(bars, left, right, lo, hi - 1);
    }
  }

  /**
   The swings found in a prefix are exactly the swings of the full series with index below
   `m - right`, in the same order: the full list is an extension of the prefix list.
   */
  lemma {:induction false} SwingsOfPrefix(bars: seq<Bar>, left: nat, right: nat, m: nat)
    requires m <= |bars|
    ensures AllSwings(bars[..m], left, right) <= AllSwings(bars, left, right)
    ensures forall p :: p in AllSwings(bars[..m], left, right) <==>
      p in AllSwings(bars, left, right) && p.index < m - right
  {
    hide Exact, SwingsBelow;
    var cut := if right <= m then m - right else 0;
    SwingsBelowOfPrefix(bars, left, right, m, m);
    SwingsBelowGrows(bars, left, right, cut, |bars|);
    SwingsBelowExact(bars, left, right, cut);
    SwingsBelowExact(bars, left, right, |bars|);
    ExactCut(bars, left, right, SwingsBelow(bars, left, right, cut), cut, AllSwings(bars, left, right), |bars|);
  }

  lemma {:induction false} ExactCut(
    bars: seq<Bar>, left: nat, right: nat, s: seq<SwingPoint>, cut: nat, t: seq<SwingPoint>, count: nat)
    requires cut <= count && Exact(bars, left, right, s, cut) && Exact(bars, left, right, t, count)
    ensures forall p :: p in s <==> p in t && p.index < cut
  {
    hide Genuine, InOrder;
  }

  lemma {:induction false} LatestSwingOfPrefix(bars: seq<Bar>, left: nat, right: nat, m: nat, i: nat, isHigh: bool)
    requires i <= m <= |bars| && i <= m - right
    ensures LatestSwing(bars[..m], left, right, i, isHigh) == LatestSwing(bars, left, right, i, isHigh)
  {
    if i == 0 {
    } else {
      SwingOfPrefix(bars, left, right, m, i - 1, isHigh);
      LatestSwingOfPrefix(bars, left, right, m, i - 1, isHigh);
      assert bars[..m][i - 1] == bars[i - 1];
    }
  }

  /** The automaton looks no further than the bars and levels it has consumed. */
  lemma {:induction false} RunDependsOnPast(
    bars: seq<Bar>, levels: seq<Levels>, bars': seq<Bar>, levels': seq<Levels>, count: nat)
    requires count <= |bars| == |levels| && count <= |bars'| == |levels'|
    requires forall i :: 0 <= i < count ==> bars[i] == bars'[i]
    requires forall i :: 0 <= i < count ==> levels[i] == levels'[i]
    ensures Run(bars, levels, count) == Run(bars', levels', count)
  {
    if count == 0 {
    } else {
      var i := count - 1;
      RunDependsOnPast(bars, levels, bars', levels', i);
      RunStep(bars, levels, i);
      RunStep(bars', levels', i);
    }
  }

  lemma {:induction false} RunOfPrefix(bars: seq<Bar>, left: nat, right: nat, m: nat, count: nat)
    requires count <= m <= |bars| && count <= m - right + 1
    ensures Run(bars[..m], LevelTrace(bars[..m], left, right), count)
      == Run(bars, LevelTrace(bars, left, right), count)
  {
    var levels, levels' := LevelTrace(bars, left, right), LevelTrace(bars[..m], left, right);
    forall i | 0 <= i < count
      ensures levels'[i] == levels[i]
    {
      LatestSwingOfPrefix(bars, left, right, m, i, true);
      LatestSwingOfPrefix(bars, left, right, m, i, false);
    }
    RunDependsOnPast(bars[..m], levels', bars, levels, count);
  }

  /** Bar 0 is a confirmed swing and bar 1 sweeps it or closes beyond it. */
  predicate FirstSwingTouched(bars: seq<Bar>, left: nat, right: nat)
    requires |bars| >= 2
  {
    || (SwingAt(bars, left, right, 0, true) && (
          bars[1].close > bars[0].high || (bars[1].high > bars[0].high > bars[1].close)))
    || (SwingAt(bars, left, right, 0, false) && (
          bars[1].close < bars[0].low || (bars[1].low < bars[0].low < bars[1].close)))
  }

  /**
   Bounded repainting: the trend, events and order blocks after any number of bars up to and
   including bar `m - right` are the same in the prefix analysis and in the full analysis, with one
   exception: a two-bar prefix is not scanned at all, so it misses a swing of bar 0 that bar 1 touches.
   */
  lemma {:induction false} BoundedRepainting(bars: seq<Bar>, left: nat, right: nat, m: nat, count: nat)
    requires count <= m <= |bars| && count <= m - right + 1
    ensures Emitted(bars[..m], left, right, count) == Emitted(bars, left, right, count) <==>
      m >= 3 || |bars| < 3 || count < 2 || !FirstSwingTouched(bars, left, right)
  {
    RunOfPrefix(bars, left, right, m, count);
    if m < 3 <= |bars| {
      TwoBarRun(bars, left, right, count);
    }
  }

  /** The first two bars leave the automaton where it started unless bar 1 touches a swing of bar 0. */
  lemma {:induction false} TwoBarRun(bars: seq<Bar>, left: nat, right: nat, count: nat)
    requires count <= 2 <= |bars|
    ensures Run(bars, LevelTrace(bars, left, right), count) == START <==>
      count < 2 || !FirstSwingTouched(bars, left, right)
  {
    var levels := LevelTrace(bars, left, right);
    if count >= 1 {
      RunStep(bars, levels, 0);
    }
    if count == 2 {
      RunStep(bars, levels, 1);
      FirstLevels(bars, left, right);
      SecondBarEvents(bars, left, right, levels[1]);
    }
  }

  lemma {:induction false} FirstLevels(bars: seq<Bar>, left: nat, right: nat)
    requires |bars| >= 2
    ensures LevelsAt(bars, left, right, 0) == Levels(None, None)
    ensures LevelsAt(bars, left, right, 1) == Levels(
      if SwingAt(bars, left, right, 0, true) then Some(PointAt(bars, 0, true)) else None,
      if SwingAt(bars, left, right, 0, false) then Some(PointAt(bars, 0, false)) else None)
  {
  }

  lemma {:induction false} SecondBarEvents(bars: seq<Bar>, left: nat, right: nat, levels: Levels)
    requires |bars| >= 2 && levels == LevelsAt(bars, left, right, 1)
    ensures FirstSwingTouched(bars, left, right) <==>
      SweepEvents(bars[1], levels) + BreakEvents(bars[1], levels, Neutral) != []
    ensures BreakOf(bars[1], levels).Some? ==> FirstSwingTouched(bars, left, right)
  {
    FirstLevels(bars, left, right);
  }

  function RisingBars(): (bars: seq<Bar>)
    ensures |bars| == 3
  {
    [Bar(0, 1.0, 2.0, 0.0, 1.0), Bar(1, 3.0, 4.0, 2.0, 3.0), Bar(2, 5.0, 6.0, 4.0, 5.0)]
  }

  /** The exception occurs: without windows every bar is a swing, and here bar 1 closes above the high of bar 0. */
  lemma {:induction false} ShortPrefixCanDiffer()
    ensures IncreasingTimes(RisingBars())
    ensures forall i :: 0 <= i < 3 ==> RisingBars()[i].low <= RisingBars()[i].close <= RisingBars()[i].high
    ensures Emitted(RisingBars()[..2], 0, 0, 2) != Emitted(RisingBars(), 0, 0, 2)
  {
    BoundedRepainting(RisingBars(), 0, 0, 2, 2);
  }

  // ----- the horizon is exact

  /** Two swing highs, the second taller, with a close between the two levels right after the second. */
  function TallerSwing(first: nat, second: nat, n: nat): (bars: seq<Bar>)
    ensures |bars| == n
  {
    seq(n, i =>
      var high := if i == first then 10.0 else if i == second then 20.0 else if i == second + 1 then 15.0 else 5.0;
      Bar(i, 1.0, high, 0.0, if i == second + 1 then 12.0 else 1.0))
  }

  /** The swings are just far enough apart, and bar `m` is the last one the second swing needs. */
  predicate Spaced(left: nat, right: nat, first: nat, second: nat, m: nat) {
    right >= 2 && left <= first && second - first == right + 1 && m - second == right
  }

  lemma {:induction false} TallerSwingLevels(left: nat, right: nat, first: nat, second: nat, m: nat, n: nat)
    requires Spaced(left, right, first, second, m) && (n == m || n == m + 1)
    ensures var bars := TallerSwing(first, second, n);
      LevelsAt(bars, left, right, second + 1) ==
        Levels(Some(PointAt(bars, if n == m then first else second, true)), None)
  {
    var bars, i := TallerSwing(first, second, n), second + 1;
    LatestSwingIsLatest(bars, left, right, i, false);
    LatestSwingIsLatest(bars, left, right, i, true);
    forall j | 0 <= j < i
      ensures !SwingAt(bars, left, right, j, false)
    {
      if left <= j < n - right {
        assert !Inside(bars, j, j + 1, false);
      }
    }
    forall j | first < j < i && j != second
      ensures !SwingAt(bars, left, right, j, true)
    {
      if left <= j < n - right {
        assert !Inside(bars, j, j + 1, true);
      }
    }
    assert SwingAt(bars, left, right, first, true);
    assert SwingAt(bars, left, right, second, true) <==> n == m + 1;
    hide LatestSwing, SwingAt;
  }

  ghost predicate WellFormed(bars: seq<Bar>) {
    && IncreasingTimes(bars)
    && forall i :: 0 <= i < |bars| ==> bars[i].low <= bars[i].close <= bars[i].high
  }

  /**
   One bar beyond the horizon the two analyses can disagree, for every window with `right >= 2` (for
   smaller `right` the horizon already covers the whole prefix) and every prefix that has room for two
   confirmed swings, even on well-formed candles.
   */
  lemma {:induction false} HorizonIsExact(left: nat, right: nat, m: nat) returns (bars: seq<Bar>)
    requires right >= 2 && m >= left + 2 * right + 1
    ensures m <= |bars| && WellFormed(bars)
    ensures Emitted(bars[..m], left, right, m - right + 2).trend != Emitted(bars, left, right, m - right + 2).trend
  {
    hide Emitted, TallerSwing, WellFormed;
    var second := m - right;
    var first := second - right - 1;
    bars := TallerSwing(first, second, m + 1);
    TallerSwingShape(first, second, m);
    TallerSwingTrend(left, right, first, second, m, m);
    TallerSwingTrend(left, right, first, second, m, m + 1);
  }

  lemma {:induction false} TallerSwingShape(first: nat, second: nat, m: nat)
    requires first < second
    ensures WellFormed(TallerSwing(first, second, m + 1))
    ensures TallerSwing(first, second, m + 1)[..m] == TallerSwing(first, second, m)
  {
  }

  /** The full series stays out of an upward trend, the prefix enters one. */
  lemma {:induction false} TallerSwingTrend(left: nat, right: nat, first: nat, second: nat, m: nat, n: nat)
    requires Spaced(left, right, first, second, m) && (n == m || n == m + 1)
    ensures Emitted(TallerSwing(first, second, n), left, right, second + 2).trend == Going(Bull) <==> n == m
  {
    var bars := TallerSwing(first, second, n);
    hide Run, TallerSwing, LevelsAt, BreakOf;
    TallerSwingBreak(left, right, first, second, m, n);
    NeverUp(left, right, first, second, n, second + 1);
    EmittedTrend(bars, left, right, second + 2);
  }

  lemma {:induction false} EmittedTrend(bars: seq<Bar>, left: nat, right: nat, count: nat)
    requires 3 <= |bars| && count <= |bars|
    ensures Emitted(bars, left, right, count).trend == TrendBefore(bars, LevelTrace(bars, left, right), count)
  {
    hide TrendBefore, LevelTrace;
    RunTrend(bars, LevelTrace(bars, left, right), count);
  }

  lemma {:induction false} TallerSwingBreak(left: nat, right: nat, first: nat, second: nat, m: nat, n: nat)
    requires Spaced(left, right, first, second, m) && (n == m || n == m + 1)
    ensures var bars := TallerSwing(first, second, n);
      BreakOf(bars[second + 1], LevelsAt(bars, left, right, second + 1)) == if n == m then Some((Bull, 10.0)) else None
  {
    TallerSwingLevels(left, right, first, second, m, n);
    hide LevelsAt;
  }

  lemma {:induction false} NeverUp(left: nat, right: nat, first: nat, second: nat, n: nat, count: nat)
    requires count <= n && count <= second + 1
    ensures var bars := TallerSwing(first, second, n);
      TrendBefore(bars, LevelTrace(bars, left, right), count) != Going(Bull)
  {
    if count == 0 {
    } else {
      NeverUp(left, right, first, second, n, count - 1);
      LatestSwingIsLatest(TallerSwing(first, second, n), left, right, count - 1, true);
    }
  }

  /** In a shorter prefix even the first bar beyond the horizon agrees, on well-formed candles. */
  lemma {:induction false} HorizonNotReached(bars: seq<Bar>, left: nat, right: nat, m: nat)
    requires right >= 2 && m <= |bars| && right <= m < left + 2 * right + 1 && WellFormed(bars)
    ensures Emitted(bars[..m], left, right, m - right + 2) == Emitted(bars, left, right, m - right + 2)
  {
    RunsReachHorizon(bars, left, right, m);
    if m == 2 && |bars| >= 3 {
      TwoBarRun(bars, left, right, 2);
      FirstSwingUntouched(bars, left, right);
    }
  }

  lemma {:induction false} FirstSwingUntouched(bars: seq<Bar>, left: nat, right: nat)
    requires right >= 1 && |bars| >= 2 && bars[1].low <= bars[1].close <= bars[1].high
    ensures !FirstSwingTouched(bars, left, right)
  {
    assert SwingAt(bars, left, right, 0, true) ==> Inside(bars, 0, 1, true);
    assert SwingAt(bars, left, right, 0, false) ==> Inside(bars, 0, 1, false);
  }

  lemma {:induction false} RunsReachHorizon(bars: seq<Bar>, left: nat, right: nat, m: nat)
    requires right >= 2 && m <= |bars| && right <= m < left + 2 * right + 1 && WellFormed(bars)
    ensures Run(bars[..m], LevelTrace(bars[..m], left, right), m - right + 2)
      == Run(bars, LevelTrace(bars, left, right), m - right + 2)
  {
    hide *;
    var i := m - right + 1;
    RunOfPrefix(bars, left, right, m, i);
    SameReactionAt(bars, left, right, m, i);
    SameStep(bars, LevelTrace(bars, left, right), bars[..m], LevelTrace(bars[..m], left, right), i);
  }

  lemma {:induction false} SameReactionAt(bars: seq<Bar>, left: nat, right: nat, m: nat, i: nat)
    requires right >= 2 && m <= |bars| && right <= m < left + 2 * right + 1 && WellFormed(bars)
    requires i == m - right + 1
    ensures BreakOf(bars[i], LevelsAt(bars, left, right, i)) == BreakOf(bars[i], LevelsAt(bars[..m], left, right, i))
    ensures SweepEvents(bars[i], LevelsAt(bars, left, right, i)) ==
      SweepEvents(bars[i], LevelsAt(bars[..m], left, right, i))
  {
    hide LatestSwing, Clear, BreakOf, SweepEvents;
    UntouchedLevel(bars, left, right, m, true);
    UntouchedLevel(bars, left, right, m, false);
    SameReaction(bars[i], LevelsAt(bars, left, right, i), LevelsAt(bars[..m], left, right, i));
  }

  lemma {:induction false} SameStep(
    bars: seq<Bar>, levels: seq<Levels>, bars': seq<Bar>, levels': seq<Levels>, i: nat)
    requires 0 < i < |bars| == |levels| && i < |bars'| == |levels'|
    requires Run(bars, levels, i) == Run(bars', levels', i)
    requires bars[i] == bars'[i] && bars[i - 1] == bars'[i - 1]
    requires BreakOf(bars[i], levels[i]) == BreakOf(bars[i], levels'[i])
    requires SweepEvents(bars[i], levels[i]) == SweepEvents(bars[i], levels'[i])
    ensures Run(bars, levels, i + 1) == Run(bars', levels', i + 1)
  {
    RunStep(bars, levels, i);
    RunStep(bars', levels', i);
  }

  /** The level on this side is the same in both analyses, or bar `m - right + 1` stays inside both. */
  lemma {:induction false} UntouchedLevel(bars: seq<Bar>, left: nat, right: nat, m: nat, isHigh: bool)
    requires right >= 2 && m <= |bars| && right <= m < left + 2 * right + 1
    ensures var i := m - right + 1;
      var level, level' := LatestSwing(bars, left, right, i, isHigh), LatestSwing(bars[..m], left, right, i, isHigh);
      level == level' || (Clear(bars[i], level, isHigh) && Clear(bars[i], level', isHigh))
  {
    var j := m - right;
    SwingOfPrefix(bars, left, right, m, j, isHigh);
    LatestSwingOfPrefix(bars, left, right, m, j, isHigh);
    LatestSwingIsLatest(bars, left, right, j, isHigh);
    var earlier := LatestSwing(bars, left, right, j, isHigh);
    if SwingAt(bars, left, right, j, isHigh) {
      assert Inside(bars, j, j + 1, isHigh);
      if earlier.Some? {
        assert Inside(bars, earlier.value.index, j, isHigh);
      }
    }
  }

  /** The bar's wick does not reach the level. */
  predicate Clear(bar: Bar, level: Option<SwingPoint>, isHigh: bool) {
    level.Some? ==> if isHigh then bar.high < level.value.price else level.value.price < bar.low
  }

  lemma {:induction false} SameReaction(bar: Bar, levels: Levels, levels': Levels)
    requires bar.low <= bar.close <= bar.high
    requires levels.high == levels'.high || (Clear(bar, levels.high, true) && Clear(bar, levels'.high, true))
    requires levels.low == levels'.low || (Clear(bar, levels.low, false) && Clear(bar, levels'.low, false))
    ensures BreakOf(bar, levels) == BreakOf(bar, levels') && SweepEvents(bar, levels) == SweepEvents(bar, levels')
  {
  }
}
