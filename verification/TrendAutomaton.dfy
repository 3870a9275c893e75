/**
 The trend automaton: one pass over the bars that compares each close, high and low with
 the latest confirmed swings, emits sweep / break-of-structure (BOS) / change-of-character
 (CHOCH) events, and records an order block at every change of character.
 */
module TrendAutomaton {
  import opened MarketData
  import opened Numbers
  import opened Swings

  datatype Direction = Bull | Bear
  datatype Trend = Neutral | Going(direction: Direction)
  datatype EventKind = Sweep | Bos | Choch
  datatype Event = Event(kind: EventKind, direction: Direction, timestamp: int, priceLevel: real)
  datatype OrderBlock = OrderBlock(timestamp: int, highLevel: real, lowLevel: real, isBullish: bool)

  /** What the pass has accumulated so far. */
  datatype Progress = Progress(trend: Trend, events: seq<Event>, blocks: seq<OrderBlock>)

  const START := Progress(Neutral, [], [])

  /** The latest swing high and swing low a bar is compared with. */
  datatype Levels = Levels(high: Option<SwingPoint>, low: Option<SwingPoint>)

  function LevelsAt(bars: seq<Bar>, left: nat, right: nat, i: nat): Levels
    requires i <= |bars|
  {
    Levels(LatestSwing(bars, left, right, i, true), LatestSwing(bars, left, right, i, false))
  }

  /** The levels every bar of the series is compared with. */
  function LevelTrace(bars: seq<Bar>, left: nat, right: nat): (levels: seq<Levels>)
    ensures |levels| == |bars|
    ensures forall i :: 0 <= i < |bars| ==> levels[i] == LevelsAt(bars, left, right, i)
  {
    seq(|bars|, i requires 0 <= i < |bars| => LevelsAt(bars, left, right, i))
  }

  // ----- one bar

  /** The wick passes the last swing high but the close stays below it. */
  function HighSweep(bar: Bar, levels: Levels): seq<Event> {
    if levels.high.Some? && bar.high > levels.high.value.price && bar.close < levels.high.value.price
    then [Event(Sweep, Bear, bar.time, levels.high.value.price)] else []
  }

  function LowSweep(bar: Bar, levels: Levels): seq<Event> {
    if levels.low.Some? && bar.low < levels.low.value.price && bar.close > levels.low.value.price
    then [Event(Sweep, Bull, bar.time, levels.low.value.price)] else []
  }

  function SweepEvents(bar: Bar, levels: Levels): seq<Event> {
    HighSweep(bar, levels) + LowSweep(bar, levels)
  }

  predicate BreaksUp(bar: Bar, levels: Levels) {
    levels.high.Some? && bar.close > levels.high.value.price
  }

  predicate BreaksDown(bar: Bar, levels: Levels) {
    levels.low.Some? && bar.close < levels.low.value.price
  }

  /** The direction of the break and the level broken; the upward test comes first. */
  function BreakOf(bar: Bar, levels: Levels): Option<(Direction, real)> {
    if BreaksUp(bar, levels) then Some((Bull, levels.high.value.price))
    else if BreaksDown(bar, levels) then Some((Bear, levels.low.value.price))
    else None
  }

  function BreakEvents(bar: Bar, levels: Levels, trend: Trend): seq<Event> {
    match BreakOf(bar, levels)
    case None => []
    case Some((d, level)) => [Event(if trend == Going(d) then Bos else Choch, d, bar.time, level)]
  }

  function TrendAfter(bar: Bar, levels: Levels, trend: Trend): Trend {
    match BreakOf(bar, levels)
    case None => trend
    case Some((d, _)) => Going(d)
  }

  function BlocksOf(bars: seq<Bar>, i: nat, levels: Levels, trend: Trend): seq<OrderBlock>
    requires i < |bars|
  {
    match BreakOf(bars[i], levels)
    case None => []
    case Some((d, _)) =>
      if trend == Going(d) || i == 0 then []
      else [OrderBlock(bars[i - 1].time, bars[i - 1].high, bars[i - 1].low, d == Bull)]
  }

  // ----- a whole run

  function TrendBefore(bars: seq<Bar>, levels: seq<Levels>, i: nat): Trend
    requires i <= |bars| == |levels|
  {
    if i == 0 then Neutral
    else TrendAfter(bars[i - 1], levels[i - 1], TrendBefore(bars, levels, i - 1))
  }

  /** The events of bar `i`, in the order they are appended. */
  function EventsOfBar(bars: seq<Bar>, levels: seq<Levels>, i: nat): seq<Event>
    requires i < |bars| == |levels|
  {
    SweepEvents(bars[i], levels[i]) + BreakEvents(bars[i], levels[i], TrendBefore(bars, levels, i))
  }

  function BlocksOfBar(bars: seq<Bar>, levels: seq<Levels>, i: nat): seq<OrderBlock>
    requires i < |bars| == |levels|
  {
    BlocksOf(bars, i, levels[i], TrendBefore(bars, levels, i))
  }

  /** The state after the first `count` bars, each compared with its own levels. */
  function Run(bars: seq<Bar>, levels: seq<Levels>, count: nat): Progress
    requires count <= |bars| == |levels|
  {
    if count == 0 then START
    else
      var before := Run(bars, levels, count - 1);
      Progress(
        TrendBefore(bars, levels, count),
        before.events + EventsOfBar(bars, levels, count - 1),
        before.blocks + BlocksOfBar(bars, levels, count - 1))
  }

  // ----- the pass itself

  /** The body of the loop for bar `i`: sweeps first, then the break tests. */
  method ProcessBar(bars: seq<Bar>, i: nat, lastHigh: Option<SwingPoint>, lastLow: Option<SwingPoint>, p: Progress)
    returns (q: Progress)
    requires i < |bars|
    ensures var levels := Levels(lastHigh, lastLow);
      q == Progress(
        TrendAfter(bars[i], levels, p.trend),
        p.events + SweepEvents(bars[i], levels) + BreakEvents(bars[i], levels, p.trend),
        p.blocks + BlocksOf(bars, i, levels, p.trend))
  {
    var bar := bars[i];
    var currentTrend, events, blocks := p.trend, p.events, p.blocks;

    if lastHigh.Some? && bar.high > lastHigh.value.price && bar.close < lastHigh.value.price {
      events := events + [Event(Sweep, Bear, bar.time, lastHigh.value.price)];
    }
    if lastLow.Some? && bar.low < lastLow.value.price && bar.close > lastLow.value.price {
      events := events + [Event(Sweep, Bull, bar.time, lastLow.value.price)];
    }
    assert events == p.events + SweepEvents(bar, Levels(lastHigh, lastLow));

    if lastHigh.Some? && bar.close > lastHigh.value.price {
      if currentTrend == Going(Bull) {
        events := events + [Event(Bos, Bull, bar.time, lastHigh.value.price)];
      } else {
        currentTrend := Going(Bull);
        events := events + [Event(Choch, Bull, bar.time, lastHigh.value.price)];
        if i >= 1 {
          blocks := blocks + [OrderBlock(bars[i - 1].time, bars[i - 1].high, bars[i - 1].low, true)];
        }
      }
    } else if lastLow.Some? && bar.close < lastLow.value.price {
      if currentTrend == Going(Bear) {
        events := events + [Event(Bos, Bear, bar.time, lastLow.value.price)];
      } else {
        currentTrend := Going(Bear);
        events := events + [Event(Choch, Bear, bar.time, lastLow.value.price)];
        if i >= 1 {
          blocks := blocks + [OrderBlock(bars[i - 1].time, bars[i - 1].high, bars[i - 1].low, false)];
        }
      }
    }
    q := Progress(currentTrend, events, blocks);
  }

  /** What the list comprehensions at bar `i` find among all the swings of the series. */
  method LastKnown(bars: seq<Bar>, left: nat, right: nat, swings: seq<SwingPoint>, i: nat)
    returns (lastHigh: Option<SwingPoint>, lastLow: Option<SwingPoint>)
    requires swings == AllSwings(bars, left, right) && i < |bars|
    ensures Levels(lastHigh, lastLow) == LevelsAt(bars, left, right, i)
  {
    lastHigh := LastOf(KnownAt(swings, i, true));
    lastLow := LastOf(KnownAt(swings, i, false));
    FilterIsTracker(bars, left, right, |bars|, i, true);
    FilterIsTracker(bars, left, right, |bars|, i, false);
  }

  /** The whole pass: at every bar it filters all swings again for those already behind it. */
  method TrackTrend(bars: seq<Bar>, left: nat, right: nat, swings: seq<SwingPoint>) returns (p: Progress)
    requires swings == AllSwings(bars, left, right)
    ensures p == Run(bars, LevelTrace(bars, left, right), |bars|)
  {
    p := START;
    ghost var levels := LevelTrace(bars, left, right);
    for i := 0 to |bars|
      invariant p == Run(bars, levels, i)
    {
      var lastHigh, lastLow := LastKnown(bars, left, right, swings, i);
      RunStep(bars, levels, i);
      p := ProcessBar(bars, i, lastHigh, lastLow, p);
    }
  }

  lemma {:induction false} RunTrend(bars: seq<Bar>, levels: seq<Levels>, count: nat)
    requires count <= |bars| == |levels|
    ensures Run(bars, levels, count).trend == TrendBefore(bars, levels, count)
  {
  }

  lemma {:induction false} RunStep(bars: seq<Bar>, levels: seq<Levels>, i: nat)
    requires i < |bars| == |levels|
    ensures var p := Run(bars, levels, i);
      Run(bars, levels, i + 1) == Progress(
        TrendAfter(bars[i], levels[i], p.trend),
        p.events + SweepEvents(bars[i], levels[i]) + BreakEvents(bars[i], levels[i], p.trend),
        p.blocks + BlocksOf(bars, i, levels[i], p.trend))
  {
    RunTrend(bars, levels, i);
  }
}
