/**
 Mirror duality: turning the price axis upside down swaps highs with lows and bullish with
 bearish everywhere. The one asymmetry is the `if / elif` of the break test, which answers
 "up" when a close breaks both levels at once.
 */
module MirrorDuality {
  import opened MarketData
  import opened Numbers
  import opened Swings
  import opened FairValueGaps
  import opened TrendAutomaton

  function MirrorBar(bar: Bar): Bar {
    Bar(bar.time, -bar.open, -bar.low, -bar.high, -bar.close)
  }

  function Mirror(bars: seq<Bar>): (mirrored: seq<Bar>)
    ensures |mirrored| == |bars|
    ensures forall i :: 0 <= i < |bars| ==> mirrored[i] == MirrorBar(bars[i])
  {
    seq(|bars|, i requires 0 <= i < |bars| => MirrorBar(bars[i]))
  }

  function Flip(d: Direction): Direction {
    if d == Bull then Bear else Bull
  }

  function MirrorTrend(t: Trend): Trend {
    match t
    case Neutral => Neutral
    case Going(d) => Going(Flip(d))
  }

  function MirrorPoint(p: Option<SwingPoint>): Option<SwingPoint> {
    match p
    case None => None
    case Some(s) => Some(SwingPoint(s.index, s.timestamp, -s.price, !s.isHigh))
  }

  function MirrorLevels(levels: Levels): Levels {
    Levels(MirrorPoint(levels.low), MirrorPoint(levels.high))
  }

  function MirrorEvent(e: Event): Event {
    Event(e.kind, Flip(e.direction), e.timestamp, -e.priceLevel)
  }

  function MirrorEvents(events: seq<Event>): (mirrored: seq<Event>)
    ensures |mirrored| == |events|
  {
    seq(|events|, i requires 0 <= i < |events| => MirrorEvent(events[i]))
  }

  function MirrorBlock(b: OrderBlock): OrderBlock {
    OrderBlock(b.timestamp, -b.lowLevel, -b.highLevel, !b.isBullish)
  }

  function MirrorBlocks(blocks: seq<OrderBlock>): (mirrored: seq<OrderBlock>)
    ensures |mirrored| == |blocks|
  {
    seq(|blocks|, i requires 0 <= i < |blocks| => MirrorBlock(blocks[i]))
  }

  // ----- swings

  /** Swing highs of the mirrored series are the swing lows of the series, and conversely. */
  lemma {:induction false} MirrorSwing(bars: seq<Bar>, left: nat, right: nat, i: int, isHigh: bool)
    ensures SwingAt(Mirror(bars), left, right, i, isHigh) <==> SwingAt(bars, left, right, i, !isHigh)
  {
    var bars' := Mirror(bars);
    if left <= i < |bars| - right {
      forall j | i - left <= j <= i + right
        ensures Inside(bars', i, j, isHigh) == Inside(bars, i, j, !isHigh)
      {
        assert bars'[i] == MirrorBar(bars[i]) && bars'[j] == MirrorBar(bars[j]);
      }
      if !SwingAt(bars, left, right, i, !isHigh) {
        var j :| i - left <= j <= i + right && j != i && !Inside(bars, i, j, !isHigh);
        assert !Inside(bars', i, j, isHigh);
      } else {
        assert SwingAt(bars', left, right, i, isHigh);
      }
    }
  }

  lemma {:induction false} MirrorLatest(bars: seq<Bar>, left: nat, right: nat, i: nat, isHigh: bool)
    requires i <= |bars|
    ensures LatestSwing(Mirror(bars), left, right, i, isHigh) == MirrorPoint(LatestSwing(bars, left, right, i, !isHigh))
  {
    if i == 0 {
    } else {
      MirrorSwing(bars, left, right, i - 1, isHigh);
      MirrorLatest(bars, left, right, i - 1, isHigh);
    }
  }

  ghost predicate MirroredLevels(levels: seq<Levels>, levels': seq<Levels>) {
    |levels| == |levels'| && forall i :: 0 <= i < |levels| ==> levels'[i] == MirrorLevels(levels[i])
  }

  lemma {:induction false} MirrorLevelTrace(bars: seq<Bar>, left: nat, right: nat)
    ensures MirroredLevels(LevelTrace(bars, left, right), LevelTrace(Mirror(bars), left, right))
  {
    forall i | 0 <= i < |bars|
      ensures LevelsAt(Mirror(bars), left, right, i) == MirrorLevels(LevelsAt(bars, left, right, i))
    {
      MirrorLatest(bars, left, right, i, true);
      MirrorLatest(bars, left, right, i, false);
    }
  }

  // ----- events

  /** The close lies above the last swing high and below the last swing low at once. */
  predicate Crossed(bar: Bar, levels: Levels) {
    BreaksUp(bar, levels) && BreaksDown(bar, levels)
  }

  lemma {:induction false} MirrorSweeps(bar: Bar, levels: Levels)
    ensures multiset(SweepEvents(MirrorBar(bar), MirrorLevels(levels))) ==
      multiset(MirrorEvents(SweepEvents(bar, levels)))
  {
    hide HighSweep, LowSweep;
    var high, low := HighSweep(bar, levels), LowSweep(bar, levels);
    MirrorOneSweep(bar, levels);
    MirrorConcat(high, low);
    assert multiset(MirrorEvents(low) + MirrorEvents(high)) == multiset(MirrorEvents(high) + MirrorEvents(low));
  }

  lemma {:induction false} MirrorOneSweep(bar: Bar, levels: Levels)
    ensures HighSweep(MirrorBar(bar), MirrorLevels(levels)) == MirrorEvents(LowSweep(bar, levels))
    ensures LowSweep(MirrorBar(bar), MirrorLevels(levels)) == MirrorEvents(HighSweep(bar, levels))
  {
  }

  lemma {:induction false} MirrorConcat(a: seq<Event>, b: seq<Event>)
    ensures MirrorEvents(a + b) == MirrorEvents(a) + MirrorEvents(b)
  {
  }

  /** The break test commutes with the mirror, except that a crossed close counts as upward on both sides. */
  lemma {:induction false} MirrorBreak(bar: Bar, levels: Levels)
    ensures Crossed(bar, levels) ==>
      Upward(BreakOf(bar, levels)) && Upward(BreakOf(MirrorBar(bar), MirrorLevels(levels)))
    ensures !Crossed(bar, levels) ==>
      BreakOf(MirrorBar(bar), MirrorLevels(levels)) == MirrorBreakOf(BreakOf(bar, levels))
  {
  }

  predicate Upward(broken: Option<(Direction, real)>) {
    broken.Some? && broken.value.0 == Bull
  }

  function MirrorBreakOf(broken: Option<(Direction, real)>): Option<(Direction, real)> {
    match broken
    case None => None
    case Some((d, level)) => Some((Flip(d), -level))
  }

  // ----- trends

  /** The latest of the first `count` bars that closes beyond a level. */
  function LastBreakBar(bars: seq<Bar>, levels: seq<Levels>, count: nat): (last: Option<nat>)
    requires count <= |bars| == |levels|
    ensures last.Some? ==> last.value < count
  {
    if count == 0 then None
    else if BreakOf(bars[count - 1], levels[count - 1]).Some? then Some(count - 1)
    else LastBreakBar(bars, levels, count - 1)
  }

  predicate LastBreakCrossed(bars: seq<Bar>, levels: seq<Levels>, count: nat)
    requires count <= |bars| == |levels|
  {
    var last := LastBreakBar(bars, levels, count);
    last.Some? && Crossed(bars[last.value], levels[last.value])
  }

  /**
   The last break alone sets the trend: after a crossed one both trends are upward, and otherwise
   they mirror each other.
   */
  lemma {:induction false} MirrorTrendBefore(
    bars: seq<Bar>, levels: seq<Levels>, levels': seq<Levels>, count: nat)
    requires count <= |bars| == |levels| && MirroredLevels(levels, levels')
    ensures var trend, trend' := TrendBefore(bars, levels, count), TrendBefore(Mirror(bars), levels', count);
      if LastBreakCrossed(bars, levels, count) then trend == trend' == Going(Bull) else trend' == MirrorTrend(trend)
  {
    hide BreakOf, Crossed;
    if count == 0 {
    } else {
      MirrorTrendBefore(bars, levels, levels', count - 1);
      MirrorBreak(bars[count - 1], levels[count - 1]);
    }
  }

  // ----- bars

  /** Bar `i` of the mirrored run emits the mirrored events (two sweeps may swap places) and order block. */
  ghost predicate BarMirrored(bars: seq<Bar>, levels: seq<Levels>, levels': seq<Levels>, i: nat)
    requires i < |bars| == |levels| == |levels'|
  {
    && multiset(EventsOfBar(Mirror(bars), levels', i)) == multiset(MirrorEvents(EventsOfBar(bars, levels, i)))
    && BlocksOfBar(Mirror(bars), levels', i) == MirrorBlocks(BlocksOfBar(bars, levels, i))
  }

  /** The bar itself is not crossed, and if it breaks a level, the break before it was not crossed either. */
  predicate Symmetric(bars: seq<Bar>, levels: seq<Levels>, i: nat)
    requires i < |bars| == |levels|
  {
    && !Crossed(bars[i], levels[i])
    && (BreakOf(bars[i], levels[i]).None? || !LastBreakCrossed(bars, levels, i))
  }

  lemma {:induction false} SymmetricBarMirrored(bars: seq<Bar>, levels: seq<Levels>, levels': seq<Levels>, i: nat)
    requires i < |bars| == |levels| && MirroredLevels(levels, levels')
    requires Symmetric(bars, levels, i)
    ensures BarMirrored(bars, levels, levels', i)
  {
    hide Crossed, BreakOf, LastBreakCrossed, SweepEvents, TrendBefore, MirrorTrend;
    var bar, level := bars[i], levels[i];
    var trend, trend' := TrendBefore(bars, levels, i), TrendBefore(Mirror(bars), levels', i);
    MirrorTrendBefore(bars, levels, levels', i);
    MirrorSweeps(bar, level);
    MirrorBreak(bar, level);
    MirrorReaction(bars, i, level, trend, trend');
    hide BreakEvents, BlocksOf;
    ConcatMirrored(SweepEvents(bar, level), BreakEvents(bar, level, trend),
      SweepEvents(Mirror(bars)[i], levels'[i]), BreakEvents(Mirror(bars)[i], levels'[i], trend'));
  }

  /** Mirrored breaks from mirrored trends, or no breaks at all, give mirrored events and order blocks. */
  lemma {:induction false} MirrorReaction(bars: seq<Bar>, i: nat, levels: Levels, trend: Trend, trend': Trend)
    requires i < |bars| && (BreakOf(bars[i], levels).None? || trend' == MirrorTrend(trend))
    requires BreakOf(MirrorBar(bars[i]), MirrorLevels(levels)) == MirrorBreakOf(BreakOf(bars[i], levels))
    ensures BreakEvents(MirrorBar(bars[i]), MirrorLevels(levels), trend') ==
      MirrorEvents(BreakEvents(bars[i], levels, trend))
    ensures BlocksOf(Mirror(bars), i, MirrorLevels(levels), trend') == MirrorBlocks(BlocksOf(bars, i, levels, trend))
  {
    hide BreakOf;
  }

  lemma {:induction false} ConcatMirrored(
    sweeps: seq<Event>, breaks: seq<Event>, sweeps': seq<Event>, breaks': seq<Event>)
    requires multiset(sweeps') == multiset(MirrorEvents(sweeps)) && breaks' == MirrorEvents(breaks)
    ensures multiset(sweeps' + breaks') == multiset(MirrorEvents(sweeps + breaks))
  {
    MirrorConcat(sweeps, breaks);
  }

  /**
   At a crossed bar both runs break upward. At a break after a crossed one both trends are upward, so
   one run takes the break for a BOS and the other for a CHOCH. Either way the bars are no mirror images.
   */
  lemma {:induction false} AsymmetricBarNotMirrored(bars: seq<Bar>, levels: seq<Levels>, levels': seq<Levels>, i: nat)
    requires i < |bars| == |levels| && MirroredLevels(levels, levels')
    requires !Symmetric(bars, levels, i)
    ensures !BarMirrored(bars, levels, levels', i)
  {
    hide Crossed, BreakOf, LastBreakCrossed, SweepEvents, TrendBefore;
    var bar, level := bars[i], levels[i];
    var trend, trend' := TrendBefore(bars, levels, i), TrendBefore(Mirror(bars), levels', i);
    MirrorTrendBefore(bars, levels, levels', i);
    MirrorBreak(bar, level);
    BreaksClash(bar, level, trend, trend');
    SweepsAreSweeps(bar, level);
    hide BreakEvents;
    var e :| Unpaired(e, BreakEvents(Mirror(bars)[i], levels'[i], trend'), BreakEvents(bar, level, trend));
    Unmatched(EventsOfBar(Mirror(bars), levels', i), SweepEvents(bar, level), BreakEvents(bar, level, trend), e);
  }

  lemma {:induction false} BreaksClash(bar: Bar, levels: Levels, trend: Trend, trend': Trend)
    requires
      || (Upward(BreakOf(bar, levels)) && Upward(BreakOf(MirrorBar(bar), MirrorLevels(levels))))
      || (BreakOf(bar, levels).Some? && trend == trend' == Going(Bull)
          && BreakOf(MirrorBar(bar), MirrorLevels(levels)) == MirrorBreakOf(BreakOf(bar, levels)))
    ensures exists e :: Unpaired(
      e, BreakEvents(MirrorBar(bar), MirrorLevels(levels), trend'), BreakEvents(bar, levels, trend))
  {
    hide BreakOf;
    var events, events' := BreakEvents(bar, levels, trend), BreakEvents(MirrorBar(bar), MirrorLevels(levels), trend');
    assert |events| == |events'| == 1;
    assert MirrorEvents(events) == [MirrorEvent(events[0])];
    assert Unpaired(events'[0], events', events);
  }

  /** A break among these that mirrors none of those. */
  ghost predicate Unpaired(e: Event, breaks': seq<Event>, breaks: seq<Event>) {
    e in breaks' && e !in MirrorEvents(breaks) && e.kind != Sweep
  }

  lemma {:induction false} SweepsAreSweeps(bar: Bar, levels: Levels)
    ensures forall e :: e in SweepEvents(bar, levels) ==> e.kind == Sweep
  {
  }

  /** An event that is no sweep and no mirrored break has no counterpart. */
  lemma {:induction false} Unmatched(events': seq<Event>, sweeps: seq<Event>, breaks: seq<Event>, e: Event)
    requires e in events' && e.kind != Sweep && e !in MirrorEvents(breaks)
    requires forall x :: x in sweeps ==> x.kind == Sweep
    ensures multiset(events') != multiset(MirrorEvents(sweeps + breaks))
  {
    MirrorConcat(sweeps, breaks);
    forall x | x in MirrorEvents(sweeps)
      ensures x.kind == Sweep
    {
      var k :| 0 <= k < |sweeps| && MirrorEvents(sweeps)[k] == x;
      assert sweeps[k] in sweeps;
    }
    assert e in multiset(events');
  }

  /**
   Mirror duality of the trend automaton. A bar of the mirrored run mirrors the same bar of the run
   exactly when its close is not beyond both levels and, if it breaks a level, the break before it was
   not either. So all bars do if and only if no close lies beyond both levels. The final trend is
   mirrored exactly when the last break of the series is not beyond both levels.
   */
  lemma {:induction false} TrendDuality(bars: seq<Bar>, left: nat, right: nat)
    ensures var levels, levels' := LevelTrace(bars, left, right), LevelTrace(Mirror(bars), left, right);
      && (forall i :: 0 <= i < |bars| ==> (BarMirrored(bars, levels, levels', i) <==> Symmetric(bars, levels, i)))
      && ((forall i :: 0 <= i < |bars| ==> BarMirrored(bars, levels, levels', i))
          <==> (forall i :: 0 <= i < |bars| ==> !Crossed(bars[i], levels[i])))
      && (Run(Mirror(bars), levels', |bars|).trend == MirrorTrend(Run(bars, levels, |bars|).trend)
          <==> !LastBreakCrossed(bars, levels, |bars|))
  {
    hide BarMirrored, Crossed, BreakOf, TrendBefore, Run;
    var levels, levels' := LevelTrace(bars, left, right), LevelTrace(Mirror(bars), left, right);
    MirrorLevelTrace(bars, left, right);
    forall i | 0 <= i < |bars|
      ensures BarMirrored(bars, levels, levels', i) <==> Symmetric(bars, levels, i)
    {
      if Symmetric(bars, levels, i) {
        SymmetricBarMirrored(bars, levels, levels', i);
      } else {
        AsymmetricBarNotMirrored(bars, levels, levels', i);
      }
    }
    AllSymmetricIff(bars, levels);
    MirrorTrendBefore(bars, levels, levels', |bars|);
    RunTrend(bars, levels, |bars|);
    RunTrend(Mirror(bars), levels', |bars|);
  }

  lemma {:induction false} AllSymmetricIff(bars: seq<Bar>, levels: seq<Levels>)
    requires |bars| == |levels|
    ensures (forall i :: 0 <= i < |bars| ==> Symmetric(bars, levels, i)) <==>
      (forall i :: 0 <= i < |bars| ==> !Crossed(bars[i], levels[i]))
  {
    hide Crossed, BreakOf;
    if forall i :: 0 <= i < |bars| ==> Symmetric(bars, levels, i) {
      forall i | 0 <= i < |bars|
        ensures !Crossed(bars[i], levels[i])
      {
        assert Symmetric(bars, levels, i);
      }
    }
  }

  lemma {:induction false} CrossingCandles() returns (bars: seq<Bar>)
    ensures |bars| == 7 && IncreasingTimes(bars)
    ensures forall i :: 0 <= i < |bars| ==> bars[i].low <= bars[i].close <= bars[i].high
    ensures bars[2].high == 12.0 && bars[3].high == 3.0 && bars[4].high == 5.0 && bars[5].high == 3.0
    ensures bars[0].low == 11.0 && bars[1].low == 10.0 && bars[2].low == 11.0
    ensures bars[3].low == 1.0 && bars[4].low == 1.0 && bars[5].low == 1.0 && bars[6].close == 7.0
  {
    bars := [
      Bar(0, 11.0, 12.0, 11.0, 11.0), Bar(1, 11.0, 12.0, 10.0, 11.0), Bar(2, 11.0, 12.0, 11.0, 11.0),
      Bar(3, 2.0, 3.0, 1.0, 2.0), Bar(4, 2.0, 5.0, 1.0, 2.0), Bar(5, 2.0, 3.0, 1.0, 2.0), Bar(6, 7.0, 8.0, 6.0, 7.0)];
  }

  /**
   Well-formed candles can be crossed: a swing low at 10, a fall, a swing high at 5, then a close
   at 7 that is above the one and below the other.
   */
  lemma {:induction false} CrossingHappens() returns (bars: seq<Bar>)
    ensures |bars| == 7 && IncreasingTimes(bars)
    ensures forall i :: 0 <= i < |bars| ==> bars[i].low <= bars[i].close <= bars[i].high
    ensures !BarMirrored(bars, LevelTrace(bars, 1, 1), LevelTrace(Mirror(bars), 1, 1), 6)
  {
    bars := CrossingCandles();
    CrossingLevels(bars);
    assert Crossed(bars[6], LevelsAt(bars, 1, 1, 6));
    hide *;
    CrossedSeries(bars, 1, 1, 6);
  }

  lemma {:induction false} CrossedSeries(bars: seq<Bar>, left: nat, right: nat, i: nat)
    requires i < |bars| && Crossed(bars[i], LevelsAt(bars, left, right, i))
    ensures !BarMirrored(bars, LevelTrace(bars, left, right), LevelTrace(Mirror(bars), left, right), i)
  {
    hide LevelsAt, BarMirrored, Crossed;
    TrendDuality(bars, left, right);
  }

  lemma {:induction false} CrossingLevels(bars: seq<Bar>)
    requires |bars| == 7
    requires bars[2].high == 12.0 && bars[3].high == 3.0 && bars[4].high == 5.0 && bars[5].high == 3.0
    requires bars[0].low == 11.0 && bars[1].low == 10.0 && bars[2].low == 11.0
    requires bars[3].low == 1.0 && bars[4].low == 1.0 && bars[5].low == 1.0
    ensures LevelsAt(bars, 1, 1, 6) == Levels(Some(PointAt(bars, 4, true)), Some(PointAt(bars, 1, false)))
  {
    LatestSwingIsLatest(bars, 1, 1, 6, true);
    LatestSwingIsLatest(bars, 1, 1, 6, false);
    hide LatestSwing;
    assert SwingAt(bars, 1, 1, 4, true);
    assert SwingAt(bars, 1, 1, 1, false);
    assert !Inside(bars, 5, 4, true);
    assert !Inside(bars, 2, 1, false) && !Inside(bars, 3, 4, false);
    assert !Inside(bars, 4, 3, false) && !Inside(bars, 5, 4, false);
  }

  // ----- fair value gaps

  function MirrorZone(z: Zone): Zone {
    Zone(z.timestamp, -z.lowLevel, -z.highLevel, !z.isBullish, z.isMitigated, z.mitigatedAt)
  }

  function MirrorZones(zones: seq<Zone>): (mirrored: seq<Zone>)
    ensures |mirrored| == |zones|
    ensures forall i :: 0 <= i < |zones| ==> mirrored[i] == MirrorZone(zones[i])
  {
    seq(|zones|, i requires 0 <= i < |zones| => MirrorZone(zones[i]))
  }

  lemma {:induction false} MirrorDetected(bars: seq<Bar>, count: nat)
    requires LowsBelowHighs(bars) && count <= |bars|
    ensures Detected(Mirror(bars), count) == MirrorZones(Detected(bars, count))
  {
    if count <= 2 {
    } else {
      MirrorDetected(bars, count - 1);
      MirrorZonesOfBar(bars, count - 1);
      MirrorZonesConcat(Detected(bars, count - 1), ZonesOfBar(bars, count - 1));
      hide ZonesOfBar, LowsBelowHighs;
    }
  }

  lemma {:induction false} MirrorZonesConcat(a: seq<Zone>, b: seq<Zone>)
    ensures MirrorZones(a + b) == MirrorZones(a) + MirrorZones(b)
  {
  }

  lemma {:induction false} MirrorZonesOfBar(bars: seq<Bar>, i: nat)
    requires LowsBelowHighs(bars) && 2 <= i < |bars|
    ensures ZonesOfBar(Mirror(bars), i) == MirrorZones(ZonesOfBar(bars, i))
  {
  }

  lemma {:induction false} MirrorMitigation(bars: seq<Bar>, z: Zone, i: nat)
    requires i <= |bars|
    ensures FirstMitigation(Mirror(bars), MirrorZone(z), i) == FirstMitigation(bars, z, i)
    decreases |bars| - i
  {
    if i < |bars| {
      assert Mitigates(Mirror(bars)[i], MirrorZone(z)) == Mitigates(bars[i], z);
      MirrorMitigation(bars, z, i + 1);
    }
  }

  /**
   Mirror duality of the gaps: bullish and bearish gaps swap, at the same bars and with the
   same mitigation times.
   */
  lemma {:induction false} GapDuality(bars: seq<Bar>)
    requires LowsBelowHighs(bars)
    ensures SettledAll(Mirror(bars), Detected(Mirror(bars), |bars|)) ==
      MirrorZones(SettledAll(bars, Detected(bars, |bars|)))
  {
    MirrorDetected(bars, |bars|);
    var zones := Detected(bars, |bars|);
    forall k | 0 <= k < |zones|
      ensures Settled(Mirror(bars), MirrorZone(zones[k])) == MirrorZone(Settled(bars, zones[k]))
    {
      MirrorMitigation(bars, zones[k], 2);
    }
  }
}
