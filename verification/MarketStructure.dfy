/** The whole analysis: swings, gaps with mitigation, trend automaton, truncated reports. */
module MarketStructure {
  import opened MarketData
  import opened Numbers
  import opened Swings
  import opened FairValueGaps
  import opened TrendAutomaton
  import opened TrendSafety

  datatype MarketStructureResult = MarketStructureResult(
    trend: Trend,
    swings: seq<SwingPoint>,
    activeFvgs: seq<FVGZone>,
    activeOrderBlocks: seq<OrderBlock>,
    events: seq<Event>)

  const RECENT_BLOCKS: nat := 10
  const RECENT_EVENTS: nat := 20

  /** What the trend pass has emitted after `count` bars; a series of fewer than three bars is not scanned. */
  function Emitted(bars: seq<Bar>, left: nat, right: nat, count: nat): Progress
    requires count <= |bars|
  {
    if |bars| < 3 then START else Run(bars, LevelTrace(bars, left, right), count)
  }

  /** The gaps still open at the end of the series. */
  function OpenGaps(bars: seq<Bar>): seq<Zone> {
    Active(SettledAll(bars, Detected(bars, |bars|)))
  }

  method AnalyzeMarketStructure(bars: seq<Bar>, left: nat, right: nat) returns (r: MarketStructureResult)
    ensures r.swings == AllSwings(bars, left, right)
    ensures var p := Emitted(bars, left, right, |bars|);
      && r.trend == p.trend
      && r.activeOrderBlocks == Tail(p.blocks, RECENT_BLOCKS)
      && r.events == Tail(p.events, RECENT_EVENTS)
    ensures Carry(r.activeFvgs, OpenGaps(bars))
    ensures forall k :: 0 <= k < |r.activeFvgs| ==> fresh(r.activeFvgs[k])
  {
    var swings := DetectSwingPoints(bars, left, right);
    if |bars| < 3 {
      return MarketStructureResult(Neutral, swings, [], [], []);
    }
    ghost var found := Detected(bars, |bars|);
    var zones := DetectGaps(bars);
    MarkMitigations(bars, zones, found);
    var p := TrackTrend(bars, left, right, swings);
    var open := Unmitigated(zones, SettledAll(bars, found));
    assert forall k :: 0 <= k < |open| ==> open[k] in zones;
    r := MarketStructureResult(p.trend, swings, open, Tail(p.blocks, RECENT_BLOCKS), Tail(p.events, RECENT_EVENTS));
  }

  /** The published events and order blocks alternate, for every series and every window size. */
  lemma {:induction false} PublishedTailsAlternate(bars: seq<Bar>, left: nat, right: nat)
    ensures var p := Emitted(bars, left, right, |bars|);
      && Alternating(Chochs(Tail(p.events, RECENT_EVENTS)))
      && SidesAlternate(Tail(p.blocks, RECENT_BLOCKS))
  {
    LevelTraceStartsBlank(bars, left, right);
    TailsAlternate(bars, LevelTrace(bars, left, right), RECENT_EVENTS, RECENT_BLOCKS);
  }

  /**
   On the input: a zone is published as active exactly when some bar opened it and no later bar has come
   back to the edge that bar left behind; zones come oldest first.
   */
  lemma {:induction false} PublishedGapsExact(bars: seq<Bar>, z: Zone)
    requires IncreasingTimes(bars)
    ensures z in OpenGaps(bars) <==> exists c :: OpenGap(bars, c, z)
    ensures OldestFirst(OpenGaps(bars))
  {
    hide OpenGap, Active, Detected, OldestFirst;
    OpenGapsExact(bars, z);
  }

  /** A list is the end of another and holds its last `n` entries, or all of them if there are fewer. */
  ghost predicate LastEntries<T>(published: seq<T>, all: seq<T>, n: nat) {
    && |published| == (if |all| < n then |all| else n)
    && all == all[..|all| - |published|] + published
  }

  /** What is published are the most recent 20 events and the most recent 10 order blocks. */
  lemma {:induction false} PublishedAreRecent(bars: seq<Bar>, left: nat, right: nat)
    ensures var p := Emitted(bars, left, right, |bars|);
      && LastEntries(Tail(p.events, RECENT_EVENTS), p.events, 20)
      && LastEntries(Tail(p.blocks, RECENT_BLOCKS), p.blocks, 10)
  {
    hide Emitted;
    var p := Emitted(bars, left, right, |bars|);
    TailIsEnd(p.events, 20);
    TailIsEnd(p.blocks, 10);
  }

  lemma {:induction false} TailIsEnd<T>(all: seq<T>, n: nat)
    ensures LastEntries(Tail(all, n), all, n)
  {
  }
}
