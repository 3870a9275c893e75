/** What every run of the trend automaton keeps, whatever the bars are. */
module TrendSafety {
  import opened MarketData
  import opened Numbers
  import opened Swings
  import opened TrendAutomaton

  /** The direction of the last break of a log, BOS or CHOCH. */
  function LastBreak(events: seq<Event>): Trend {
    if events == [] then Neutral
    else
      var last := events[|events| - 1];
      if last.kind == Sweep then LastBreak(events[..|events| - 1]) else Going(last.direction)
  }

  /** A log in which every BOS continues the last break and every CHOCH turns away from it. */
  ghost predicate SafeLog(events: seq<Event>) {
    events == [] ||
    var last, before := events[|events| - 1], events[..|events| - 1];
    && SafeLog(before)
    && (last.kind == Bos ==> LastBreak(before) == Going(last.direction))
    && (last.kind == Choch ==> LastBreak(before) != Going(last.direction))
  }

  lemma {:induction false} SweepsKeepSafe(events: seq<Event>, sweeps: seq<Event>)
    requires SafeLog(events)
    requires forall k :: 0 <= k < |sweeps| ==> sweeps[k].kind == Sweep
    ensures SafeLog(events + sweeps) && LastBreak(events + sweeps) == LastBreak(events)
  {
    if sweeps == [] {
      assert events + sweeps == events;
    } else {
      var front := sweeps[..|sweeps| - 1];
      SweepsKeepSafe(events, front);
      assert (events + sweeps)[..|events + sweeps| - 1] == events + front;
    }
  }

  /** Sweeps followed by at most one break that respects the trend. */
  lemma {:induction false} BarKeepsSafe(events: seq<Event>, sweeps: seq<Event>, breaks: seq<Event>)
    requires SafeLog(events)
    requires forall k :: 0 <= k < |sweeps| ==> sweeps[k].kind == Sweep
    requires |breaks| <= 1
    requires breaks != [] ==>
      breaks[0].kind == if LastBreak(events) == Going(breaks[0].direction) then Bos else Choch
    ensures SafeLog(events + sweeps + breaks)
    ensures LastBreak(events + sweeps + breaks) ==
      if breaks == [] then LastBreak(events) else Going(breaks[0].direction)
  {
    hide SafeLog, LastBreak;
    SweepsKeepSafe(events, sweeps);
    if breaks == [] {
      assert events + sweeps + breaks == events + sweeps;
    } else {
      assert breaks == [breaks[0]];
      BreakKeepsSafe(events + sweeps, breaks[0]);
    }
  }

  lemma {:induction false} BreakKeepsSafe(events: seq<Event>, e: Event)
    requires SafeLog(events) && e.kind == if LastBreak(events) == Going(e.direction) then Bos else Choch
    ensures SafeLog(events + [e]) && LastBreak(events + [e]) == Going(e.direction)
  {
    assert (events + [e])[..|events + [e]| - 1] == events;
  }

  lemma {:induction false} SweepsOnly(bar: Bar, levels: Levels)
    ensures |SweepEvents(bar, levels)| <= 2
    ensures forall k :: 0 <= k < |SweepEvents(bar, levels)| ==> SweepEvents(bar, levels)[k].kind == Sweep
  {
  }

  /** Every run keeps a safe log, and its trend is the direction of the last break, neutral iff none. */
  lemma {:induction false} RunIsSafe(bars: seq<Bar>, levels: seq<Levels>, count: nat)
    requires count <= |bars| == |levels|
    ensures SafeLog(Run(bars, levels, count).events)
    ensures LastBreak(Run(bars, levels, count).events) == Run(bars, levels, count).trend
  {
    hide Run, SweepEvents, SafeLog, LastBreak, BreakEvents, TrendAfter;
    if count == 0 {
      NothingIsSafe(bars, levels);
    } else {
      var i := count - 1;
      var p := Run(bars, levels, i);
      RunIsSafe(bars, levels, i);
      RunStep(bars, levels, i);
      SweepsOnly(bars[i], levels[i]);
      BreakRespectsTrend(bars[i], levels[i], p.trend);
      BarKeepsSafe(p.events, SweepEvents(bars[i], levels[i]), BreakEvents(bars[i], levels[i], p.trend));
    }
  }

  lemma {:induction false} NothingIsSafe(bars: seq<Bar>, levels: seq<Levels>)
    requires |bars| == |levels|
    ensures SafeLog(Run(bars, levels, 0).events)
    ensures LastBreak(Run(bars, levels, 0).events) == Run(bars, levels, 0).trend
  {
  }

  lemma {:induction false} BreakRespectsTrend(bar: Bar, levels: Levels, trend: Trend)
    ensures var breaks := BreakEvents(bar, levels, trend);
      && |breaks| <= 1
      && (breaks != [] ==> breaks[0].kind == if trend == Going(breaks[0].direction) then Bos else Choch)
      && TrendAfter(bar, levels, trend) == if breaks == [] then trend else Going(breaks[0].direction)
  {
    hide BreakOf;
  }

  // ----- changes of character

  /** The changes of character of a log, in order. */
  function Chochs(events: seq<Event>): seq<Event> {
    if events == [] then []
    else
      var last := events[|events| - 1];
      Chochs(events[..|events| - 1]) + if last.kind == Choch then [last] else []
  }

  ghost predicate Alternating(chochs: seq<Event>) {
    forall k :: 0 < k < |chochs| ==> chochs[k - 1].direction != chochs[k].direction
  }

  /** The trend the most recent change of character set. */
  function Latest(chochs: seq<Event>): Trend {
    if chochs == [] then Neutral else Going(chochs[|chochs| - 1].direction)
  }

  /** In a safe log the changes of character alternate, and the last break agrees with the latest of them. */
  lemma {:induction false} SafeLogAlternates(events: seq<Event>)
    requires SafeLog(events)
    ensures Alternating(Chochs(events))
    ensures Latest(Chochs(events)) == LastBreak(events)
  {
    if events == [] {
    } else {
      SafeLogAlternates(events[..|events| - 1]);
    }
  }

  /** Every BOS of a safe log goes in the direction of the most recent CHOCH before it. */
  lemma {:induction false} BosFollowsChoch(events: seq<Event>, k: nat)
    requires SafeLog(events) && k < |events| && events[k].kind == Bos
    ensures Latest(Chochs(events[..k])) == Going(events[k].direction)
  {
    var before := events[..|events| - 1];
    if k == |before| {
      SafeLogAlternates(before);
    } else {
      BosFollowsChoch(before, k);
      assert before[..k] == events[..k];
    }
  }

  /**
   The automaton's contract on every run: CHOCH directions strictly alternate, every BOS goes the
   way of the most recent CHOCH, and the reported trend is the direction of the latest CHOCH.
   */
  lemma {:induction false} TrendContract(bars: seq<Bar>, levels: seq<Levels>, count: nat)
    requires count <= |bars| == |levels|
    ensures var p := Run(bars, levels, count);
      && Alternating(Chochs(p.events))
      && p.trend == Latest(Chochs(p.events))
      && (forall k :: 0 <= k < |p.events| && p.events[k].kind == Bos ==>
        Latest(Chochs(p.events[..k])) == Going(p.events[k].direction))
  {
    var p := Run(bars, levels, count);
    RunIsSafe(bars, levels, count);
    SafeLogAlternates(p.events);
    forall k | 0 <= k < |p.events| && p.events[k].kind == Bos
      ensures Latest(Chochs(p.events[..k])) == Going(p.events[k].direction)
    {
      BosFollowsChoch(p.events, k);
    }
  }

  /** A bar emits at most two events and at most one order block; a sweep and a break have the same direction. */
  lemma {:induction false} EventsPerBar(bars: seq<Bar>, levels: seq<Levels>, i: nat)
    requires i < |bars| == |levels|
    ensures |EventsOfBar(bars, levels, i)| <= 2
    ensures |BlocksOfBar(bars, levels, i)| <= 1
    ensures forall a, b :: 0 <= a < b < |EventsOfBar(bars, levels, i)| ==>
      EventsOfBar(bars, levels, i)[a].kind == Sweep &&
      (EventsOfBar(bars, levels, i)[b].kind != Sweep ==>
        EventsOfBar(bars, levels, i)[a].direction == EventsOfBar(bars, levels, i)[b].direction)
  {
  }

  // ----- order blocks

  /** The change of character of bar `i`, if there is one. */
  function ChochAt(bars: seq<Bar>, levels: seq<Levels>, i: nat): seq<Event>
    requires i < |bars| == |levels|
  {
    match BreakOf(bars[i], levels[i])
    case None => []
    case Some((d, level)) =>
      if TrendBefore(bars, levels, i) == Going(d) then [] else [Event(Choch, d, bars[i].time, level)]
  }

  /** The bars at which the character changes. */
  function ChochBars(bars: seq<Bar>, levels: seq<Levels>, count: nat): seq<nat>
    requires count <= |bars| == |levels|
  {
    if count == 0 then []
    else ChochBars(bars, levels, count - 1) + if ChochAt(bars, levels, count - 1) == [] then [] else [count - 1]
  }

  /** No swing lies before the first bar. */
  ghost predicate StartsBlank(bars: seq<Bar>, levels: seq<Levels>) {
    |levels| == |bars| && (|levels| > 0 ==> levels[0] == Levels(None, None))
  }

  lemma {:induction false} LevelTraceStartsBlank(bars: seq<Bar>, left: nat, right: nat)
    ensures StartsBlank(bars, LevelTrace(bars, left, right))
  {
  }

  /** The order block a change of character at bar `i` leaves: the candle just before. */
  ghost predicate LeavesBlock(bars: seq<Bar>, i: nat, e: Event, block: OrderBlock) {
    && 1 <= i < |bars|
    && e.timestamp == bars[i].time
    && block == OrderBlock(bars[i - 1].time, bars[i - 1].high, bars[i - 1].low, e.direction == Bull)
  }

  ghost predicate SidesAlternate(blocks: seq<OrderBlock>) {
    forall k :: 0 < k < |blocks| ==> blocks[k - 1].isBullish != blocks[k].isBullish
  }

  ghost predicate Matched(bars: seq<Bar>, chochs: seq<Event>, blocks: seq<OrderBlock>, at: seq<nat>, count: nat) {
    && |blocks| == |chochs| == |at|
    && (forall k :: 0 <= k < |at| ==> at[k] < count && LeavesBlock(bars, at[k], chochs[k], blocks[k]))
    && (forall k :: 0 < k < |at| ==> at[k - 1] < at[k])
  }

  /** Each CHOCH leaves exactly one order block: the k-th block is the candle before the k-th CHOCH. */
  lemma {:induction false} BlocksMatchChochs(bars: seq<Bar>, levels: seq<Levels>, count: nat)
    requires count <= |bars| && StartsBlank(bars, levels)
    ensures var p := Run(bars, levels, count);
      Matched(bars, Chochs(p.events), p.blocks, ChochBars(bars, levels, count), count)
  {
    hide Run, Chochs, ChochBars, ChochAt, BlocksOfBar, EventsOfBar, Matched, LeavesBlock;
    if count == 0 {
      NothingMatched(bars, levels);
    } else {
      var i := count - 1;
      BlocksMatchChochs(bars, levels, i);
      BlockOfChoch(bars, levels, i);
      ChochStep(bars, levels, i);
      BlockStep(bars, levels, i);
      MatchedAppend(bars, Chochs(Run(bars, levels, i).events), Run(bars, levels, i).blocks, ChochBars(bars, levels, i),
        ChochAt(bars, levels, i), BlocksOfBar(bars, levels, i), i);
    }
  }

  lemma {:induction false} NothingMatched(bars: seq<Bar>, levels: seq<Levels>)
    requires |bars| == |levels|
    ensures var p := Run(bars, levels, 0);
      Matched(bars, Chochs(p.events), p.blocks, ChochBars(bars, levels, 0), 0)
  {
  }

  lemma {:induction false} BlockStep(bars: seq<Bar>, levels: seq<Levels>, i: nat)
    requires i < |bars| == |levels|
    ensures Run(bars, levels, i + 1).blocks == Run(bars, levels, i).blocks + BlocksOfBar(bars, levels, i)
    ensures ChochBars(bars, levels, i + 1) ==
      ChochBars(bars, levels, i) + if ChochAt(bars, levels, i) == [] then [] else [i]
  {
    hide BlocksOfBar, EventsOfBar, ChochAt;
  }

  lemma {:induction false} ChochStep(bars: seq<Bar>, levels: seq<Levels>, i: nat)
    requires i < |bars| == |levels|
    ensures Chochs(Run(bars, levels, i + 1).events) == Chochs(Run(bars, levels, i).events) + ChochAt(bars, levels, i)
  {
    ChochsAppend(Run(bars, levels, i).events, EventsOfBar(bars, levels, i));
    ChochsOfBar(bars, levels, i);
  }

  lemma {:induction false} BlockOfChoch(bars: seq<Bar>, levels: seq<Levels>, i: nat)
    requires i < |bars| && StartsBlank(bars, levels)
    ensures |BlocksOfBar(bars, levels, i)| == |ChochAt(bars, levels, i)| <= 1
    ensures ChochAt(bars, levels, i) != [] ==>
      LeavesBlock(bars, i, ChochAt(bars, levels, i)[0], BlocksOfBar(bars, levels, i)[0])
  {
  }

  lemma {:induction false} MatchedAppend(bars: seq<Bar>, chochs: seq<Event>, blocks: seq<OrderBlock>, at: seq<nat>,
                      moreChochs: seq<Event>, moreBlocks: seq<OrderBlock>, i: nat)
    requires Matched(bars, chochs, blocks, at, i)
    requires |moreChochs| == |moreBlocks| <= 1
    requires moreChochs != [] ==> LeavesBlock(bars, i, moreChochs[0], moreBlocks[0])
    ensures Matched(bars, chochs + moreChochs, blocks + moreBlocks, at + (if moreChochs == [] then [] else [i]),
      i + 1)
  {
  }

  lemma {:induction false} ChochsAppend(s: seq<Event>, t: seq<Event>)
    ensures Chochs(s + t) == Chochs(s) + Chochs(t)
  {
    if t == [] {
      assert s + t == s;
    } else {
      assert (s + t)[..|s + t| - 1] == s + t[..|t| - 1];
      ChochsAppend(s, t[..|t| - 1]);
    }
  }

  lemma {:induction false} ChochsOfBar(bars: seq<Bar>, levels: seq<Levels>, i: nat)
    requires i < |bars| == |levels|
    ensures Chochs(EventsOfBar(bars, levels, i)) == ChochAt(bars, levels, i)
  {
    var sweeps := SweepEvents(bars[i], levels[i]);
    var breaks := BreakEvents(bars[i], levels[i], TrendBefore(bars, levels, i));
    SweepsOnly(bars[i], levels[i]);
    hide SweepEvents;
    ChochsAppend(sweeps, breaks);
    NoChochs(sweeps);
    assert breaks != [] ==> breaks[..0] == [];
  }

  lemma {:induction false} NoChochs(s: seq<Event>)
    requires forall k :: 0 <= k < |s| ==> s[k].kind != Choch
    ensures Chochs(s) == []
  {
    if s == [] {
    } else {
      NoChochs(s[..|s| - 1]);
    }
  }

  // ----- which candle the comments beside the code have in mind

  /** The candle closes against the direction. */
  predicate Opposite(bar: Bar, d: Direction) {
    if d == Bull then bar.close < bar.open else bar.close > bar.open
  }

  /** Bar `j` is the last candle before bar `i` that closes against the direction. */
  ghost predicate IsLastOpposite(bars: seq<Bar>, i: nat, j: nat, d: Direction)
    requires i <= |bars|
  {
    && j < i
    && Opposite(bars[j], d)
    && forall k :: j < k < i ==> !Opposite(bars[k], d)
  }

  function BlockAt(bars: seq<Bar>, j: nat, d: Direction): OrderBlock
    requires j < |bars|
  {
    OrderBlock(bars[j].time, bars[j].high, bars[j].low, d == Bull)
  }

  /** The block is the last opposite candle before bar `i`. */
  ghost predicate FromLastOpposite(bars: seq<Bar>, i: nat, block: OrderBlock, d: Direction)
    requires i <= |bars|
  {
    exists j: nat :: IsLastOpposite(bars, i, j, d) && block == BlockAt(bars, j, d)
  }

  /**
   The order block of a change of character is meant to be the last opposite candle before it. It is
   exactly when the candle just before, which the code takes unseen, closes against the new direction.
   */
  lemma {:induction false} BlockIsLastOppositeIff(bars: seq<Bar>, levels: seq<Levels>, count: nat, k: nat)
    requires count <= |bars| && StartsBlank(bars, levels) && IncreasingTimes(bars)
    requires k < |Run(bars, levels, count).blocks|
    ensures var p, at := Run(bars, levels, count), ChochBars(bars, levels, count);
      && |at| == |Chochs(p.events)| == |p.blocks| && 1 <= at[k] < count
      && var d := Chochs(p.events)[k].direction;
        FromLastOpposite(bars, at[k], p.blocks[k], d) <==> Opposite(bars[at[k] - 1], d)
  {
    hide Run, Chochs, ChochBars;
    BlocksMatchChochs(bars, levels, count);
    var p, at := Run(bars, levels, count), ChochBars(bars, levels, count);
    CandleBeforeIff(bars, at[k], Chochs(p.events)[k].direction);
  }

  lemma {:induction false} CandleBeforeIff(bars: seq<Bar>, i: nat, d: Direction)
    requires 1 <= i < |bars| && IncreasingTimes(bars)
    ensures FromLastOpposite(bars, i, BlockAt(bars, i - 1, d), d) <==> Opposite(bars[i - 1], d)
  {
    hide Opposite;
    if Opposite(bars[i - 1], d) {
      assert IsLastOpposite(bars, i, i - 1, d);
    }
    forall j: nat | IsLastOpposite(bars, i, j, d) && BlockAt(bars, i - 1, d) == BlockAt(bars, j, d)
      ensures j == i - 1
    {
      assert bars[j].time == bars[i - 1].time;
    }
  }

  /** Three rising candles, each above the one before. */
  function RisingCandles(): seq<Bar> {
    [Bar(0, 1.0, 3.0, 0.0, 2.0), Bar(1, 3.0, 5.0, 2.0, 4.0), Bar(2, 5.0, 7.0, 4.0, 6.0)]
  }

  /** So a bullish order block can be a rising candle, in a series that has no falling one at all. */
  lemma {:induction false} BlockCanBeSameColour()
    ensures var bars := RisingCandles();
      var p := Run(bars, LevelTrace(bars, 0, 0), 3);
      && IncreasingTimes(bars) && StartsBlank(bars, LevelTrace(bars, 0, 0))
      && p.blocks == [BlockAt(bars, 0, Bull)]
      && !FromLastOpposite(bars, 1, p.blocks[0], Bull)
  {
    var bars := RisingCandles();
    var levels := LevelTrace(bars, 0, 0);
    assert SwingAt(bars, 0, 0, 0, true) && SwingAt(bars, 0, 0, 1, true);
    assert SwingAt(bars, 0, 0, 0, false) && SwingAt(bars, 0, 0, 1, false);
    LevelTraceStartsBlank(bars, 0, 0);
    assert levels[1] == Levels(Some(PointAt(bars, 0, true)), Some(PointAt(bars, 0, false)));
    assert levels[2] == Levels(Some(PointAt(bars, 1, true)), Some(PointAt(bars, 1, false)));
    hide LevelTrace, Run;
    OneRisingBlock(bars, levels);
    CandleBeforeIff(bars, 1, Bull);
  }

  lemma {:induction false} OneRisingBlock(bars: seq<Bar>, levels: seq<Levels>)
    requires bars == RisingCandles() && |levels| == 3 && levels[0] == Levels(None, None)
    requires levels[1] == Levels(Some(PointAt(bars, 0, true)), Some(PointAt(bars, 0, false)))
    requires levels[2] == Levels(Some(PointAt(bars, 1, true)), Some(PointAt(bars, 1, false)))
    ensures Run(bars, levels, 3).blocks == [BlockAt(bars, 0, Bull)]
  {
    assert TrendBefore(bars, levels, 1) == Neutral;
    assert TrendBefore(bars, levels, 2) == Going(Bull);
    assert BlocksOfBar(bars, levels, 0) == [] && BlocksOfBar(bars, levels, 2) == [];
    assert BlocksOfBar(bars, levels, 1) == [BlockAt(bars, 0, Bull)];
    hide BlocksOfBar, EventsOfBar, TrendBefore;
    NoBlocksYet(bars, levels);
    BlockStep(bars, levels, 0);
    BlockStep(bars, levels, 1);
    BlockStep(bars, levels, 2);
  }

  lemma {:induction false} NoBlocksYet(bars: seq<Bar>, levels: seq<Levels>)
    requires |bars| == |levels|
    ensures Run(bars, levels, 0).blocks == []
  {
  }

  // ----- the published tails

  /** `s[-n:]` for a positive n. */
  function Tail<T>(s: seq<T>, n: nat): seq<T> {
    if |s| <= n then s else s[|s| - n..]
  }

  lemma {:induction false} TailAlternates(events: seq<Event>, n: nat)
    requires Alternating(Chochs(events))
    ensures Alternating(Chochs(Tail(events, n)))
  {
    var cut := if |events| <= n then 0 else |events| - n;
    var dropped, kept := Chochs(events[..cut]), Chochs(events[cut..]);
    assert events == events[..cut] + events[cut..];
    ChochsAppend(events[..cut], events[cut..]);
    assert Tail(events, n) == events[cut..];
    forall k | 0 < k < |kept|
      ensures kept[k - 1].direction != kept[k].direction
    {
      assert kept[k - 1] == (dropped + kept)[|dropped| + k - 1] && kept[k] == (dropped + kept)[|dropped| + k];
    }
  }

  /** Keeping only recent events and recent order blocks keeps both alternating. */
  lemma {:induction false} TailsAlternate(bars: seq<Bar>, levels: seq<Levels>, n: nat, m: nat)
    requires StartsBlank(bars, levels)
    ensures Alternating(Chochs(Tail(Run(bars, levels, |bars|).events, n)))
    ensures SidesAlternate(Tail(Run(bars, levels, |bars|).blocks, m))
  {
    TrendContract(bars, levels, |bars|);
    TailAlternates(Run(bars, levels, |bars|).events, n);
    AllBlocksAlternate(bars, levels);
  }

  lemma {:induction false} AllBlocksAlternate(bars: seq<Bar>, levels: seq<Levels>)
    requires StartsBlank(bars, levels)
    ensures SidesAlternate(Run(bars, levels, |bars|).blocks)
  {
    var p := Run(bars, levels, |bars|);
    var at := ChochBars(bars, levels, |bars|);
    TrendContract(bars, levels, |bars|);
    BlocksMatchChochs(bars, levels, |bars|);
    forall k | 0 < k < |p.blocks|
      ensures p.blocks[k - 1].isBullish != p.blocks[k].isBullish
    {
      assert LeavesBlock(bars, at[k - 1], Chochs(p.events)[k - 1], p.blocks[k - 1]);
      assert LeavesBlock(bars, at[k], Chochs(p.events)[k], p.blocks[k]);
    }
  }

  // ----- what an event says

  /**
   The swing behind an event: a confirmed swing before the bar, at the event's level, on the side the
   event is about. A sweep passed the level and closed back inside; a break closed beyond it.
   */
  ghost predicate Grounded(bars: seq<Bar>, left: nat, right: nat, i: nat, e: Event, p: SwingPoint)
    requires i < |bars|
  {
    && Genuine(bars, left, right, p) && p.index < i
    && e.priceLevel == p.price && e.timestamp == bars[i].time
    && p.isHigh == ((e.kind == Sweep) == (e.direction == Bear))
    && (e.kind == Sweep ==>
      if p.isHigh then bars[i].close < p.price < bars[i].high else bars[i].low < p.price < bars[i].close)
    && (e.kind != Sweep ==> if p.isHigh then p.price < bars[i].close else bars[i].close < p.price)
  }

  /** Every event of every run refers to a confirmed earlier swing that the bar really swept or broke. */
  lemma {:induction false} EventsGrounded(bars: seq<Bar>, left: nat, right: nat, i: nat, e: Event)
    requires i < |bars| && e in EventsOfBar(bars, LevelTrace(bars, left, right), i)
    ensures exists p :: Grounded(bars, left, right, i, e, p)
  {
    var levels := LevelsAt(bars, left, right, i);
    LatestSwingIsLatest(bars, left, right, i, true);
    LatestSwingIsLatest(bars, left, right, i, false);
    hide LatestSwing, SwingAt, TrendBefore;
    if (e.kind == Sweep) == (e.direction == Bear) {
      assert Grounded(bars, left, right, i, e, levels.high.value);
    } else {
      assert Grounded(bars, left, right, i, e, levels.low.value);
    }
  }

  /** The last swing of its kind that is confirmed and lies before bar `i`. */
  ghost predicate LatestOfKind(bars: seq<Bar>, left: nat, right: nat, i: nat, p: SwingPoint)
    requires i <= |bars|
  {
    && Genuine(bars, left, right, p) && p.index < i
    && forall j :: p.index < j < i ==> !SwingAt(bars, left, right, j, p.isHigh)
  }

  lemma {:induction false} LatestOfKindIs(bars: seq<Bar>, left: nat, right: nat, i: nat, p: SwingPoint)
    requires i <= |bars|
    ensures LatestOfKind(bars, left, right, i, p) <==> LatestSwing(bars, left, right, i, p.isHigh) == Some(p)
  {
    LatestSwingIsLatest(bars, left, right, i, p.isHigh);
    hide SwingAt, LatestSwing;
  }

  /** The wick of the bar passes the level and the close is strictly back inside. */
  predicate SweptBack(bar: Bar, p: SwingPoint) {
    if p.isHigh then bar.close < p.price < bar.high else bar.low < p.price < bar.close
  }

  predicate ClosesBeyond(bar: Bar, p: SwingPoint) {
    if p.isHigh then p.price < bar.close else bar.close < p.price
  }

  /** The bar closes above the latest swing high. */
  ghost predicate BreaksHigh(bars: seq<Bar>, left: nat, right: nat, i: nat)
    requires i < |bars|
  {
    exists q :: LatestOfKind(bars, left, right, i, q) && q.isHigh && ClosesBeyond(bars[i], q)
  }

  /**
   Completeness: at every bar each of the two latest swings is reported swept if and only if the bar swept
   it, and reported broken if and only if the bar closed beyond it, a swing low only if the latest swing
   high is not broken too.
   */
  lemma {:induction false} EventsComplete(bars: seq<Bar>, left: nat, right: nat, i: nat, p: SwingPoint)
    requires i < |bars| && LatestOfKind(bars, left, right, i, p)
    ensures var events := EventsOfBar(bars, LevelTrace(bars, left, right), i);
      && (ReportsSweep(events, bars[i], p) <==> SweptBack(bars[i], p))
      && (ReportsBreak(events, bars[i], p) <==>
            ClosesBeyond(bars[i], p) && (p.isHigh || !BreaksHigh(bars, left, right, i)))
  {
    hide LatestOfKind, LatestSwing, TrendBefore, SweepEvents, BreakEvents, BreaksHigh, BreaksUp;
    hide SweptBack, ClosesBeyond, ReportsSweep, ReportsBreak;
    LatestOfKindIs(bars, left, right, i, p);
    HighBroken(bars, left, right, i);
    var levels, trend := LevelsAt(bars, left, right, i), TrendBefore(bars, LevelTrace(bars, left, right), i);
    SweepReported(bars[i], levels, p);
    BreakReported(bars[i], levels, trend, p);
    ReportsAppend(SweepEvents(bars[i], levels), BreakEvents(bars[i], levels, trend), bars[i], p);
  }

  /** The log says that the bar swept the swing. */
  ghost predicate ReportsSweep(events: seq<Event>, bar: Bar, p: SwingPoint) {
    Event(Sweep, if p.isHigh then Bear else Bull, bar.time, p.price) in events
  }

  /** The log says that the bar closed beyond the swing. */
  ghost predicate ReportsBreak(events: seq<Event>, bar: Bar, p: SwingPoint) {
    var d := if p.isHigh then Bull else Bear;
    Event(Bos, d, bar.time, p.price) in events || Event(Choch, d, bar.time, p.price) in events
  }

  lemma {:induction false} ReportsAppend(sweeps: seq<Event>, breaks: seq<Event>, bar: Bar, p: SwingPoint)
    requires forall e :: e in sweeps ==> e.kind == Sweep
    requires forall e :: e in breaks ==> e.kind != Sweep
    ensures ReportsSweep(sweeps + breaks, bar, p) <==> ReportsSweep(sweeps, bar, p)
    ensures ReportsBreak(sweeps + breaks, bar, p) <==> ReportsBreak(breaks, bar, p)
  {
  }

  lemma {:induction false} HighBroken(bars: seq<Bar>, left: nat, right: nat, i: nat)
    requires i < |bars|
    ensures BreaksHigh(bars, left, right, i) <==> BreaksUp(bars[i], LevelsAt(bars, left, right, i))
  {
    hide LatestOfKind, LatestSwing;
    var high := LatestSwing(bars, left, right, i, true);
    LatestSwingIsLatest(bars, left, right, i, true);
    if high.Some? {
      LatestOfKindIs(bars, left, right, i, high.value);
    }
    forall q | LatestOfKind(bars, left, right, i, q) && q.isHigh
      ensures high == Some(q)
    {
      LatestOfKindIs(bars, left, right, i, q);
    }
  }

  lemma {:induction false} SweepReported(bar: Bar, levels: Levels, p: SwingPoint)
    requires if p.isHigh then levels.high == Some(p) else levels.low == Some(p)
    ensures ReportsSweep(SweepEvents(bar, levels), bar, p) <==> SweptBack(bar, p)
    ensures forall e :: e in SweepEvents(bar, levels) ==> e.kind == Sweep
  {
  }

  lemma {:induction false} BreakReported(bar: Bar, levels: Levels, trend: Trend, p: SwingPoint)
    requires if p.isHigh then levels.high == Some(p) else levels.low == Some(p)
    ensures ReportsBreak(BreakEvents(bar, levels, trend), bar, p) <==>
      ClosesBeyond(bar, p) && (p.isHigh || !BreaksUp(bar, levels))
    ensures forall e :: e in BreakEvents(bar, levels, trend) ==> e.kind != Sweep
  {
    var events := BreakEvents(bar, levels, trend);
    if events != [] {
      assert events[0] in events;
      assert events == [Event(events[0].kind, events[0].direction, bar.time, events[0].priceLevel)];
    }
  }
}
