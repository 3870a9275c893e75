/**
 Fair value gaps: three-candle patterns whose first and third candle do not overlap.
 A gap is mitigated by the first later bar that trades back to its near edge.
 */
module FairValueGaps {
  import opened MarketData
  import opened Numbers

  /** The value of a zone object. */
  datatype Zone = Zone(
    timestamp: int, highLevel: real, lowLevel: real, isBullish: bool, isMitigated: bool, mitigatedAt: Option<int>)

  class FVGZone {
    const timestamp: int
    const highLevel: real
    const lowLevel: real
    const isBullish: bool
    var isMitigated: bool
    var mitigatedAt: Option<int>

    constructor (timestamp: int, highLevel: real, lowLevel: real, isBullish: bool)
      ensures Value() == Zone(timestamp, highLevel, lowLevel, isBullish, false, None)
    {
      this.timestamp := timestamp;
      this.highLevel := highLevel;
      this.lowLevel := lowLevel;
      this.isBullish := isBullish;
      this.isMitigated := false;
      this.mitigatedAt := None;
    }

    function Value(): Zone
      reads this
    {
      Zone(timestamp, highLevel, lowLevel, isBullish, isMitigated, mitigatedAt)
    }
  }

  // ----- specification

  function ZonesOfBar(bars: seq<Bar>, i: nat): seq<Zone>
    requires 2 <= i < |bars|
  {
    if bars[i].low > bars[i - 2].high then
      [Zone(bars[i].time, bars[i].low, bars[i - 2].high, true, false, None)]
    else if bars[i].high < bars[i - 2].low then
      [Zone(bars[i].time, bars[i - 2].low, bars[i].high, false, false, None)]
    else []
  }

  /** The gaps the first `count` bars form, oldest first. */
  function Detected(bars: seq<Bar>, count: nat): seq<Zone>
    requires count <= |bars|
  {
    if count <= 2 then [] else Detected(bars, count - 1) + ZonesOfBar(bars, count - 1)
  }

  /** The bar trades back to the edge of the gap that faces later prices. */
  predicate ReachesNearEdge(bar: Bar, z: Zone) {
    if z.isBullish then bar.low <= z.highLevel else bar.high >= z.lowLevel
  }

  predicate Mitigates(bar: Bar, z: Zone) {
    bar.time > z.timestamp && ReachesNearEdge(bar, z)
  }

  function FirstMitigation(bars: seq<Bar>, z: Zone, i: nat): (f: Option<nat>)
    requires i <= |bars|
    ensures f.Some? ==> i <= f.value < |bars|
    decreases |bars| - i
  {
    if i == |bars| then None
    else if Mitigates(bars[i], z) then Some(i)
    else FirstMitigation(bars, z, i + 1)
  }

  /** The zone after the mitigation scan over bars 2, 3, ... */
  function Settled(bars: seq<Bar>, z: Zone): Zone {
    if |bars| < 2 then z
    else match FirstMitigation(bars, z, 2)
      case None => z
      case Some(i) => z.(isMitigated := true, mitigatedAt := Some(bars[i].time))
  }

  function SettledAll(bars: seq<Bar>, zones: seq<Zone>): (settled: seq<Zone>)
    ensures |settled| == |zones|
    ensures forall k :: 0 <= k < |zones| ==> settled[k] == Settled(bars, zones[k])
  {
    seq(|zones|, k requires 0 <= k < |zones| => Settled(bars, zones[k]))
  }

  /** The zones still open, in order. */
  function Active(zones: seq<Zone>): seq<Zone> {
    if zones == [] then []
    else
      var last := zones[|zones| - 1];
      Active(zones[..|zones| - 1]) + if last.isMitigated then [] else [last]
  }

  // ----- the two loops over zone objects

  /** The objects carry exactly these values. */
  ghost predicate Carry(zones: seq<FVGZone>, values: seq<Zone>)
    reads zones
  {
    |zones| == |values| && forall k :: 0 <= k < |zones| ==> zones[k].Value() == values[k]
  }

  ghost predicate Distinct(zones: seq<FVGZone>) {
    forall a, b :: 0 <= a < b < |zones| ==> zones[a] != zones[b]
  }

  method DetectGaps(bars: seq<Bar>) returns (zones: seq<FVGZone>)
    ensures Distinct(zones) && fresh(zones)
    ensures Carry(zones, Detected(bars, |bars|))
  {
    zones := [];
    if |bars| < 2 {
      return;
    }
    for i := 2 to |bars|
      invariant Distinct(zones) && fresh(zones)
      invariant Carry(zones, Detected(bars, i))
    {
      if bars[i].low > bars[i - 2].high {
        var zone := new FVGZone(bars[i].time, bars[i].low, bars[i - 2].high, true);
        zones := zones + [zone];
      } else if bars[i].high < bars[i - 2].low {
        var zone := new FVGZone(bars[i].time, bars[i - 2].low, bars[i].high, false);
        zones := zones + [zone];
      }
    }
  }

  /** For each zone, the scan stops at the first bar that mitigates it and marks the object in place. */
  method MarkMitigations(bars: seq<Bar>, zones: seq<FVGZone>, ghost values: seq<Zone>)
    requires Distinct(zones) && Carry(zones, values)
    modifies zones
    ensures Carry(zones, SettledAll(bars, values))
  {
    for k := 0 to |zones|
      invariant forall j :: 0 <= j < k ==> zones[j].Value() == Settled(bars, values[j])
      invariant forall j :: k <= j < |zones| ==> zones[j].Value() == values[j]
    {
      ScanZone(bars, zones[k]);
    }
  }

  method ScanZone(bars: seq<Bar>, zone: FVGZone)
    modifies zone
    ensures zone.Value() == old(Settled(bars, zone.Value()))
  {
    ghost var z := zone.Value();
    var i := 2;
    while i < |bars|
      invariant |bars| >= 2 ==> 2 <= i <= |bars|
      invariant zone.Value() == z
      invariant |bars| >= 2 ==> FirstMitigation(bars, z, i) == FirstMitigation(bars, z, 2)
    {
      if bars[i].time > zone.timestamp {
        if zone.isBullish && bars[i].low <= zone.highLevel {
          zone.isMitigated := true;
          zone.mitigatedAt := Some(bars[i].time);
          break;
        } else if !zone.isBullish && bars[i].high >= zone.lowLevel {
          zone.isMitigated := true;
          zone.mitigatedAt := Some(bars[i].time);
          break;
        }
      }
      i := i + 1;
    }
  }

  /** `[f for f in zones if not f.is_mitigated]` */
  method Unmitigated(zones: seq<FVGZone>, ghost values: seq<Zone>) returns (open: seq<FVGZone>)
    requires Carry(zones, values)
    ensures Carry(open, Active(values))
    ensures forall z :: z in open ==> z in zones
  {
    open := [];
    for k := 0 to |zones|
      invariant Carry(open, Active(values[..k]))
      invariant forall z :: z in open ==> z in zones
    {
      assert values[..k + 1][..k] == values[..k];
      if !zones[k].isMitigated {
        open := open + [zones[k]];
      }
    }
    assert values[..|zones|] == values;
  }

  // ----- what a gap is

  predicate TradesAt(bar: Bar, price: real) {
    bar.low <= price <= bar.high
  }

  /** The candles at `c - 2` and `c` trade at no common price. */
  ghost predicate Disjoint(bars: seq<Bar>, c: nat)
    requires 2 <= c < |bars|
  {
    forall price: real :: TradesAt(bars[c - 2], price) ==> !TradesAt(bars[c], price)
  }

  /**
   On well-formed candles a zone is reported exactly where two candles, one apart, trade at no
   common price; it is then the open interval between them, bullish when the later one is above.
   */
  lemma {:induction false} GapExact(bars: seq<Bar>, c: nat)
    requires LowsBelowHighs(bars) && 2 <= c < |bars|
    ensures Disjoint(bars, c) <==> |ZonesOfBar(bars, c)| == 1
    ensures !Disjoint(bars, c) <==> ZonesOfBar(bars, c) == []
    ensures forall z :: z in ZonesOfBar(bars, c) ==>
      var (below, above) := if z.isBullish then (bars[c - 2], bars[c]) else (bars[c], bars[c - 2]);
      below.high == z.lowLevel < z.highLevel == above.low && z.timestamp == bars[c].time && !z.isMitigated
  {
    var p := Max(bars[c - 2].low, bars[c].low);
    if ZonesOfBar(bars, c) == [] {
      assert TradesAt(bars[c - 2], p) && TradesAt(bars[c], p);
    }
  }

  // ----- what mitigation means

  lemma {:induction false} FirstMitigationIsFirst(bars: seq<Bar>, z: Zone, i: nat)
    requires i <= |bars|
    ensures match FirstMitigation(bars, z, i)
      case None => forall j :: i <= j < |bars| ==> !Mitigates(bars[j], z)
      case Some(f) => i <= f < |bars| && Mitigates(bars[f], z) && forall j :: i <= j < f ==> !Mitigates(bars[j], z)
    decreases |bars| - i
  {
    if i < |bars| && !Mitigates(bars[i], z) {
      FirstMitigationIsFirst(bars, z, i + 1);
    }
  }

  /**
   For increasing timestamps, the gap formed at bar `c` is returned active exactly when no later
   bar comes back to its near edge; otherwise it is stamped with the earliest such bar.
   */
  lemma {:induction false} MitigationExact(bars: seq<Bar>, c: nat, z: Zone)
    requires IncreasingTimes(bars) && 2 <= c < |bars|
    requires ZonesOfBar(bars, c) == [z]
    ensures !Settled(bars, z).isMitigated <==> forall j :: c < j < |bars| ==> !ReachesNearEdge(bars[j], z)
    ensures Settled(bars, z).isMitigated ==>
      exists f :: c < f < |bars| && ReachesNearEdge(bars[f], z)
        && Settled(bars, z).mitigatedAt == Some(bars[f].time)
        && forall j :: c < j < f ==> !ReachesNearEdge(bars[j], z)
  {
    FirstMitigationIsFirst(bars, z, 2);
    forall j | 2 <= j < |bars|
      ensures Mitigates(bars[j], z) <==> c < j && ReachesNearEdge(bars[j], z)
    {
      assert z.timestamp == bars[c].time;
    }
  }

  /** Every zone in the list is the gap of one bar, so MitigationExact speaks about all of them. */
  lemma {:induction false} DetectedSource(bars: seq<Bar>, count: nat, k: nat) returns (c: nat)
    requires count <= |bars| && k < |Detected(bars, count)|
    ensures 2 <= c < count && ZonesOfBar(bars, c) == [Detected(bars, count)[k]]
  {
    if k < |Detected(bars, count - 1)| {
      c := DetectedSource(bars, count - 1, k);
    } else {
      c := count - 1;
    }
  }

  // ----- which gaps are open

  /** No bar's gap is skipped. */
  lemma {:induction false} DetectedComplete(bars: seq<Bar>, count: nat, c: nat, z: Zone)
    requires 2 <= c < count <= |bars| && ZonesOfBar(bars, c) == [z]
    ensures z in Detected(bars, count)
  {
    if c == count - 1 {
      assert z in ZonesOfBar(bars, c);
    } else {
      DetectedComplete(bars, count - 1, c, z);
    }
  }

  lemma {:induction false} ActiveMembers(zones: seq<Zone>, z: Zone)
    ensures z in Active(zones) <==> z in zones && !z.isMitigated
  {
    if zones == [] {
    } else {
      ActiveMembers(zones[..|zones| - 1], z);
      assert zones == zones[..|zones| - 1] + [zones[|zones| - 1]];
    }
  }

  ghost predicate OldestFirst(zones: seq<Zone>) {
    forall a, b :: 0 <= a < b < |zones| ==> zones[a].timestamp < zones[b].timestamp
  }

  ghost predicate AllBefore(zones: seq<Zone>, time: int) {
    forall k :: 0 <= k < |zones| ==> zones[k].timestamp < time
  }

  lemma {:induction false} OldestFirstAppend(zones: seq<Zone>, z: Zone)
    requires OldestFirst(zones) && AllBefore(zones, z.timestamp)
    ensures OldestFirst(zones + [z])
  {
  }

  lemma {:induction false} ActiveOldestFirst(zones: seq<Zone>)
    requires OldestFirst(zones)
    ensures OldestFirst(Active(zones))
    ensures forall time :: AllBefore(zones, time) ==> AllBefore(Active(zones), time)
  {
    if zones == [] {
    } else {
      var front, last := zones[..|zones| - 1], zones[|zones| - 1];
      ActiveOldestFirst(front);
      assert AllBefore(front, last.timestamp);
      OldestFirstAppend(Active(front), last);
      forall time | AllBefore(zones, time)
        ensures AllBefore(Active(zones), time)
      {
        assert last.timestamp < time;
        assert AllBefore(front, time);
      }
    }
  }

  lemma {:induction false} DetectedOldestFirst(bars: seq<Bar>, count: nat)
    requires IncreasingTimes(bars) && count <= |bars|
    ensures OldestFirst(Detected(bars, count))
    ensures forall c :: count <= c < |bars| ==> AllBefore(Detected(bars, count), bars[c].time)
  {
    hide OldestFirst;
    if count <= 2 {
      NothingToOrder();
    } else {
      var before, more := Detected(bars, count - 1), ZonesOfBar(bars, count - 1);
      DetectedOldestFirst(bars, count - 1);
      GapTime(bars, count - 1);
      hide Detected, ZonesOfBar;
      if more == [] {
        assert before + more == before;
      } else {
        assert more == [more[0]];
        OldestFirstAppend(before, more[0]);
      }
    }
  }

  lemma {:induction false} NothingToOrder()
    ensures OldestFirst([])
  {
  }

  lemma {:induction false} GapTime(bars: seq<Bar>, c: nat)
    requires 2 <= c < |bars|
    ensures |ZonesOfBar(bars, c)| <= 1
    ensures ZonesOfBar(bars, c) != [] ==> ZonesOfBar(bars, c)[0].timestamp == bars[c].time
  {
  }

  /** Bar `c` opens the gap `z` to the bar two before it, and no later bar trades back to the edge of bar `c`. */
  ghost predicate OpenGap(bars: seq<Bar>, c: nat, z: Zone) {
    && 2 <= c < |bars|
    && z.timestamp == bars[c].time && !z.isMitigated && z.mitigatedAt == None
    && if z.isBullish then
         && bars[c - 2].high < bars[c].low
         && z.lowLevel == bars[c - 2].high && z.highLevel == bars[c].low
         && forall j :: c < j < |bars| ==> bars[c].low < bars[j].low
       else
         && bars[c].high < bars[c - 2].low && bars[c].low <= bars[c - 2].high
         && z.lowLevel == bars[c].high && z.highLevel == bars[c - 2].low
         && forall j :: c < j < |bars| ==> bars[j].high < bars[c].high
  }

  lemma {:induction false} OpenGapIff(bars: seq<Bar>, c: nat, z: Zone)
    requires IncreasingTimes(bars) && 2 <= c < |bars|
    ensures OpenGap(bars, c, z) <==> ZonesOfBar(bars, c) == [z] && !Settled(bars, z).isMitigated
  {
    hide Settled;
    if ZonesOfBar(bars, c) == [z] {
      MitigationExact(bars, c, z);
    }
  }

  lemma {:induction false} UnsettledStays(bars: seq<Bar>, z: Zone)
    ensures !Settled(bars, z).isMitigated ==> Settled(bars, z) == z
  {
  }

  /**
   The zones reported as open, on the input: exactly the gaps whose near edge no later bar has come back
   to, each once, oldest first.
   */
  lemma {:induction false} OpenGapsExact(bars: seq<Bar>, z: Zone)
    requires IncreasingTimes(bars)
    ensures z in Active(SettledAll(bars, Detected(bars, |bars|))) <==> exists c :: OpenGap(bars, c, z)
    ensures OldestFirst(Active(SettledAll(bars, Detected(bars, |bars|))))
  {
    hide Active, Detected, Settled, OpenGap, ZonesOfBar, IncreasingTimes;
    var found := Detected(bars, |bars|);
    var settled := SettledAll(bars, found);
    ActiveMembers(settled, z);
    if z in settled && !z.isMitigated {
      var k :| 0 <= k < |settled| && settled[k] == z;
      UnsettledStays(bars, found[k]);
      var c := DetectedSource(bars, |bars|, k);
      OpenGapIff(bars, c, z);
    }
    forall c | OpenGap(bars, c, z)
      ensures z in settled && !z.isMitigated
    {
      OpenGapInside(bars, c, z);
      OpenGapIff(bars, c, z);
      DetectedComplete(bars, |bars|, c, z);
      var k :| 0 <= k < |found| && found[k] == z;
      UnsettledStays(bars, z);
      assert settled[k] == z;
    }
    SettledOldestFirst(bars);
    ActiveOldestFirst(settled);
  }

  lemma {:induction false} OpenGapInside(bars: seq<Bar>, c: nat, z: Zone)
    requires OpenGap(bars, c, z)
    ensures 2 <= c < |bars| && !z.isMitigated
  {
  }

  lemma {:induction false} SettledOldestFirst(bars: seq<Bar>)
    requires IncreasingTimes(bars)
    ensures OldestFirst(SettledAll(bars, Detected(bars, |bars|)))
  {
    hide Detected, FirstMitigation;
    DetectedOldestFirst(bars, |bars|);
  }

  // ----- appending candles

  lemma {:induction false} FirstMitigationExtends(bars: seq<Bar>, more: seq<Bar>, z: Zone, i: nat)
    requires i <= |bars|
    ensures FirstMitigation(bars, z, i).Some? ==>
      FirstMitigation(bars + more, z, i) == FirstMitigation(bars, z, i)
    ensures FirstMitigation(bars, z, i).None? && FirstMitigation(bars + more, z, i).Some? ==>
      FirstMitigation(bars + more, z, i).value >= |bars|
    decreases |bars| - i
  {
    var longer := bars + more;
    if i == |bars| {
      FirstMitigationIsFirst(longer, z, i);
    } else {
      assert longer[i] == bars[i];
      if !Mitigates(bars[i], z) {
        FirstMitigationExtends(bars, more, z, i + 1);
      }
    }
  }

  lemma {:induction false} DetectedExtends(bars: seq<Bar>, more: seq<Bar>, count: nat)
    requires count <= |bars|
    ensures Detected(bars + more, count) == Detected(bars, count)
  {
    if count <= 2 {
    } else {
      DetectedExtends(bars, more, count - 1);
      assert ZonesOfBar(bars + more, count - 1) == ZonesOfBar(bars, count - 1);
    }
  }

  lemma {:induction false} DetectedGrows(bars: seq<Bar>, lo: nat, hi: nat)
    requires lo <= hi <= |bars|
    ensures Detected(bars, lo) <= Detected(bars, hi)
  {
    if lo == hi {
    } else {
      DetectedGrows(bars, lo, hi - 1);
    }
  }

  /** A longer series settles a zone the same way, unless the zone was open and an appended bar mitigates it. */
  ghost predicate SettlesForGood(bars: seq<Bar>, more: seq<Bar>, z: Zone) {
    && (Settled(bars, z).isMitigated ==> Settled(bars + more, z) == Settled(bars, z))
    && (!Settled(bars, z).isMitigated && Settled(bars + more, z).isMitigated ==>
      exists j :: 0 <= j < |more| && Mitigates(more[j], z) && Settled(bars + more, z).mitigatedAt == Some(more[j].time))
  }

  lemma {:induction false} SettledExtends(bars: seq<Bar>, more: seq<Bar>, z: Zone)
    requires |bars| >= 2 && !z.isMitigated
    ensures SettlesForGood(bars, more, z)
  {
    var longer := bars + more;
    FirstMitigationExtends(bars, more, z, 2);
    FirstMitigationIsFirst(longer, z, 2);
    var f := FirstMitigation(longer, z, 2);
    if f.Some? && f.value >= |bars| {
      assert longer[f.value] == more[f.value - |bars|];
    }
  }

  /**
   Appending candles keeps every old zone at its place in the list, never re-activates one and
   never changes an existing mitigation time; a zone mitigated anew is stamped by an appended bar.
   */
  lemma {:induction false} AppendingNeverReactivates(bars: seq<Bar>, more: seq<Bar>, k: nat)
    requires k < |Detected(bars, |bars|)|
    ensures k < |Detected(bars + more, |bars + more|)|
    ensures Detected(bars + more, |bars + more|)[k] == Detected(bars, |bars|)[k]
    ensures SettlesForGood(bars, more, Detected(bars, |bars|)[k])
  {
    DetectedExtends(bars, more, |bars|);
    DetectedGrows(bars + more, |bars|, |bars + more|);
    var c := DetectedSource(bars, |bars|, k);
    SettledExtends(bars, more, Detected(bars, |bars|)[k]);
  }
}
