/** One candle of the series the analysers work on. Timestamps are integers. */
module MarketData {
  datatype Bar = Bar(time: int, open: real, high: real, low: real, close: real)

  ghost predicate IncreasingTimes(bars: seq<Bar>) {
    forall i, j :: 0 <= i < j < |bars| ==> bars[i].time < bars[j].time
  }

  /** Every bar of a real candle feed has its low no higher than its high. */
  ghost predicate LowsBelowHighs(bars: seq<Bar>) {
    forall i :: 0 <= i < |bars| ==> bars[i].low <= bars[i].high
  }
}

/**
 Fractal swing points: a bar whose high (low) is strictly beyond every other high (low)
 of the window reaching `left` bars back and `right` bars forward.
 */
module Swings {
  import opened MarketData
  import opened Numbers
  import opened Sorting

  datatype SwingPoint = SwingPoint(index: nat, timestamp: int, price: real, isHigh: bool)

  /** Bar `j` stays strictly inside the extreme that bar `i` sets. */
  predicate Inside(bars: seq<Bar>, i: nat, j: nat, isHigh: bool)
    requires i < |bars| && j < |bars|
  {
    if isHigh then bars[j].high < bars[i].high else bars[i].low < bars[j].low
  }

  /** Bar `i` is a confirmed swing of the given kind: its whole window lies inside the series. */
  predicate SwingAt(bars: seq<Bar>, left: nat, right: nat, i: int, isHigh: bool) {
    && left <= i < |bars| - right
    && forall j :: i - left <= j <= i + right && j != i ==> Inside(bars, i, j, isHigh)
  }

  function PointAt(bars: seq<Bar>, i: nat, isHigh: bool): SwingPoint
    requires i < |bars|
  {
    SwingPoint(i, bars[i].time, if isHigh then bars[i].high else bars[i].low, isHigh)
  }

  function PointsOfBar(bars: seq<Bar>, left: nat, right: nat, i: nat): seq<SwingPoint>
    requires i < |bars|
  {
    (if SwingAt(bars, left, right, i, true) then [PointAt(bars, i, true)] else [])
    + (if SwingAt(bars, left, right, i, false) then [PointAt(bars, i, false)] else [])
  }

  /** The swings of the first `count` bars, in bar order, a high before a low. */
  function SwingsBelow(bars: seq<Bar>, left: nat, right: nat, count: nat): seq<SwingPoint>
    requires count <= |bars|
  {
    if count == 0 then []
    else SwingsBelow(bars, left, right, count - 1) + PointsOfBar(bars, left, right, count - 1)
  }

  function AllSwings(bars: seq<Bar>, left: nat, right: nat): seq<SwingPoint> {
    SwingsBelow(bars, left, right, |bars|)
  }

  // ----- what the list holds

  predicate Before(p: SwingPoint, q: SwingPoint) {
    p.index < q.index || (p.index == q.index && p.isHigh && !q.isHigh)
  }

  ghost predicate Genuine(bars: seq<Bar>, left: nat, right: nat, p: SwingPoint) {
    && SwingAt(bars, left, right, p.index, p.isHigh)
    && p == PointAt(bars, p.index, p.isHigh)
  }

  ghost predicate InOrder(s: seq<SwingPoint>) {
    forall a, b :: 0 <= a < b < |s| ==> Before(s[a], s[b])
  }

  /** A list that holds exactly the genuine swings of bar `i`, in order. */
  ghost predicate ExactAt(bars: seq<Bar>, left: nat, right: nat, s: seq<SwingPoint>, i: nat) {
    && InOrder(s)
    && forall p :: p in s <==> Genuine(bars, left, right, p) && p.index == i
  }

  lemma {:induction false} PointsOfBarExact(bars: seq<Bar>, left: nat, right: nat, i: nat)
    requires i < |bars|
    ensures ExactAt(bars, left, right, PointsOfBar(bars, left, right, i), i)
  {
    forall p
      ensures p in PointsOfBar(bars, left, right, i) <==> Genuine(bars, left, right, p) && p.index == i
    {
      if p.index == i && SwingAt(bars, left, right, i, p.isHigh) && p == PointAt(bars, i, p.isHigh) {
        assert p == PointAt(bars, i, true) || p == PointAt(bars, i, false);
      }
    }
  }

  /** A list that holds exactly the genuine swings below `count`, each once, in order. */
  ghost predicate Exact(bars: seq<Bar>, left: nat, right: nat, s: seq<SwingPoint>, count: nat) {
    && InOrder(s)
    && forall p :: p in s <==> Genuine(bars, left, right, p) && p.index < count
  }

  lemma {:induction false} ExactAppend(
    bars: seq<Bar>, left: nat, right: nat, s: seq<SwingPoint>, t: seq<SwingPoint>, i: nat)
    requires Exact(bars, left, right, s, i) && ExactAt(bars, left, right, t, i)
    ensures Exact(bars, left, right, s + t, i + 1)
  {
    hide Genuine;
    forall a, b | 0 <= a < b < |s + t|
      ensures Before((s + t)[a], (s + t)[b])
    {
      if a < |s| <= b {
        assert s[a] in s && t[b - |s|] in t;
      }
    }
  }

  /** The list holds exactly the strict window extrema below `count`, each once, in order. */
  lemma {:induction false} SwingsBelowExact(bars: seq<Bar>, left: nat, right: nat, count: nat)
    requires count <= |bars|
    ensures Exact(bars, left, right, SwingsBelow(bars, left, right, count), count)
  {
    hide Exact, ExactAt, SwingsBelow, PointsOfBar;
    SwingsStep(bars, left, right, count);
    if count == 0 {
      NothingExact(bars, left, right);
    } else {
      SwingsBelowExact(bars, left, right, count - 1);
      PointsOfBarExact(bars, left, right, count - 1);
      ExactAppend(bars, left, right, SwingsBelow(bars, left, right, count - 1),
        PointsOfBar(bars, left, right, count - 1), count - 1);
    }
  }

  lemma {:induction false} SwingsStep(bars: seq<Bar>, left: nat, right: nat, count: nat)
    requires count <= |bars|
    ensures SwingsBelow(bars, left, right, count) ==
      if count == 0 then []
      else SwingsBelow(bars, left, right, count - 1) + PointsOfBar(bars, left, right, count - 1)
  {
  }

  lemma {:induction false} NothingExact(bars: seq<Bar>, left: nat, right: nat)
    ensures Exact(bars, left, right, [], 0)
  {
  }

  /** Exactness pins the list down: any list with the same members in the same order is this one. */
  lemma {:induction false} SwingListUnique(s: seq<SwingPoint>, t: seq<SwingPoint>)
    requires InOrder(s) && InOrder(t)
    requires forall p :: p in s <==> p in t
    ensures s == t
  {
    assert s != [] ==> s[0] in t;
    assert t != [] ==> t[0] in s;
    if s == [] {
    } else {
      var p, q := s[|s| - 1], t[|t| - 1];
      assert p in t && q in s;
      assert p == q;
      var s', t' := s[..|s| - 1], t[..|t| - 1];
      forall x
        ensures x in s' <==> x in t'
      {
        if x in s' {
          assert x in s && x in t && x != p;
        }
        if x in t' {
          assert x in t && x in s && x != q;
        }
      }
      SwingListUnique(s', t');
      assert s == s' + [p] && t == t' + [q];
    }
  }

  /** Two swings of one kind cannot sit in each other's windows. */
  lemma {:induction false} SwingSpacing(bars: seq<Bar>, left: nat, right: nat, p: SwingPoint, q: SwingPoint)
    requires p in AllSwings(bars, left, right) && q in AllSwings(bars, left, right)
    requires p.isHigh == q.isHigh && p.index < q.index
    ensures q.index - p.index > (if left < right then left else right)
  {
    SwingsBelowExact(bars, left, right, |bars|);
    var i, j := p.index, q.index;
    assert SwingAt(bars, left, right, i, p.isHigh) && SwingAt(bars, left, right, j, p.isHigh);
    assert j <= i + right ==> Inside(bars, i, j, p.isHigh);
    assert j - left <= i ==> Inside(bars, j, i, p.isHigh);
  }

  // ----- the detector

  /** One window scan: it stops at the first bar that reaches or passes the extreme of bar `i`. */
  method ScanWindow(bars: seq<Bar>, left: nat, right: nat, i: nat, isHigh: bool) returns (isSwing: bool)
    requires left <= i < |bars| - right
    ensures isSwing == SwingAt(bars, left, right, i, isHigh)
  {
    isSwing := true;
    for j := i - left to i + right + 1
      invariant isSwing
      invariant forall k :: i - left <= k < j && k != i ==> Inside(bars, i, k, isHigh)
    {
      if j != i && (if isHigh then bars[j].high >= bars[i].high else bars[j].low <= bars[i].low) {
        isSwing := false;
        assert !Inside(bars, i, j, isHigh);
        break;
      }
    }
  }

  function ByIndex(s: SwingPoint): real {
    s.index as real
  }

  /** A scan of every complete window for a high, then for a low, then `sorted` by index. */
  method DetectSwingPoints(bars: seq<Bar>, left: nat, right: nat) returns (swings: seq<SwingPoint>)
    ensures swings == AllSwings(bars, left, right)
  {
    swings := [];
    var n := |bars|;
    if n < left + right + 1 {
      var split := if n < left then n else left;
      NoCompleteWindow(bars, left, right, 0, split);
      NoCompleteWindow(bars, left, right, split, n);
      return;
    }
    NoCompleteWindow(bars, left, right, 0, left);
    for i := left to n - right
      invariant swings == SwingsBelow(bars, left, right, i)
    {
      var isSwingHigh := ScanWindow(bars, left, right, i, true);
      if isSwingHigh {
        swings := swings + [SwingPoint(i, bars[i].time, bars[i].high, true)];
      }
      var isSwingLow := ScanWindow(bars, left, right, i, false);
      if isSwingLow {
        swings := swings + [SwingPoint(i, bars[i].time, bars[i].low, false)];
      }
    }
    NoCompleteWindow(bars, left, right, n - right, n);
    AlreadySorted(bars, left, right);
    swings := StableSort(ByIndex, swings);
  }

  lemma {:induction false} AlreadySorted(bars: seq<Bar>, left: nat, right: nat)
    ensures StableSort(ByIndex, AllSwings(bars, left, right)) == AllSwings(bars, left, right)
  {
    SwingsBelowExact(bars, left, right, |bars|);
    SortedStays(ByIndex, AllSwings(bars, left, right));
  }

  /** Bars whose window sticks out of the series add nothing to the list. */
  lemma {:induction false} NoCompleteWindow(bars: seq<Bar>, left: nat, right: nat, lo: nat, hi: nat)
    requires lo <= hi <= |bars|
    requires hi <= left || |bars| <= lo + right
    ensures SwingsBelow(bars, left, right, hi) == SwingsBelow(bars, left, right, lo)
  {
    if lo == hi {
    } else {
      NoCompleteWindow(bars, left, right, lo, hi - 1);
    }
  }

  // ----- the last swing known at a bar

  /** `[s for s in swings if s.index < i and s.is_high == isHigh]` */
  function KnownAt(swings: seq<SwingPoint>, i: nat, isHigh: bool): seq<SwingPoint> {
    if swings == [] then []
    else
      var last := swings[|swings| - 1];
      KnownAt(swings[..|swings| - 1], i, isHigh)
      + if last.index < i && last.isHigh == isHigh then [last] else []
  }

  /** The last entry of a possibly empty list. */
  function LastOf<T>(s: seq<T>): Option<T> {
    if s == [] then None else Some(s[|s| - 1])
  }

  /** A one-pass tracker: it remembers only the latest confirmed swing of one kind. */
  function LatestSwing(bars: seq<Bar>, left: nat, right: nat, i: nat, isHigh: bool): Option<SwingPoint>
    requires i <= |bars|
  {
    if i == 0 then None
    else if SwingAt(bars, left, right, i - 1, isHigh) then Some(PointAt(bars, i - 1, isHigh))
    else LatestSwing(bars, left, right, i - 1, isHigh)
  }

  lemma {:induction false} KnownAtAppend(s: seq<SwingPoint>, t: seq<SwingPoint>, i: nat, isHigh: bool)
    ensures KnownAt(s + t, i, isHigh) == KnownAt(s, i, isHigh) + KnownAt(t, i, isHigh)
  {
    if t == [] {
      assert s + t == s;
    } else {
      assert (s + t)[..|s + t| - 1] == s + t[..|t| - 1];
      KnownAtAppend(s, t[..|t| - 1], i, isHigh);
    }
  }

  /** Filtering the whole list at every bar finds the same swing as the one-pass tracker. */
  lemma {:induction false} FilterIsTracker(bars: seq<Bar>, left: nat, right: nat, count: nat, i: nat, isHigh: bool)
    requires i <= |bars| && count <= |bars|
    ensures LastOf(KnownAt(SwingsBelow(bars, left, right, count), i, isHigh))
         == LatestSwing(bars, left, right, if i < count then i else count, isHigh)
  {
    hide KnownAt, LastOf, SwingAt, PointAt, SwingsBelow, PointsOfBar;
    SwingsStep(bars, left, right, count);
    if count == 0 {
      NothingKnown(i, isHigh);
    } else {
      var b := count - 1;
      FilterIsTracker(bars, left, right, b, i, isHigh);
      KnownOfBar(bars, left, right, b, i, isHigh);
      KnownAtAppend(SwingsBelow(bars, left, right, b), PointsOfBar(bars, left, right, b), i, isHigh);
      LastOfAppend(KnownAt(SwingsBelow(bars, left, right, b), i, isHigh),
        KnownAt(PointsOfBar(bars, left, right, b), i, isHigh));
    }
  }

  lemma {:induction false} NothingKnown(i: nat, isHigh: bool)
    ensures LastOf(KnownAt([], i, isHigh)) == None
  {
  }

  lemma {:induction false} LastOfAppend<T>(s: seq<T>, t: seq<T>)
    ensures LastOf(s + t) == if t == [] then LastOf(s) else Some(t[|t| - 1])
  {
  }

  lemma {:induction false} KnownOfBar(bars: seq<Bar>, left: nat, right: nat, b: nat, i: nat, isHigh: bool)
    requires b < |bars|
    ensures KnownAt(PointsOfBar(bars, left, right, b), i, isHigh)
         == if b < i && SwingAt(bars, left, right, b, isHigh) then [PointAt(bars, b, isHigh)] else []
  {
    var highs := if SwingAt(bars, left, right, b, true) then [PointAt(bars, b, true)] else [];
    var lows := if SwingAt(bars, left, right, b, false) then [PointAt(bars, b, false)] else [];
    assert highs != [] ==> highs[..|highs| - 1] == [];
    assert lows != [] ==> lows[..|lows| - 1] == [];
    KnownAtAppend(highs, lows, i, isHigh);
  }

  /** What the tracker returns is confirmed, earlier than `i`, and the latest such swing. */
  lemma {:induction false} LatestSwingIsLatest(bars: seq<Bar>, left: nat, right: nat, i: nat, isHigh: bool)
    requires i <= |bars|
    ensures match LatestSwing(bars, left, right, i, isHigh)
      case None => forall j :: 0 <= j < i ==> !SwingAt(bars, left, right, j, isHigh)
      case Some(p) =>
        && p.index < i && Genuine(bars, left, right, p) && p.isHigh == isHigh
        && forall j :: p.index < j < i ==> !SwingAt(bars, left, right, j, isHigh)
  {
    if i > 0 && !SwingAt(bars, left, right, i - 1, isHigh) {
      LatestSwingIsLatest(bars, left, right, i - 1, isHigh);
    }
  }
}
