/**
 Volume profile: volume binned by price, the point of control (POC), and the value area, the
 fewest bins that together hold a given share of the volume.
 */
module VolumeProfile {
  import opened Numbers
  import opened Sorting

  // ----- the histogram

  /** How many bin widths a price lies above the lowest one. */
  function BinWidths(x: real, lo: real, hi: real, bins: nat): real
    requires lo < hi
  {
    (x - lo) / (hi - lo) * bins as real
  }

  /** NumPy's uniform bins: half-open, except that the last one includes the highest price. */
  function BinOf(x: real, lo: real, hi: real, bins: nat): int
    requires lo < hi && bins >= 1
  {
    if x == hi then bins - 1 else BinWidths(x, lo, hi, bins).Floor
  }

  function Edge(lo: real, hi: real, bins: nat, b: int): real
    requires bins >= 1
  {
    lo + (hi - lo) * (b as real / bins as real)
  }

  function Center(lo: real, hi: real, bins: nat, b: int): real
    requires bins >= 1
  {
    (Edge(lo, hi, bins, b) + Edge(lo, hi, bins, b + 1)) / 2.0
  }

  /** A price lies in exactly the bin it is counted in. */
  lemma {:induction false} BinHoldsPrice(x: real, lo: real, hi: real, bins: nat)
    requires lo < hi && bins >= 1 && lo <= x <= hi
    ensures 0 <= BinOf(x, lo, hi, bins) < bins
    ensures Edge(lo, hi, bins, BinOf(x, lo, hi, bins)) <= x
    ensures x < hi ==> x < Edge(lo, hi, bins, BinOf(x, lo, hi, bins) + 1)
  {
    hide BinWidths, Edge;
    EdgeEnds(lo, hi, bins);
    if x == hi {
    } else {
      var b := BinOf(x, lo, hi, bins);
      EdgeAt(x, lo, hi, bins, 0);
      EdgeAt(x, lo, hi, bins, bins);
      EdgeAt(x, lo, hi, bins, b);
      EdgeAt(x, lo, hi, bins, b + 1);
    }
  }

  lemma {:induction false} EdgeEnds(lo: real, hi: real, bins: nat)
    requires lo < hi && bins >= 1
    ensures Edge(lo, hi, bins, 0) == lo && Edge(lo, hi, bins, bins) == hi
    ensures Edge(lo, hi, bins, bins - 1) <= hi
  {
    var n := bins as real;
    QuotientIs(0.0, n, 0.0);
    QuotientIs(n, n, 1.0);
    DivMonotone((bins - 1) as real, n, n);
    MulMonotone((bins - 1) as real / n, 1.0, hi - lo);
  }

  /** A price has reached an edge exactly when it lies that many bin widths up. */
  lemma {:induction false} EdgeAt(x: real, lo: real, hi: real, bins: nat, k: int)
    requires lo < hi && bins >= 1
    ensures k as real <= BinWidths(x, lo, hi, bins) <==> Edge(lo, hi, bins, k) <= x
  {
    var n, width := bins as real, hi - lo;
    var share, part := (x - lo) / width, k as real / n;
    DivTimes(x - lo, width);
    DivTimes(k as real, n);
    if share < part {
      MulStrict(share, part, width);
      MulStrict(share, part, n);
    } else {
      MulMonotone(part, share, width);
      MulMonotone(part, share, n);
    }
  }

  /** The volume per bin of the first `k` samples. */
  function Histogram(closes: seq<real>, volumes: seq<real>, lo: real, hi: real, bins: nat, k: nat): (counts: seq<real>)
    requires |closes| == |volumes| && k <= |closes| && lo < hi && bins >= 1
    requires forall i :: 0 <= i < |closes| ==> lo <= closes[i] <= hi
    ensures |counts| == bins
  {
    if k == 0 then seq(bins, _ => 0.0)
    else
      var counts := Histogram(closes, volumes, lo, hi, bins, k - 1);
      BinHoldsPrice(closes[k - 1], lo, hi, bins);
      var b := BinOf(closes[k - 1], lo, hi, bins);
      counts[b := counts[b] + volumes[k - 1]]
  }

  /** The volume of the samples among the first `k` that fall in bin `b`. */
  function VolumeIn(closes: seq<real>, volumes: seq<real>, lo: real, hi: real, bins: nat, b: int, k: nat): real
    requires |closes| == |volumes| && k <= |closes| && lo < hi && bins >= 1
  {
    if k == 0 then 0.0
    else
      var before := VolumeIn(closes, volumes, lo, hi, bins, b, k - 1);
      before + if BinOf(closes[k - 1], lo, hi, bins) == b then volumes[k - 1] else 0.0
  }

  lemma {:induction false} SumOfZeros(n: nat)
    ensures Sum(seq(n, _ => 0.0)) == 0.0
  {
    if n == 0 {
    } else {
      assert seq(n, _ => 0.0)[..n - 1] == seq(n - 1, _ => 0.0);
      SumOfZeros(n - 1);
    }
  }

  /** Binning conserves volume: each bin holds the volume of its own samples, and the bins add up to the total. */
  lemma {:induction false} BinningConserves(
    closes: seq<real>, volumes: seq<real>, lo: real, hi: real, bins: nat, k: nat)
    requires |closes| == |volumes| && k <= |closes| && lo < hi && bins >= 1
    requires forall i :: 0 <= i < |closes| ==> lo <= closes[i] <= hi
    ensures Sum(Histogram(closes, volumes, lo, hi, bins, k)) == Sum(volumes[..k])
    ensures forall b :: 0 <= b < bins ==>
      Histogram(closes, volumes, lo, hi, bins, k)[b] == VolumeIn(closes, volumes, lo, hi, bins, b, k)
    ensures (forall i :: 0 <= i < |volumes| ==> volumes[i] >= 0.0) ==>
      forall b :: 0 <= b < bins ==> Histogram(closes, volumes, lo, hi, bins, k)[b] >= 0.0
  {
    hide Sum, BinOf, Edge;
    if k == 0 {
      SumOfZeros(bins);
      SumOfNone(volumes[..0]);
    } else {
      BinningConserves(closes, volumes, lo, hi, bins, k - 1);
      var counts := Histogram(closes, volumes, lo, hi, bins, k - 1);
      BinHoldsPrice(closes[k - 1], lo, hi, bins);
      var b := BinOf(closes[k - 1], lo, hi, bins);
      SumUpdate(counts, b, counts[b] + volumes[k - 1]);
      SumStep(volumes, k);
    }
  }

  lemma {:induction false} SumStep(xs: seq<real>, k: nat)
    requires 1 <= k <= |xs|
    ensures Sum(xs[..k]) == Sum(xs[..k - 1]) + xs[k - 1]
  {
    assert xs[..k][..k - 1] == xs[..k - 1];
  }

  // ----- ordering the bins

  /** Any answer `np.argsort` may give: the bins in ascending order of volume, ties in any order. */
  ghost predicate IsArgsort(counts: seq<real>, order: seq<nat>) {
    && |order| == |counts|
    && (forall i :: 0 <= i < |order| ==> order[i] < |counts|)
    && (forall i, j :: 0 <= i < j < |order| ==> order[i] != order[j] && counts[order[i]] <= counts[order[j]])
    && (forall b :: 0 <= b < |counts| ==> b in order)
  }

  function Reversed(s: seq<nat>): (r: seq<nat>)
    ensures |r| == |s|
    ensures forall i :: 0 <= i < |s| ==> r[i] == s[|s| - 1 - i]
  {
    seq(|s|, i requires 0 <= i < |s| => s[|s| - 1 - i])
  }

  /** The bins in descending order of volume. */
  ghost predicate Descending(counts: seq<real>, order: seq<nat>) {
    && |order| == |counts|
    && (forall i :: 0 <= i < |order| ==> order[i] < |counts|)
    && (forall i, j :: 0 <= i < j < |order| ==> order[i] != order[j])
    && (forall i, j :: 0 <= i < j < |order| ==> counts[order[i]] >= counts[order[j]])
    && (forall b :: 0 <= b < |counts| ==> b in order)
  }

  lemma {:induction false} PositionOf(order: seq<nat>, b: nat) returns (i: nat)
    requires b in order
    ensures i < |order| && order[i] == b
  {
    i :| 0 <= i < |order| && order[i] == b;
  }

  lemma {:induction false} ReversedDescends(counts: seq<real>, order: seq<nat>)
    requires IsArgsort(counts, order)
    ensures Descending(counts, Reversed(order))
  {
    var r := Reversed(order);
    forall b | 0 <= b < |counts|
      ensures b in r
    {
      var i := PositionOf(order, b);
      assert r[|order| - 1 - i] == b;
    }
  }

  // ----- the value area

  /** Volume of the first `k` bins of an ordering. */
  function Accumulated(counts: seq<real>, order: seq<nat>, k: nat): real
    requires k <= |order| && forall i :: 0 <= i < |order| ==> order[i] < |counts|
  {
    if k == 0 then 0.0 else Accumulated(counts, order, k - 1) + counts[order[k - 1]]
  }

  /** The loop takes bins until the target is reached; it always takes one and never more than there are. */
  ghost predicate StopsAt(counts: seq<real>, order: seq<nat>, target: real, k: nat)
    requires forall i :: 0 <= i < |order| ==> order[i] < |counts|
  {
    && 1 <= k <= |order|
    && (forall j :: 1 <= j < k ==> Accumulated(counts, order, j) < target)
    && (k < |order| ==> Accumulated(counts, order, k) >= target)
  }

  method SelectValueArea(counts: seq<real>, order: seq<nat>, target: real) returns (area: seq<nat>)
    requires |counts| >= 1 && Descending(counts, order)
    ensures area <= order && StopsAt(counts, order, target, |area|)
  {
    var accumulated := 0.0;
    area := [];
    for k := 0 to |order|
      invariant area == order[..k]
      invariant accumulated == Accumulated(counts, order, k)
      invariant forall j :: 1 <= j <= k ==> Accumulated(counts, order, j) < target
    {
      accumulated := accumulated + counts[order[k]];
      area := area + [order[k]];
      if accumulated >= target {
        return;
      }
    }
  }

  /** Total volume of a set of bins among the first `n`. */
  function VolumeOf(counts: seq<real>, s: set<nat>, n: nat): real
    requires n <= |counts|
  {
    if n == 0 then 0.0 else VolumeOf(counts, s, n - 1) + if n - 1 in s then counts[n - 1] else 0.0
  }

  lemma {:induction false} VolumeWithout(counts: seq<real>, s: set<nat>, b: nat, n: nat)
    requires b in s && n <= |counts|
    ensures VolumeOf(counts, s, n) == VolumeOf(counts, s - {b}, n) + if b < n then counts[b] else 0.0
  {
    if n == 0 {
    } else {
      VolumeWithout(counts, s, b, n - 1);
    }
  }

  lemma {:induction false} VolumeSubset(counts: seq<real>, s: set<nat>, t: set<nat>, n: nat)
    requires n <= |counts| && s <= t && forall i :: 0 <= i < |counts| ==> counts[i] >= 0.0
    ensures VolumeOf(counts, s, n) <= VolumeOf(counts, t, n)
  {
    if n == 0 {
    } else {
      VolumeSubset(counts, s, t, n - 1);
    }
  }

  function Top(order: seq<nat>, k: nat): set<nat>
    requires k <= |order|
  {
    set i | 0 <= i < k :: order[i]
  }

  lemma {:induction false} TopStep(counts: seq<real>, order: seq<nat>, k: nat)
    requires Descending(counts, order) && k < |order|
    ensures order[k] !in Top(order, k) && Top(order, k + 1) == Top(order, k) + {order[k]}
    ensures order[k] in Top(order, k + 1) && Top(order, k + 1) - {order[k]} == Top(order, k)
  {
  }

  lemma {:induction false} AccumulatedIsVolume(counts: seq<real>, order: seq<nat>, k: nat)
    requires Descending(counts, order) && k <= |order|
    ensures Accumulated(counts, order, k) == VolumeOf(counts, Top(order, k), |counts|)
    ensures |Top(order, k)| == k
  {
    hide VolumeOf, Top;
    if k == 0 {
      EmptyVolume(counts, |counts|);
      TopOfNone(order);
    } else {
      AccumulatedIsVolume(counts, order, k - 1);
      TopStep(counts, order, k - 1);
      VolumeWithout(counts, Top(order, k), order[k - 1], |counts|);
    }
  }

  lemma {:induction false} TopOfNone(order: seq<nat>)
    ensures Top(order, 0) == {}
  {
  }

  lemma {:induction false} EmptyVolume(counts: seq<real>, n: nat)
    requires n <= |counts|
    ensures VolumeOf(counts, {}, n) == 0.0
  {
    if n == 0 {
    } else {
      EmptyVolume(counts, n - 1);
    }
  }

  lemma {:induction false} WholeVolume(counts: seq<real>, s: set<nat>, n: nat)
    requires n <= |counts| && forall b :: 0 <= b < n ==> b in s
    ensures VolumeOf(counts, s, n) == Sum(counts[..n])
  {
    if n == 0 {
    } else {
      WholeVolume(counts, s, n - 1);
      assert counts[..n][..n - 1] == counts[..n - 1];
    }
  }

  /** No set of at most `k` bins holds more than the `k` largest bins. */
  lemma {:induction false} TopIsBest(counts: seq<real>, order: seq<nat>, s: set<nat>, k: nat)
    requires Descending(counts, order) && k <= |order|
    requires forall i :: 0 <= i < |counts| ==> counts[i] >= 0.0
    requires (forall b :: b in s ==> b < |counts|) && |s| <= k
    ensures VolumeOf(counts, s, |counts|) <= VolumeOf(counts, Top(order, k), |counts|)
  {
    hide VolumeOf, Top, Descending;
    if k == 0 {
      assert s == {};
      VolumeSubset(counts, s, Top(order, 0), |counts|);
    } else if s <= Top(order, k) {
      VolumeSubset(counts, s, Top(order, k), |counts|);
    } else {
      var b :| b in s && b !in Top(order, k);
      TopIsBest(counts, order, s - {b}, k - 1);
      OutsideIsSmaller(counts, order, b, k);
      TopStep(counts, order, k - 1);
      Replaced(counts, s, b, Top(order, k), order[k - 1]);
    }
  }

  /** Adding a bin no larger than the one added on the other side keeps the comparison. */
  lemma {:induction false} Replaced(counts: seq<real>, s: set<nat>, b: nat, top: set<nat>, last: nat)
    requires b in s && last in top && b < |counts| && last < |counts| && counts[b] <= counts[last]
    requires VolumeOf(counts, s - {b}, |counts|) <= VolumeOf(counts, top - {last}, |counts|)
    ensures VolumeOf(counts, s, |counts|) <= VolumeOf(counts, top, |counts|)
  {
    VolumeWithout(counts, s, b, |counts|);
    VolumeWithout(counts, top, last, |counts|);
  }

  lemma {:induction false} OutsideIsSmaller(counts: seq<real>, order: seq<nat>, b: nat, k: nat)
    requires Descending(counts, order) && 1 <= k <= |order|
    requires b < |counts| && b !in Top(order, k)
    ensures order[k - 1] < |counts| && counts[b] <= counts[order[k - 1]]
  {
    var i := PositionOf(order, b);
    assert forall j :: 0 <= j < k ==> order[j] in Top(order, k);
  }

  /** The volume the value area has to hold. */
  function Target(counts: seq<real>, share: real): real {
    Sum(counts) * share
  }

  /** A non-empty set of bins that together hold the target volume. */
  ghost predicate Reaches(counts: seq<real>, s: set<nat>, target: real) {
    && s != {}
    && (forall b :: b in s ==> b < |counts|)
    && VolumeOf(counts, s, |counts|) >= target
  }

  /**
   Value-area optimality: for a share of at most the whole volume, the selected bins reach the
   target, and no non-empty set of fewer bins does.
   */
  lemma {:induction false} ValueAreaOptimal(counts: seq<real>, order: seq<nat>, share: real, target: real, k: nat)
    requires Descending(counts, order) && |counts| >= 1
    requires forall i :: 0 <= i < |counts| ==> counts[i] >= 0.0
    requires target == Sum(counts) * share && share <= 1.0 && StopsAt(counts, order, target, k)
    ensures Accumulated(counts, order, k) >= target
    ensures forall s: set<nat> :: Reaches(counts, s, target) ==> |s| >= k
  {
    hide Sum, StopsAt, Reaches, Accumulated;
    SumNonNegative(counts);
    ShareOf(Sum(counts), share, target);
    SelectionOptimal(counts, order, target, k);
  }

  lemma {:induction false} ShareOf(total: real, share: real, part: real)
    requires total >= 0.0 && share <= 1.0 && part == total * share
    ensures part <= total
  {
    MulMonotone(share, 1.0, total);
  }

  lemma {:induction false} SelectionOptimal(counts: seq<real>, order: seq<nat>, target: real, k: nat)
    requires Descending(counts, order) && |counts| >= 1
    requires forall i :: 0 <= i < |counts| ==> counts[i] >= 0.0
    requires target <= Sum(counts) && StopsAt(counts, order, target, k)
    ensures Accumulated(counts, order, k) >= target
    ensures forall s: set<nat> :: Reaches(counts, s, target) ==> |s| >= k
  {
    AllBinsHoldTotal(counts, order);
    forall s: set<nat> | Reaches(counts, s, target)
      ensures |s| >= k
    {
      FewerFallShort(counts, order, target, k, s);
    }
  }

  lemma {:induction false} AllBinsHoldTotal(counts: seq<real>, order: seq<nat>)
    requires Descending(counts, order)
    ensures Accumulated(counts, order, |order|) == Sum(counts)
  {
    AccumulatedIsVolume(counts, order, |order|);
    forall b: nat | b < |counts|
      ensures b in Top(order, |order|)
    {
      assert b in order;
      var i := PositionOf(order, b);
    }
    WholeVolume(counts, Top(order, |order|), |counts|);
    assert counts[..|counts|] == counts;
  }

  lemma {:induction false} FewerFallShort(counts: seq<real>, order: seq<nat>, target: real, k: nat, s: set<nat>)
    requires Descending(counts, order) && StopsAt(counts, order, target, k)
    requires forall i :: 0 <= i < |counts| ==> counts[i] >= 0.0
    requires Reaches(counts, s, target)
    ensures |s| >= k
  {
    assert |s| >= 1;
    if |s| < k {
      TopIsBest(counts, order, s, |s|);
      AccumulatedIsVolume(counts, order, |s|);
    }
  }

  // ----- the point of control

  /** `np.argmax`: the first bin of maximal volume. */
  function ArgMax(counts: seq<real>): (m: nat)
    requires |counts| >= 1
    ensures m < |counts|
    ensures forall i :: 0 <= i < |counts| ==> counts[i] <= counts[m]
    ensures forall i :: 0 <= i < m ==> counts[i] < counts[m]
  {
    if |counts| == 1 then 0
    else
      var front := counts[..|counts| - 1];
      var m := ArgMax(front);
      assert forall i :: 0 <= i < |front| ==> counts[i] == front[i];
      if counts[|counts| - 1] > counts[m] then |counts| - 1 else m
  }

  /** The bins that tie for the maximal volume. */
  function MaximalBins(counts: seq<real>): set<nat>
    requires |counts| >= 1
  {
    set b: nat | b < |counts| && counts[b] == counts[ArgMax(counts)]
  }

  /** Everything placed before a maximal bin is maximal too. */
  lemma {:induction false} MaximalFirst(counts: seq<real>, order: seq<nat>, p: nat)
    requires |counts| >= 1 && Descending(counts, order)
    requires p < |order| && order[p] in MaximalBins(counts)
    ensures Top(order, p + 1) <= MaximalBins(counts)
    ensures p < |MaximalBins(counts)|
  {
    var maximal := MaximalBins(counts);
    forall b | b in Top(order, p + 1)
      ensures b in maximal
    {
      var i :| 0 <= i < p + 1 && order[i] == b;
      assert counts[order[i]] >= counts[order[p]];
    }
    AccumulatedIsVolume(counts, order, p + 1);
    SubsetSize(Top(order, p + 1), maximal);
  }

  lemma {:induction false} SubsetSize(s: set<nat>, t: set<nat>)
    requires s <= t
    ensures |s| <= |t|
  {
    if s != {} {
      var x :| x in s;
      SubsetSize(s - {x}, t - {x});
    }
  }

  /**
   Whatever way ties are broken, the POC is in the value area if no more bins tie for the maximum
   than the area holds; in particular when the maximum is unique.
   */
  lemma {:induction false} PocInValueArea(counts: seq<real>, order: seq<nat>, area: seq<nat>)
    requires |counts| >= 1 && Descending(counts, order) && area <= order
    requires |MaximalBins(counts)| <= |area|
    ensures ArgMax(counts) in area
  {
    var p := PositionOf(order, ArgMax(counts));
    MaximalFirst(counts, order, p);
    assert order[p] == area[p];
  }

  lemma {:induction false} UniqueMaximum(counts: seq<real>)
    requires |counts| >= 1
    requires forall b :: 0 <= b < |counts| && b != ArgMax(counts) ==> counts[b] < counts[ArgMax(counts)]
    ensures |MaximalBins(counts)| == 1
  {
    assert MaximalBins(counts) == {ArgMax(counts)};
  }

  function Swapped(order: seq<nat>, p: nat, q: nat): (r: seq<nat>)
    requires p < |order| && q < |order|
    ensures |r| == |order|
  {
    order[p := order[q]][q := order[p]]
  }

  /**
   When more bins tie for the maximum than the value area holds, another admissible order of the
   same bins selects an area of the same size that leaves the POC out.
   */
  lemma {:induction false} PocCanFallOut(counts: seq<real>, order: seq<nat>, target: real, k: nat)
    returns (other: seq<nat>)
    requires |counts| >= 1 && Descending(counts, order) && StopsAt(counts, order, target, k)
    requires |MaximalBins(counts)| > k
    ensures Descending(counts, other) && StopsAt(counts, other, target, k)
    ensures ArgMax(counts) !in other[..k]
  {
    var poc := ArgMax(counts);
    var p := PositionOf(order, poc);
    MaximalFirst(counts, order, p);
    if p >= k {
      other := order;
    } else {
      var q := LaterMaximal(counts, order, k);
      other := Swapped(order, p, q);
      SwapDescends(counts, order, p, q);
      forall j | 0 <= j <= k
        ensures Accumulated(counts, other, j) == Accumulated(counts, order, j)
      {
        SwapAccumulates(counts, order, other, j);
      }
    }
  }

  /** With more maximal bins than places, one of them comes after the first `k`. */
  lemma {:induction false} LaterMaximal(counts: seq<real>, order: seq<nat>, k: nat) returns (q: nat)
    requires |counts| >= 1 && Descending(counts, order) && k <= |order|
    requires |MaximalBins(counts)| > k
    ensures k <= q < |order| && order[q] in MaximalBins(counts)
  {
    AccumulatedIsVolume(counts, order, k);
    if MaximalBins(counts) <= Top(order, k) {
      SubsetSize(MaximalBins(counts), Top(order, k));
    }
    var b :| b in MaximalBins(counts) && b !in Top(order, k);
    q := PositionOf(order, b);
    assert forall j :: 0 <= j < k ==> order[j] in Top(order, k);
  }

  lemma {:induction false} SwapDescends(counts: seq<real>, order: seq<nat>, p: nat, q: nat)
    requires |counts| >= 1 && Descending(counts, order) && p < q < |order|
    requires order[p] in MaximalBins(counts) && order[q] in MaximalBins(counts)
    ensures Descending(counts, Swapped(order, p, q))
    ensures forall i :: 0 <= i < |order| ==> counts[Swapped(order, p, q)[i]] == counts[order[i]]
    ensures Swapped(order, p, q)[q] == order[p] && forall i :: 0 <= i < q ==> Swapped(order, p, q)[i] != order[p]
  {
    var other := Swapped(order, p, q);
    forall b | 0 <= b < |counts|
      ensures b in other
    {
      assert b in order;
      var i := PositionOf(order, b);
      assert other[if i == p then q else if i == q then p else i] == b;
    }
  }

  lemma {:induction false} SwapAccumulates(counts: seq<real>, order: seq<nat>, other: seq<nat>, k: nat)
    requires |order| == |other| && k <= |order|
    requires forall i :: 0 <= i < |order| ==> order[i] < |counts| && other[i] < |counts|
    requires forall i :: 0 <= i < |order| ==> counts[other[i]] == counts[order[i]]
    ensures Accumulated(counts, other, k) == Accumulated(counts, order, k)
  {
    if k == 0 {
    } else {
      SwapAccumulates(counts, order, other, k - 1);
    }
  }

  // ----- the whole profile

  datatype VolumeProfileResult = VolumeProfileResult(
    pocPrice: real, vahPrice: real, valPrice: real, totalVolume: real, profileBins: map<real, real>)

  function Lowest(xs: seq<real>): (m: real)
    requires |xs| >= 1
    ensures m in xs && forall i :: 0 <= i < |xs| ==> m <= xs[i]
  {
    if |xs| == 1 then xs[0]
    else
      var m := Lowest(xs[..|xs| - 1]);
      assert forall i :: 0 <= i < |xs| - 1 ==> xs[i] == xs[..|xs| - 1][i];
      Min(m, xs[|xs| - 1])
  }

  function Highest(xs: seq<real>): (m: real)
    requires |xs| >= 1
    ensures m in xs && forall i :: 0 <= i < |xs| ==> xs[i] <= m
  {
    if |xs| == 1 then xs[0]
    else
      var m := Highest(xs[..|xs| - 1]);
      assert forall i :: 0 <= i < |xs| - 1 ==> xs[i] == xs[..|xs| - 1][i];
      Max(m, xs[|xs| - 1])
  }

  function Centers(lo: real, hi: real, bins: nat): (centers: seq<real>)
    requires bins >= 1
    ensures |centers| == bins && forall b :: 0 <= b < bins ==> centers[b] == Center(lo, hi, bins, b)
  {
    seq(bins, b => Center(lo, hi, bins, b))
  }

  /** `centers[indices]` */
  function Pick(centers: seq<real>, indices: seq<nat>): (picked: seq<real>)
    requires forall i :: 0 <= i < |indices| ==> indices[i] < |centers|
    ensures |picked| == |indices| && forall i :: 0 <= i < |indices| ==> picked[i] == centers[indices[i]]
  {
    seq(|indices|, i requires 0 <= i < |indices| => centers[indices[i]])
  }

  /** The published dictionary: keys are rounded centers, and a later bin overwrites an earlier one with its key. */
  function ProfileMap(centers: seq<real>, counts: seq<real>, k: nat): map<real, real>
    requires k <= |centers| == |counts|
  {
    if k == 0 then map[] else ProfileMap(centers, counts, k - 1)[Round4(centers[k - 1]) := counts[k - 1]]
  }

  method BuildProfile(centers: seq<real>, counts: seq<real>) returns (profile: map<real, real>)
    requires |centers| == |counts|
    ensures profile == ProfileMap(centers, counts, |centers|)
  {
    profile := map[];
    for k := 0 to |centers|
      invariant profile == ProfileMap(centers, counts, k)
    {
      profile := profile[Round4(centers[k]) := counts[k]];
    }
  }

  /** Prices spread over more than one level and some volume: the case that needs bins. */
  predicate Spread(closes: seq<real>, volumes: seq<real>) {
    |closes| > 0 && Sum(volumes) != 0.0 && Lowest(closes) < Highest(closes)
  }

  function BinCounts(closes: seq<real>, volumes: seq<real>, bins: nat): (counts: seq<real>)
    requires |closes| == |volumes| && bins >= 1 && Spread(closes, volumes)
    ensures |counts| == bins
  {
    Histogram(closes, volumes, Lowest(closes), Highest(closes), bins, |closes|)
  }

  /** What a binned profile reports, in terms of the bins and of the selected value area. */
  ghost predicate Reported(
    counts: seq<real>, centers: seq<real>, target: real, argsort: seq<nat>, r: VolumeProfileResult, area: seq<nat>)
    requires |counts| == |centers| >= 1 && IsArgsort(counts, argsort)
  {
    && area <= Reversed(argsort)
    && StopsAt(counts, Reversed(argsort), target, |area|)
    && r.pocPrice == centers[ArgMax(counts)]
    && r.vahPrice == Highest(Pick(centers, area))
    && r.valPrice == Lowest(Pick(centers, area))
    && r.totalVolume == Sum(counts)
    && r.profileBins == ProfileMap(centers, counts, |centers|)
  }

  method ValueArea(counts: seq<real>, argsort: seq<nat>, target: real) returns (area: seq<nat>)
    requires |counts| >= 1 && IsArgsort(counts, argsort)
    ensures area <= Reversed(argsort) && StopsAt(counts, Reversed(argsort), target, |area|)
    ensures forall i :: 0 <= i < |area| ==> area[i] < |counts|
  {
    ReversedDescends(counts, argsort);
    area := SelectValueArea(counts, Reversed(argsort), target);
  }

  /** The part of the calculation that follows the histogram. */
  method ProfileOfBins(counts: seq<real>, centers: seq<real>, target: real, argsort: seq<nat>)
    returns (r: VolumeProfileResult, ghost area: seq<nat>)
    requires |counts| == |centers| >= 1 && IsArgsort(counts, argsort)
    ensures Reported(counts, centers, target, argsort, r, area)
  {
    var pocPrice := centers[ArgMax(counts)];
    var indices := ValueArea(counts, argsort, target);
    var prices := Pick(centers, indices);
    var profile := BuildProfile(centers, counts);
    r := VolumeProfileResult(pocPrice, Highest(prices), Lowest(prices), Sum(counts), profile);
    area := indices;
  }

  /** `argsort` stands for NumPy's answer on the bin counts, whose tie order is unspecified. */
  method CalculateVolumeProfile(closes: seq<real>, volumes: seq<real>, bins: nat, share: real, argsort: seq<nat>)
    returns (r: VolumeProfileResult, ghost area: seq<nat>)
    requires |closes| == |volumes| && bins >= 1
    requires Spread(closes, volumes) ==> IsArgsort(BinCounts(closes, volumes, bins), argsort)
    ensures |closes| == 0 || Sum(volumes) == 0.0 ==> r == VolumeProfileResult(0.0, 0.0, 0.0, 0.0, map[])
    ensures |closes| > 0 && Sum(volumes) != 0.0 && Lowest(closes) == Highest(closes) ==>
      r == VolumeProfileResult(closes[0], closes[0], closes[0], Sum(volumes), map[closes[0] := Sum(volumes)])
    ensures Spread(closes, volumes) ==>
      var counts, centers := BinCounts(closes, volumes, bins), Centers(Lowest(closes), Highest(closes), bins);
      Reported(counts, centers, Target(counts, share), argsort, r, area) && r.totalVolume == Sum(volumes)
  {
    area := [];
    if |closes| == 0 || Sum(volumes) == 0.0 {
      return VolumeProfileResult(0.0, 0.0, 0.0, 0.0, map[]), [];
    }
    var minPrice, maxPrice := Lowest(closes), Highest(closes);
    if minPrice == maxPrice {
      return VolumeProfileResult(minPrice, minPrice, minPrice, Sum(volumes), map[minPrice := Sum(volumes)]), [];
    }
    var counts := Histogram(closes, volumes, minPrice, maxPrice, bins, |closes|);
    var centers := Centers(minPrice, maxPrice, bins);
    var target := Target(counts, share);
    r, area := ProfileOfBins(counts, centers, target, argsort);
    BinningConserves(closes, volumes, minPrice, maxPrice, bins, |closes|);
    assert volumes[..|closes|] == volumes;
  }

  // ----- when the published levels are ordered

  ghost predicate Increasing(xs: seq<real>) {
    forall i, j :: 0 <= i < j < |xs| ==> xs[i] < xs[j]
  }

  lemma {:induction false} CentersIncrease(lo: real, hi: real, bins: nat)
    requires lo < hi && bins >= 1
    ensures Increasing(Centers(lo, hi, bins))
  {
    hide Edge;
    forall i, j | 0 <= i < j < bins
      ensures Center(lo, hi, bins, i) < Center(lo, hi, bins, j)
    {
      EdgesIncrease(lo, hi, bins, i, j);
      EdgesIncrease(lo, hi, bins, i + 1, j + 1);
    }
  }

  lemma {:induction false} EdgesIncrease(lo: real, hi: real, bins: nat, a: int, b: int)
    requires lo < hi && bins >= 1 && a < b
    ensures Edge(lo, hi, bins, a) < Edge(lo, hi, bins, b)
  {
    var n := bins as real;
    DivTimes(a as real, n);
    DivTimes(b as real, n);
    var u, v := a as real / n, b as real / n;
    if v <= u {
      MulMonotone(v, u, n);
    }
    MulStrict(u, v, hi - lo);
  }

  predicate Ordered(r: VolumeProfileResult) {
    r.valPrice <= r.pocPrice <= r.vahPrice
  }

  /** A bin placed outside the area although it ties for the maximum leaves only maximal bins in the area. */
  lemma {:induction false} AreaWithoutPoc(counts: seq<real>, order: seq<nat>, area: seq<nat>, i: nat)
    requires |counts| >= 1 && Descending(counts, order) && area <= order && i < |area|
    requires ArgMax(counts) !in area
    ensures ArgMax(counts) < area[i]
  {
    var poc := ArgMax(counts);
    var p := PositionOf(order, poc);
    assert forall j :: 0 <= j < |area| ==> area[j] == order[j];
    assert counts[order[i]] >= counts[order[p]];
  }

  /**
   For any answer of argsort, the published levels are ordered, VAL <= POC <= VAH, exactly when the POC is
   in the value area; otherwise the POC lies below the whole area.
   */
  lemma {:induction false} LevelsOrderedIff(
    counts: seq<real>, centers: seq<real>, target: real, argsort: seq<nat>, r: VolumeProfileResult, area: seq<nat>)
    requires |counts| == |centers| >= 1 && IsArgsort(counts, argsort) && Increasing(centers)
    requires Reported(counts, centers, target, argsort, r, area)
    ensures Ordered(r) <==> ArgMax(counts) in area
    ensures ArgMax(counts) !in area ==> r.pocPrice < r.valPrice
  {
    ReversedDescends(counts, argsort);
    var picked := Pick(centers, area);
    if ArgMax(counts) in area {
      var i := PositionOf(area, ArgMax(counts));
      assert picked[i] == r.pocPrice;
    } else {
      var i :| 0 <= i < |picked| && picked[i] == Lowest(picked);
      AreaWithoutPoc(counts, Reversed(argsort), area, i);
      assert centers[ArgMax(counts)] < centers[area[i]];
    }
  }

  /** The volume at each place of a descending order is the same in every such order. */
  lemma {:induction false} SameVolumes(counts: seq<real>, order: seq<nat>, other: seq<nat>, i: nat)
    requires Descending(counts, order) && Descending(counts, other) && i < |counts|
    ensures counts[order[i]] <= counts[other[i]]
  {
    if counts[order[i]] > counts[other[i]] {
      forall b | b in Top(order, i + 1)
        ensures b in Top(other, i)
      {
        var j :| 0 <= j < i + 1 && order[j] == b;
        assert counts[order[j]] >= counts[order[i]];
        assert forall q :: i < q < |other| ==> counts[other[q]] <= counts[other[i]];
        var q := PositionOf(other, b);
      }
      SubsetSize(Top(order, i + 1), Top(other, i));
      AccumulatedIsVolume(counts, order, i + 1);
      AccumulatedIsVolume(counts, other, i);
      assert false;
    }
  }

  /** However ties are broken, the value area has the same size. */
  lemma {:induction false} AreaSizeUnique(
    counts: seq<real>, order: seq<nat>, other: seq<nat>, target: real, k: nat, m: nat)
    requires Descending(counts, order) && Descending(counts, other)
    requires StopsAt(counts, order, target, k) && StopsAt(counts, other, target, m)
    ensures k == m
  {
    forall i | 0 <= i < |counts|
      ensures counts[order[i]] == counts[other[i]]
    {
      SameVolumes(counts, order, other, i);
      SameVolumes(counts, other, order, i);
    }
    forall j | 0 <= j <= |counts|
      ensures Accumulated(counts, order, j) == Accumulated(counts, other, j)
    {
      SwapAccumulates(counts, other, order, j);
    }
  }

  /** Every argsort answer leads to ordered levels. */
  ghost predicate AlwaysOrdered(counts: seq<real>, centers: seq<real>, target: real)
    requires |counts| == |centers| >= 1
  {
    forall argsort, r, area :: IsArgsort(counts, argsort) && Reported(counts, centers, target, argsort, r, area) ==>
      Ordered(r)
  }

  /**
   Whatever ties argsort breaks in whatever way, the published levels are ordered, if and only if no more
   bins tie for the maximum than the value area holds. (The size of the area does not depend on the ties.)
   */
  lemma {:induction false} LevelsOrdered(
    counts: seq<real>, centers: seq<real>, target: real, argsort: seq<nat>, r: VolumeProfileResult, area: seq<nat>)
    requires |counts| == |centers| >= 1 && IsArgsort(counts, argsort) && Increasing(centers)
    requires Reported(counts, centers, target, argsort, r, area)
    ensures AlwaysOrdered(counts, centers, target) <==> |MaximalBins(counts)| <= |area|
  {
    hide StopsAt, MaximalBins, Ordered, IsArgsort;
    ReversedDescends(counts, argsort);
    if |MaximalBins(counts)| <= |area| {
      forall argsort', r', area' |
        IsArgsort(counts, argsort') && Reported(counts, centers, target, argsort', r', area')
        ensures Ordered(r')
      {
        ReversedDescends(counts, argsort');
        AreaSizeUnique(counts, Reversed(argsort), Reversed(argsort'), target, |area|, |area'|);
        PocInValueArea(counts, Reversed(argsort'), area');
        LevelsOrderedIff(counts, centers, target, argsort', r', area');
      }
    } else {
      var other := PocCanFallOut(counts, Reversed(argsort), target, |area|);
      UnorderedAnswer(counts, centers, target, other, |area|);
    }
  }

  /** A descending order whose first `k` bins leave the POC out comes from an argsort answer with unordered levels. */
  lemma {:induction false} UnorderedAnswer(
    counts: seq<real>, centers: seq<real>, target: real, order: seq<nat>, k: nat)
    requires |counts| == |centers| >= 1 && Increasing(centers) && Descending(counts, order)
    requires StopsAt(counts, order, target, k) && ArgMax(counts) !in order[..k]
    ensures !AlwaysOrdered(counts, centers, target)
  {
    hide Descending, IsArgsort, Highest, Lowest, ProfileMap, Sum, ArgMax, Increasing, Ordered, Accumulated;
    var argsort, area := Reversed(order), order[..k];
    DescendingReversed(counts, order);
    assert Reversed(argsort) == order;
    var picked := Pick(centers, area);
    var r := VolumeProfileResult(centers[ArgMax(counts)], Highest(picked), Lowest(picked), Sum(counts),
      ProfileMap(centers, counts, |centers|));
    assert Reported(counts, centers, target, argsort, r, area);
    LevelsOrderedIff(counts, centers, target, argsort, r, area);
  }

  lemma {:induction false} DescendingReversed(counts: seq<real>, order: seq<nat>)
    requires Descending(counts, order)
    ensures IsArgsort(counts, Reversed(order))
  {
    var r := Reversed(order);
    forall b | 0 <= b < |counts|
      ensures b in r
    {
      var i := PositionOf(order, b);
      assert r[|order| - 1 - i] == b;
    }
  }

  /** The same for the levels published from closes and volumes. */
  lemma {:induction false} PublishedLevelsOrdered(
    closes: seq<real>, volumes: seq<real>, bins: nat, share: real, argsort: seq<nat>,
    r: VolumeProfileResult, area: seq<nat>)
    requires |closes| == |volumes| && bins >= 1 && Spread(closes, volumes)
    requires var counts, centers := BinCounts(closes, volumes, bins), Centers(Lowest(closes), Highest(closes), bins);
      IsArgsort(counts, argsort) && Reported(counts, centers, Target(counts, share), argsort, r, area)
    ensures var counts, centers := BinCounts(closes, volumes, bins), Centers(Lowest(closes), Highest(closes), bins);
      && (r.valPrice <= r.pocPrice <= r.vahPrice <==> ArgMax(counts) in area)
      && (AlwaysOrdered(counts, centers, Target(counts, share)) <==> |MaximalBins(counts)| <= |area|)
  {
    hide Reported, IsArgsort, BinCounts, Center, Target, AlwaysOrdered, MaximalBins;
    var counts, centers := BinCounts(closes, volumes, bins), Centers(Lowest(closes), Highest(closes), bins);
    CentersIncrease(Lowest(closes), Highest(closes), bins);
    LevelsOrderedIff(counts, centers, Target(counts, share), argsort, r, area);
    LevelsOrdered(counts, centers, Target(counts, share), argsort, r, area);
  }

  // ----- where the published prices lie

  /** Half the width of a bin. */
  function HalfBin(lo: real, hi: real, bins: nat): real
    requires bins >= 1
  {
    (hi - lo) / (2 * bins) as real
  }

  /** The price lies half a bin above the lower edge and half a bin below the upper edge of the bin. */
  predicate InTheMiddle(price: real, lo: real, hi: real, bins: nat, b: int)
    requires bins >= 1
  {
    && price - Edge(lo, hi, bins, b) == HalfBin(lo, hi, bins)
    && Edge(lo, hi, bins, b + 1) - price == HalfBin(lo, hi, bins)
  }

  lemma {:induction false} EdgesApart(lo: real, hi: real, bins: nat, b: int)
    requires bins >= 1
    ensures Edge(lo, hi, bins, b + 1) - Edge(lo, hi, bins, b) == 2.0 * HalfBin(lo, hi, bins)
  {
    var n, width, half := bins as real, hi - lo, HalfBin(lo, hi, bins);
    var u, v := b as real / n, (b + 1) as real / n;
    DivTimes(b as real, n);
    DivTimes((b + 1) as real, n);
    DivTimes(width, (2 * bins) as real);
    assert (2 * bins) as real == 2.0 * n;
    Associate(2.0, half, n, half * n);
    QuotientIs(width, n, 2.0 * half);
    Quotients(width, b as real, n);
    Quotients(width, (b + 1) as real, n);
    assert (b + 1) as real * (width / n) == b as real * (width / n) + width / n;
  }

  lemma {:induction false} Quotients(width: real, k: real, n: real)
    requires n != 0.0
    ensures width * (k / n) == k * (width / n)
  {
  }

  lemma {:induction false} CenterInTheMiddle(lo: real, hi: real, bins: nat, b: int)
    requires bins >= 1
    ensures InTheMiddle(Center(lo, hi, bins, b), lo, hi, bins, b)
  {
    hide Edge, HalfBin;
    EdgesApart(lo, hi, bins, b);
  }

  /** No sample is further than half a bin from the center of the bin it is counted in. */
  lemma {:induction false} SampleNearCenter(x: real, lo: real, hi: real, bins: nat)
    requires lo < hi && bins >= 1 && lo <= x <= hi
    ensures Abs(Center(lo, hi, bins, BinOf(x, lo, hi, bins)) - x) <= HalfBin(lo, hi, bins)
  {
    hide Edge, HalfBin, Center;
    var b := BinOf(x, lo, hi, bins);
    BinHoldsPrice(x, lo, hi, bins);
    CenterInTheMiddle(lo, hi, bins, b);
    if x == hi {
      EdgeEnds(lo, hi, bins);
    }
  }

  /** The bin is in the area, its center is the given price, and no bin of the area lies beyond it. */
  ghost predicate Extreme(price: real, lo: real, hi: real, bins: nat, area: seq<nat>, b: nat, highest: bool)
    requires bins >= 1
  {
    && b in area && InTheMiddle(price, lo, hi, bins, b)
    && forall other :: other in area ==> if highest then other <= b else b <= other
  }

  /**
   The published prices on the bins: the POC lies in the middle of the first bin of maximal volume, VAH in the
   middle of the highest and VAL in the middle of the lowest bin of the value area.
   */
  lemma {:induction false} PublishedPrices(
    closes: seq<real>, volumes: seq<real>, bins: nat, share: real, argsort: seq<nat>,
    r: VolumeProfileResult, area: seq<nat>)
    requires |closes| == |volumes| && bins >= 1 && Spread(closes, volumes)
    requires var counts, centers := BinCounts(closes, volumes, bins), Centers(Lowest(closes), Highest(closes), bins);
      IsArgsort(counts, argsort) && Reported(counts, centers, Target(counts, share), argsort, r, area)
    ensures var lo, hi := Lowest(closes), Highest(closes);
      && InTheMiddle(r.pocPrice, lo, hi, bins, ArgMax(BinCounts(closes, volumes, bins)))
      && (exists b :: Extreme(r.vahPrice, lo, hi, bins, area, b, true))
      && (exists b :: Extreme(r.valPrice, lo, hi, bins, area, b, false))
  {
    hide IsArgsort, BinCounts, Center, Target, StopsAt, InTheMiddle, ProfileMap, Sum;
    var lo, hi, counts := Lowest(closes), Highest(closes), BinCounts(closes, volumes, bins);
    var centers := Centers(lo, hi, bins);
    AreaInside(counts, argsort, Target(counts, share), area);
    CentersIncrease(lo, hi, bins);
    CenterInTheMiddle(lo, hi, bins, ArgMax(counts));
    var top := HighestOfArea(centers, area);
    CenterInTheMiddle(lo, hi, bins, top);
    assert Extreme(r.vahPrice, lo, hi, bins, area, top, true);
    var bottom := LowestOfArea(centers, area);
    CenterInTheMiddle(lo, hi, bins, bottom);
    assert Extreme(r.valPrice, lo, hi, bins, area, bottom, false);
  }

  lemma {:induction false} AreaInside(counts: seq<real>, argsort: seq<nat>, target: real, area: seq<nat>)
    requires IsArgsort(counts, argsort) && area <= Reversed(argsort)
    requires StopsAt(counts, Reversed(argsort), target, |area|)
    ensures |area| >= 1 && forall i :: 0 <= i < |area| ==> area[i] < |counts|
  {
    assert forall i :: 0 <= i < |area| ==> area[i] == Reversed(argsort)[i];
  }

  lemma {:induction false} HighestOfArea(centers: seq<real>, area: seq<nat>) returns (b: nat)
    requires Increasing(centers) && |area| >= 1 && forall i :: 0 <= i < |area| ==> area[i] < |centers|
    ensures b in area && centers[b] == Highest(Pick(centers, area))
    ensures forall other :: other in area ==> other <= b
  {
    var picked := Pick(centers, area);
    var i :| 0 <= i < |picked| && picked[i] == Highest(picked);
    b := area[i];
    forall other | other in area
      ensures other <= b
    {
      var j :| 0 <= j < |area| && area[j] == other;
      assert picked[j] <= Highest(picked);
      assert centers[other] <= centers[b];
    }
  }

  lemma {:induction false} LowestOfArea(centers: seq<real>, area: seq<nat>) returns (b: nat)
    requires Increasing(centers) && |area| >= 1 && forall i :: 0 <= i < |area| ==> area[i] < |centers|
    ensures b in area && centers[b] == Lowest(Pick(centers, area))
    ensures forall other :: other in area ==> b <= other
  {
    var picked := Pick(centers, area);
    var i :| 0 <= i < |picked| && picked[i] == Lowest(picked);
    b := area[i];
    forall other | other in area
      ensures b <= other
    {
      var j :| 0 <= j < |area| && area[j] == other;
      assert Lowest(picked) <= picked[j];
      assert centers[b] <= centers[other];
    }
  }

  function Members(area: seq<nat>): set<nat> {
    set b | b in area
  }

  /** The published area really holds the share of the traded volume it is meant to, and no fewer bins do. */
  lemma {:induction false} PublishedAreaOptimal(
    closes: seq<real>, volumes: seq<real>, bins: nat, share: real, argsort: seq<nat>,
    r: VolumeProfileResult, area: seq<nat>, target: real)
    requires |closes| == |volumes| && bins >= 1 && Spread(closes, volumes) && share <= 1.0
    requires forall i :: 0 <= i < |volumes| ==> volumes[i] >= 0.0
    requires target == Sum(volumes) * share
    requires var counts, centers := BinCounts(closes, volumes, bins), Centers(Lowest(closes), Highest(closes), bins);
      IsArgsort(counts, argsort) && Reported(counts, centers, Target(counts, share), argsort, r, area)
    ensures var counts := BinCounts(closes, volumes, bins);
      && |Members(area)| == |area|
      && VolumeOf(counts, Members(area), bins) >= target
      && forall s: set<nat> :: Reaches(counts, s, target) ==> |s| >= |area|
  {
    hide IsArgsort, BinCounts, Centers, Highest, Lowest, ProfileMap, Reaches, VolumeOf, Members, StopsAt, Sum;
    hide Descending, Target;
    var counts, order := BinCounts(closes, volumes, bins), Reversed(argsort);
    ReversedDescends(counts, argsort);
    CountsConserve(closes, volumes, bins);
    TargetIs(counts, share, Sum(volumes), target);
    AreaOptimal(counts, order, area, share, target);
  }

  lemma {:induction false} TargetIs(counts: seq<real>, share: real, total: real, target: real)
    requires Sum(counts) == total && target == total * share
    ensures Target(counts, share) == target == Sum(counts) * share
  {
  }

  lemma {:induction false} AreaOptimal(
    counts: seq<real>, order: seq<nat>, area: seq<nat>, share: real, target: real)
    requires Descending(counts, order) && |counts| >= 1 && area <= order
    requires forall i :: 0 <= i < |counts| ==> counts[i] >= 0.0
    requires target == Sum(counts) * share && share <= 1.0 && StopsAt(counts, order, target, |area|)
    ensures |Members(area)| == |area| && VolumeOf(counts, Members(area), |counts|) >= target
    ensures forall s: set<nat> :: Reaches(counts, s, target) ==> |s| >= |area|
  {
    hide Sum, StopsAt, Reaches, VolumeOf, Members, Top;
    ValueAreaOptimal(counts, order, share, target, |area|);
    AccumulatedIsVolume(counts, order, |area|);
    AreaIsTop(order, area);
  }

  lemma {:induction false} AreaIsTop(order: seq<nat>, area: seq<nat>)
    requires area <= order
    ensures Members(area) == Top(order, |area|)
  {
    forall b | b in area
      ensures b in Top(order, |area|)
    {
      var i := PositionOf(area, b);
      assert order[i] == b;
    }
    forall i | 0 <= i < |area|
      ensures order[i] in area
    {
      assert area[i] == order[i];
    }
  }

  lemma {:induction false} CountsConserve(closes: seq<real>, volumes: seq<real>, bins: nat)
    requires |closes| == |volumes| && bins >= 1 && Spread(closes, volumes)
    requires forall i :: 0 <= i < |volumes| ==> volumes[i] >= 0.0
    ensures Sum(BinCounts(closes, volumes, bins)) == Sum(volumes)
    ensures forall b :: 0 <= b < bins ==> BinCounts(closes, volumes, bins)[b] >= 0.0
  {
    hide Histogram, Sum;
    BinningConserves(closes, volumes, Lowest(closes), Highest(closes), bins, |closes|);
    assert volumes[..|closes|] == volumes;
  }

  /** One unit of volume at each of four evenly spaced prices: four bins that tie. */
  lemma {:induction false} FourEqualBins(closes: seq<real>, volumes: seq<real>)
    requires closes == [0.0, 1.0, 2.0, 3.0] && volumes == [1.0, 1.0, 1.0, 1.0]
    ensures Lowest(closes) == 0.0 && Highest(closes) == 3.0 && Sum(volumes) == 4.0
    ensures BinCounts(closes, volumes, 4) == [1.0, 1.0, 1.0, 1.0]
    ensures IsArgsort(BinCounts(closes, volumes, 4), [0, 1, 2, 3])
  {
    FourOnes(volumes);
    assert closes[0] == 0.0 && closes[3] == 3.0;
    assert Lowest(closes) == 0.0 && Highest(closes) == 3.0;
    hide Sum, Lowest, Highest;
    OwnBins();
    hide BinOf;
    BinnedOneByOne(closes, volumes, 4);
  }

  lemma {:induction false} FourOnes(xs: seq<real>)
    requires xs == [1.0, 1.0, 1.0, 1.0]
    ensures Sum(xs) == 4.0
  {
    var two := [1.0, 1.0];
    assert two[..1] == [1.0] && [1.0][..0] == [];
    assert Sum([1.0]) == 1.0 && Sum(two) == 2.0;
    assert xs == two + two;
    hide Sum;
    SumAppend(two, two);
  }

  lemma {:induction false} OwnBins()
    ensures BinOf(0.0, 0.0, 3.0, 4) == 0 && BinOf(1.0, 0.0, 3.0, 4) == 1
    ensures BinOf(2.0, 0.0, 3.0, 4) == 2 && BinOf(3.0, 0.0, 3.0, 4) == 3
  {
  }

  lemma {:induction false} BinnedOneByOne(closes: seq<real>, volumes: seq<real>, k: nat)
    requires closes == [0.0, 1.0, 2.0, 3.0] && volumes == [1.0, 1.0, 1.0, 1.0] && k <= 4
    ensures Histogram(closes, volumes, 0.0, 3.0, 4, k) == seq(4, b requires 0 <= b < 4 => if b < k then 1.0 else 0.0)
  {
    if k == 0 {
    } else {
      BinnedOneByOne(closes, volumes, k - 1);
      OwnBins();
      hide BinOf;
      assert BinOf(closes[k - 1], 0.0, 3.0, 4) == k - 1;
    }
  }

  /**
   The POC really falls out: with four tying bins and a 70% share the area takes three of them from the
   top, and if ties come out of argsort in index order, the POC, the lowest bin, lies below the whole area.
   */
  lemma {:induction false} PocBelowArea(closes: seq<real>, volumes: seq<real>, r: VolumeProfileResult, area: seq<nat>)
    requires closes == [0.0, 1.0, 2.0, 3.0] && volumes == [1.0, 1.0, 1.0, 1.0]
    requires Spread(closes, volumes)
    requires var counts, centers := BinCounts(closes, volumes, 4), Centers(Lowest(closes), Highest(closes), 4);
      IsArgsort(counts, [0, 1, 2, 3]) && Reported(counts, centers, Target(counts, 0.7), [0, 1, 2, 3], r, area)
    ensures |MaximalBins(BinCounts(closes, volumes, 4))| == 4 && area == [3, 2, 1]
    ensures r.pocPrice < r.valPrice
  {
    hide IsArgsort, StopsAt, Target, ProfileMap, BinCounts, Lowest, Highest;
    FourEqualBins(closes, volumes);
    var counts, centers := BinCounts(closes, volumes, 4), Centers(0.0, 3.0, 4);
    assert MaximalBins(counts) == {0, 1, 2, 3};
    var order := Reversed([0, 1, 2, 3]);
    assert order == [3, 2, 1, 0];
    ThreeOfFour(counts, order, |area|);
    assert area == order[..3] == [3, 2, 1];
    assert centers[0] == 0.375 && centers[1] == 1.125 && centers[2] == 1.875 && centers[3] == 2.625;
  }

  lemma {:induction false} ThreeOfFour(counts: seq<real>, order: seq<nat>, k: nat)
    requires counts == [1.0, 1.0, 1.0, 1.0] && order == [3, 2, 1, 0]
    ensures StopsAt(counts, order, Target(counts, 0.7), k) <==> k == 3
  {
    FourOnes(counts);
    hide Sum;
    assert Accumulated(counts, order, 1) == 1.0;
    assert Accumulated(counts, order, 2) == 2.0;
    assert Accumulated(counts, order, 3) == 3.0;
  }

  // ----- the published dictionary

  ghost predicate DistinctKeys(centers: seq<real>, k: nat)
    requires k <= |centers|
  {
    forall i, j :: 0 <= i < j < k ==> Round4(centers[i]) != Round4(centers[j])
  }

  lemma {:induction false} KeysOfProfile(centers: seq<real>, counts: seq<real>, k: nat, key: real)
    requires k <= |centers| == |counts|
    ensures key in ProfileMap(centers, counts, k) <==> exists i :: 0 <= i < k && key == Round4(centers[i])
  {
    hide Round4;
    if k == 0 {
    } else {
      KeysOfProfile(centers, counts, k - 1, key);
      assert key in ProfileMap(centers, counts, k) <==>
        key == Round4(centers[k - 1]) || key in ProfileMap(centers, counts, k - 1);
    }
  }

  /** Every bin has an entry of its own exactly when no two centers round to the same key. */
  lemma {:induction false} EveryBinKeepsItsEntryIff(centers: seq<real>, counts: seq<real>, k: nat)
    requires k <= |centers| == |counts|
    ensures |ProfileMap(centers, counts, k)| <= k
    ensures |ProfileMap(centers, counts, k)| == k <==> DistinctKeys(centers, k)
  {
    hide Round4;
    if k == 0 {
    } else {
      var before, key := ProfileMap(centers, counts, k - 1), Round4(centers[k - 1]);
      EveryBinKeepsItsEntryIff(centers, counts, k - 1);
      KeysOfProfile(centers, counts, k - 1, key);
      MapGrows(before, key, counts[k - 1]);
    }
  }

  lemma {:induction false} MapGrows(m: map<real, real>, key: real, value: real)
    ensures |m[key := value]| == if key in m then |m| else |m| + 1
  {
    assert m[key := value].Keys == m.Keys + {key};
    assert |m[key := value]| == |m[key := value].Keys| && |m| == |m.Keys|;
  }

  /** And then every entry is its bin's volume, so none is overwritten. */
  lemma {:induction false} DistinctKeysKeepVolume(centers: seq<real>, counts: seq<real>, k: nat, b: nat)
    requires b < k <= |centers| == |counts| && DistinctKeys(centers, k)
    ensures Round4(centers[b]) in ProfileMap(centers, counts, k)
    ensures ProfileMap(centers, counts, k)[Round4(centers[b])] == counts[b]
  {
    hide Round4;
    if b == k - 1 {
    } else {
      DistinctKeysKeepVolume(centers, counts, k - 1, b);
    }
  }

  /** Bins wider than the rounding step have distinct keys. */
  lemma {:induction false} WideBinsKeepTheirVolume(centers: seq<real>, counts: seq<real>, k: nat, b: nat)
    requires b < k <= |centers| == |counts|
    requires forall i, j :: 0 <= i < j < |centers| ==> centers[i] + 0.0001 < centers[j]
    ensures Round4(centers[b]) in ProfileMap(centers, counts, k)
    ensures ProfileMap(centers, counts, k)[Round4(centers[b])] == counts[b]
  {
    hide Round4;
    forall i, j | 0 <= i < j < k
      ensures Round4(centers[i]) != Round4(centers[j])
    {
      RoundingSeparates(centers[i], centers[j]);
    }
    DistinctKeysKeepVolume(centers, counts, k, b);
  }

  lemma {:induction false} RoundingSeparates(x: real, y: real)
    requires x + 0.0001 < y
    ensures Round4(x) < Round4(y)
  {
  }

  /** On an asset that moves by less than a tick of the keys, bins do overwrite each other: half the volume is gone. */
  lemma {:induction false} NarrowBinsLoseVolume(closes: seq<real>, volumes: seq<real>)
    requires closes == [0.00001, 0.00003] && volumes == [1.0, 1.0]
    ensures Spread(closes, volumes) && Sum(volumes) == 2.0
    ensures
      var counts, centers := BinCounts(closes, volumes, 2), Centers(Lowest(closes), Highest(closes), 2);
      counts == [1.0, 1.0] && ProfileMap(centers, counts, 2) == map[0.0 := 1.0]
  {
    assert volumes[..1] == [1.0] && [1.0][..0] == [];
    assert closes[0] == 0.00001 && closes[1] == 0.00003;
    assert Lowest(closes) == 0.00001 && Highest(closes) == 0.00003;
    hide Lowest, Highest, Sum;
    TwoTinyBins(closes, volumes);
    var centers := Centers(0.00001, 0.00003, 2);
    assert centers[0] == 0.000015 && centers[1] == 0.000025;
    RoundHalfEvenUnique(0.15, 0);
    RoundHalfEvenUnique(0.25, 0);
    hide Centers, Histogram;
    TwoSharedKeys(centers, [1.0, 1.0]);
  }

  lemma {:induction false} TwoSharedKeys(centers: seq<real>, counts: seq<real>)
    requires counts == [1.0, 1.0] && |centers| == 2 && Round4(centers[0]) == Round4(centers[1]) == 0.0
    ensures ProfileMap(centers, counts, 2) == map[0.0 := 1.0]
  {
    hide Round4;
    assert ProfileMap(centers, counts, 1) == map[0.0 := 1.0];
  }

  lemma {:induction false} TwoTinyBins(closes: seq<real>, volumes: seq<real>)
    requires closes == [0.00001, 0.00003] && volumes == [1.0, 1.0]
    ensures Histogram(closes, volumes, 0.00001, 0.00003, 2, 2) == [1.0, 1.0]
  {
    assert BinOf(0.00001, 0.00001, 0.00003, 2) == 0 && BinOf(0.00003, 0.00001, 0.00003, 2) == 1;
    hide BinOf;
    assert Histogram(closes, volumes, 0.00001, 0.00003, 2, 1) == [1.0, 0.0];
  }
}
