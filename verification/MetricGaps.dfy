/**
 * Gap markers in a metrics series: an empty point is inserted wherever two
 * samples are further apart than twice the median spacing (or one and a half
 * tier intervals, whichever is larger), so a chart breaks its line there.
 */
module MetricGaps {
  import opened Prelude

  /** A sample carries data; an inserted gap marker has only a time. */
  datatype Point = Sample(t: int, data: seq<real>) | Marker(t: int)

  predicate IsSample(p: Point) { p.Sample? }

  ghost predicate Ordered(ps: seq<Point>) {
    forall i, j :: 0 <= i < j < |ps| ==> ps[i].t <= ps[j].t
  }

  ghost predicate Sorted(s: seq<int>) {
    forall i, j :: 0 <= i < j < |s| ==> s[i] <= s[j]
  }

  /** Spacing between neighbouring points. */
  function Spacings(ps: seq<Point>): (g: seq<int>)
    requires |ps| >= 1
    ensures |g| == |ps| - 1
    ensures forall i :: 0 <= i < |g| ==> g[i] == ps[i + 1].t - ps[i].t
  {
    seq(|ps| - 1, i requires 0 <= i < |ps| - 1 => ps[i + 1].t - ps[i].t)
  }

  function Insert(x: int, s: seq<int>): (r: seq<int>)
    ensures |r| == |s| + 1
  {
    if s == [] || x <= s[0] then [x] + s else [s[0]] + Insert(x, s[1..])
  }

  function SortedCopy(s: seq<int>): (r: seq<int>)
    ensures |r| == |s|
  {
    if s == [] then [] else Insert(s[0], SortedCopy(s[1..]))
  }

  lemma {:induction false} InsertAdds(x: int, s: seq<int>)
    ensures multiset(Insert(x, s)) == multiset(s) + multiset{x}
  {
    if s != [] && x > s[0] {
      InsertAdds(x, s[1..]);
      assert s == [s[0]] + s[1..];
    }
  }

  lemma {:induction false} InsertSorts(x: int, s: seq<int>)
    requires Sorted(s)
    ensures Sorted(Insert(x, s))
    ensures s != [] ==> Insert(x, s)[0] == if x <= s[0] then x else s[0]
    ensures s == [] ==> Insert(x, s) == [x]
  {
    if s != [] && x > s[0] {
      InsertSorts(x, s[1..]);
      PrependSorted(s[0], Insert(x, s[1..]));
    }
  }

  lemma {:induction false} PrependSorted(x: int, s: seq<int>)
    requires Sorted(s) && (s != [] ==> x <= s[0])
    ensures Sorted([x] + s)
  {
    var r := [x] + s;
    forall i, j | 0 <= i < j < |r| ensures r[i] <= r[j] {
      if i == 0 && j > 1 {
        assert s[0] <= s[j - 1];
      }
    }
  }

  /** The copy is a sorted permutation; that is unique, so any library sort produces it. */
  lemma {:induction false} SortedCopySorts(s: seq<int>)
    ensures Sorted(SortedCopy(s)) && multiset(SortedCopy(s)) == multiset(s)
  {
    if s != [] {
      SortedCopySorts(s[1..]);
      InsertSorts(s[0], SortedCopy(s[1..]));
      InsertAdds(s[0], SortedCopy(s[1..]));
      assert s == [s[0]] + s[1..];
    }
  }

  function Median(g: seq<int>): int
    requires g != []
  {
    SortedCopy(g)[|g| / 2]
  }

  /** One and a half intervals, cut toward zero as a conversion from float to integer does. */
  function HalfAgain(interval: int): int {
    if interval >= 0 then 3 * interval / 2 else -(-3 * interval / 2)
  }

  function Threshold(median: int, interval: int): (t: int)
    ensures t >= 2 * median && t >= HalfAgain(interval) && (t == 2 * median || t == HalfAgain(interval))
  {
    if 2 * median < HalfAgain(interval) then HalfAgain(interval) else 2 * median
  }

  /** The series up to its last point, with a marker in front of every late sample. */
  function Marked(ps: seq<Point>, median: int, threshold: int): seq<Point>
    requires |ps| >= 1
  {
    if |ps| == 1 then ps
    else
      var n := |ps| - 1;
      Marked(ps[..n], median, threshold)
      + (if ps[n].t - ps[n - 1].t > threshold then [Marker(ps[n - 1].t + median)] else [])
      + [ps[n]]
  }

  lemma {:induction false} MarkedNext(ps: seq<Point>, i: nat, median: int, threshold: int)
    requires 1 <= i < |ps|
    ensures Marked(ps[..i + 1], median, threshold)
         == Marked(ps[..i], median, threshold)
            + (if ps[i].t - ps[i - 1].t > threshold then [Marker(ps[i - 1].t + median)] else [])
            + [ps[i]]
  {
    assert ps[..i + 1][..i] == ps[..i];
  }

  function WithGaps(ps: seq<Point>, interval: int): seq<Point> {
    if |ps| < 2 then ps
    else
      var median := Median(Spacings(ps));
      Marked(ps, median, Threshold(median, interval))
  }

  method MeasureGaps(points: seq<Point>) returns (gaps: seq<int>)
    requires |points| >= 1
    ensures gaps == Spacings(points)
  {
    gaps := [];
    var i := 1;
    while i < |points|
      invariant 1 <= i <= |points|
      invariant gaps == Spacings(points)[..i - 1]
    {
      gaps := gaps + [points[i].t - points[i - 1].t];
      i := i + 1;
    }
  }

  method MarkGaps(points: seq<Point>, gaps: seq<int>, median: int, threshold: int) returns (result: seq<Point>)
    requires |points| >= 1 && gaps == Spacings(points)
    ensures result == Marked(points, median, threshold)
  {
    result := [points[0]];
    assert points[..1] == [points[0]];
    var i := 1;
    while i < |points|
      invariant 1 <= i <= |points|
      invariant result == Marked(points[..i], median, threshold)
    {
      MarkedNext(points, i, median, threshold);
      if gaps[i - 1] > threshold {
        result := result + [Marker(points[i - 1].t + median)];
      }
      result := result + [points[i]];
      i := i + 1;
    }
    assert points[..|points|] == points;
  }

  /** Gap insertion, loop by loop. */
  method InsertGaps(points: seq<Point>, interval: int) returns (result: seq<Point>)
    ensures result == WithGaps(points, interval)
  {
    if |points| < 2 {
      return points;
    }
    var gaps := MeasureGaps(points);
    var median := SortedCopy(gaps)[|gaps| / 2];
    var threshold := 2 * median;
    if threshold < HalfAgain(interval) {
      threshold := HalfAgain(interval);
    }
    result := MarkGaps(points, gaps, median, threshold);
  }

  ghost predicate AllSamples(ps: seq<Point>) {
    forall i :: 0 <= i < |ps| ==> ps[i].Sample?
  }

  lemma {:induction false} MarkedKeepsSamples(ps: seq<Point>, median: int, threshold: int)
    requires |ps| >= 1 && AllSamples(ps)
    ensures Filter(Marked(ps, median, threshold), IsSample) == ps
  {
    var n := |ps| - 1;
    if n == 0 {
      KeepOne(ps[0]);
      assert ps == [ps[0]];
    } else {
      MarkedKeepsSamples(ps[..n], median, threshold);
      var mark := if ps[n].t - ps[n - 1].t > threshold then [Marker(ps[n - 1].t + median)] else [];
      KeepOne(Marker(ps[n - 1].t + median));
      KeepLast(Marked(ps[..n], median, threshold), mark, ps[n]);
      assert ps == ps[..n] + [ps[n]];
    }
  }

  lemma {:induction false} KeepLast(front: seq<Point>, mark: seq<Point>, p: Point)
    requires Filter(mark, IsSample) == [] && p.Sample?
    ensures Filter(front + mark + [p], IsSample) == Filter(front, IsSample) + [p]
  {
    KeepOne(p);
    FilterConcat(front + mark, [p], IsSample);
    FilterConcat(front, mark, IsSample);
  }

  lemma {:induction false} KeepOne(p: Point)
    ensures Filter([p], IsSample) == if p.Sample? then [p] else []
  {
    assert Filter([p][1..], IsSample) == [];
  }

  /** Deleting the markers gives back the series. */
  lemma {:induction false} GapsKeepSamples(ps: seq<Point>, interval: int)
    requires AllSamples(ps)
    ensures Filter(WithGaps(ps, interval), IsSample) == ps
  {
    if |ps| >= 2 {
      var median := Median(Spacings(ps));
      MarkedKeepsSamples(ps, median, Threshold(median, interval));
    } else if |ps| == 1 {
      KeepOne(ps[0]);
      assert ps == [ps[0]];
    }
  }

  /** Every marker is between two samples, at or after the left one and before the right one. */
  ghost predicate MarkersSplitGaps(out: seq<Point>) {
    forall i :: 0 <= i < |out| && out[i].Marker? ==>
      0 < i < |out| - 1 && IsSample(out[i - 1]) && IsSample(out[i + 1])
      && out[i - 1].t <= out[i].t < out[i + 1].t
  }

  lemma {:induction false} OrderedSnoc(ps: seq<Point>, p: Point)
    requires Ordered(ps) && ps != [] && ps[|ps| - 1].t <= p.t
    ensures Ordered(ps + [p])
  {
  }

  lemma {:induction false} MarkedEnds(ps: seq<Point>, median: int, threshold: int)
    requires |ps| >= 1
    ensures var out := Marked(ps, median, threshold); |out| >= 1 && out[|out| - 1] == ps[|ps| - 1]
  {
  }

  lemma {:induction false} MarkedIsOrdered(ps: seq<Point>, median: int, threshold: int)
    requires |ps| >= 1 && Ordered(ps) && 0 <= median <= threshold
    ensures Ordered(Marked(ps, median, threshold))
  {
    var n := |ps| - 1;
    if n > 0 {
      MarkedIsOrdered(ps[..n], median, threshold);
      MarkedEnds(ps[..n], median, threshold);
      var front := Marked(ps[..n], median, threshold);
      if ps[n].t - ps[n - 1].t > threshold {
        OrderedSnoc(front, Marker(ps[n - 1].t + median));
        OrderedSnoc(front + [Marker(ps[n - 1].t + median)], ps[n]);
      } else {
        OrderedSnoc(front, ps[n]);
        assert front + [] + [ps[n]] == front + [ps[n]];
      }
    }
  }

  lemma {:induction false} SplitsSnoc(out: seq<Point>, mark: seq<Point>, p: Point)
    requires MarkersSplitGaps(out) && out != [] && out[|out| - 1].Sample? && p.Sample?
    requires mark == [] || (|mark| == 1 && mark[0].Marker? && out[|out| - 1].t <= mark[0].t < p.t)
    ensures MarkersSplitGaps(out + mark + [p])
  {
  }

  lemma {:induction false} MarkedSplitsGaps(ps: seq<Point>, median: int, threshold: int)
    requires |ps| >= 1 && AllSamples(ps) && 0 <= median <= threshold
    ensures MarkersSplitGaps(Marked(ps, median, threshold))
  {
    var n := |ps| - 1;
    if n > 0 {
      MarkedSplitsGaps(ps[..n], median, threshold);
      MarkedEnds(ps[..n], median, threshold);
      var mark := if ps[n].t - ps[n - 1].t > threshold then [Marker(ps[n - 1].t + median)] else [];
      SplitsSnoc(Marked(ps[..n], median, threshold), mark, ps[n]);
    }
  }

  lemma {:induction false} MedianOfOrdered(ps: seq<Point>)
    requires |ps| >= 2 && Ordered(ps)
    ensures Median(Spacings(ps)) >= 0
  {
    var g := Spacings(ps);
    var m := Median(g);
    SortedCopySorts(g);
    assert m in multiset(SortedCopy(g));
    assert m in g;
  }

  /** On a time-ordered series the output is time-ordered and every marker splits the gap it stands for. */
  lemma {:induction false} GapsAreOrdered(ps: seq<Point>, interval: int)
    requires AllSamples(ps) && Ordered(ps)
    ensures Ordered(WithGaps(ps, interval)) && MarkersSplitGaps(WithGaps(ps, interval))
  {
    if |ps| >= 2 {
      MedianOfOrdered(ps);
      var median := Median(Spacings(ps));
      MarkedIsOrdered(ps, median, Threshold(median, interval));
      MarkedSplitsGaps(ps, median, Threshold(median, interval));
    }
  }

  // ---- how many markers there can be

  function CountAbove(s: seq<int>, m: int): nat {
    if s == [] then 0 else (if s[0] > m then 1 else 0) + CountAbove(s[1..], m)
  }

  lemma {:induction false} CountAboveSnoc(s: seq<int>, x: int, m: int)
    ensures CountAbove(s + [x], m) == CountAbove(s, m) + if x > m then 1 else 0
  {
    if s != [] {
      assert (s + [x])[1..] == s[1..] + [x];
      CountAboveSnoc(s[1..], x, m);
    }
  }

  lemma {:induction false} CountAboveInsert(x: int, s: seq<int>, m: int)
    ensures CountAbove(Insert(x, s), m) == CountAbove(s, m) + if x > m then 1 else 0
  {
    if s != [] && x > s[0] {
      CountAboveInsert(x, s[1..], m);
    }
  }

  lemma {:induction false} CountAboveSorted(s: seq<int>, m: int)
    ensures CountAbove(SortedCopy(s), m) == CountAbove(s, m)
  {
    if s != [] {
      CountAboveSorted(s[1..], m);
      CountAboveInsert(s[0], SortedCopy(s[1..]), m);
    }
  }

  /** In a sorted sequence nothing up to position `k` exceeds a bound that is at least the element there. */
  lemma {:induction false} FewAbove(s: seq<int>, k: int, m: int)
    requires Sorted(s) && k < |s| && (0 <= k ==> s[k] <= m)
    ensures CountAbove(s, m) <= if k < 0 then |s| else |s| - 1 - k
  {
    if s != [] {
      assert Sorted(s[1..]);
      FewAbove(s[1..], if k < 0 then -1 else k - 1, m);
    }
  }

  lemma {:induction false} SpacingsSnoc(ps: seq<Point>)
    requires |ps| >= 2
    ensures var n := |ps| - 1; Spacings(ps) == Spacings(ps[..n]) + [ps[n].t - ps[n - 1].t]
  {
  }

  lemma {:induction false} MarkedLength(ps: seq<Point>, median: int, threshold: int)
    requires |ps| >= 1
    ensures |Marked(ps, median, threshold)| == |ps| + CountAbove(Spacings(ps), threshold)
  {
    var n := |ps| - 1;
    if n > 0 {
      MarkedLength(ps[..n], median, threshold);
      CountAboveSnoc(Spacings(ps[..n]), ps[n].t - ps[n - 1].t, threshold);
      SpacingsSnoc(ps);
    }
  }

  /** With `g` gaps at most `g - 1 - g / 2` of them get a marker, so a steady series is never broken up. */
  lemma {:induction false} FewMarkers(ps: seq<Point>, interval: int)
    requires Ordered(ps) && |ps| >= 2
    ensures var g := |ps| - 1; |WithGaps(ps, interval)| - |ps| <= g - 1 - g / 2
  {
    var g := Spacings(ps);
    var median := Median(g);
    var threshold := Threshold(median, interval);
    MedianOfOrdered(ps);
    MarkedLength(ps, median, threshold);
    CountAboveSorted(g, threshold);
    SortedCopySorts(g);
    FewAbove(SortedCopy(g), |g| / 2, threshold);
  }

  // ---- which gaps are marked, and where

  /** Where sample `i` stands in the output: after `i` samples and the markers of the late gaps before it. */
  function Place(g: seq<int>, limit: int, i: nat): nat
    requires i <= |g|
  {
    i + CountAbove(g[..i], limit)
  }

  lemma {:induction false} PlaceInPrefix(ps: seq<Point>, limit: int, i: nat)
    requires |ps| >= 2 && i <= |ps| - 2
    ensures Place(Spacings(ps[..|ps| - 1]), limit, i) == Place(Spacings(ps), limit, i)
  {
    SpacingsSnoc(ps);
    assert Spacings(ps)[..i] == Spacings(ps[..|ps| - 1])[..i];
  }

  /** The marker due after sample `i`: one exactly when the gap there is late. */
  function MarkAfter(ps: seq<Point>, median: int, limit: int, i: nat): Option<Point>
    requires i < |ps|
  {
    if i < |ps| - 1 && ps[i + 1].t - ps[i].t > limit then Some(Marker(ps[i].t + median)) else None
  }

  predicate Stands(out: seq<Point>, at: nat, p: Point, mark: Option<Point>) {
    at < |out| && out[at] == p && (mark.Some? ==> at + 1 < |out| && out[at + 1] == mark.value)
  }

  lemma {:induction false} StandsInLonger(out: seq<Point>, out': seq<Point>, at: nat, p: Point, mark: Option<Point>)
    requires out <= out' && Stands(out, at, p, mark)
    ensures Stands(out', at, p, mark)
  {
  }

  /** Sample `i` is in its place, followed by the marker due there. */
  ghost predicate PlacedAt(out: seq<Point>, ps: seq<Point>, median: int, limit: int, i: nat)
    requires i < |ps|
  {
    Stands(out, Place(Spacings(ps), limit, i), ps[i], MarkAfter(ps, median, limit, i))
  }

  /** The last sample is the last point. */
  lemma {:induction false} LastPlace(ps: seq<Point>, median: int, limit: int)
    requires |ps| >= 1
    ensures var out := Marked(ps, median, limit);
      |out| >= 1 && Place(Spacings(ps), limit, |ps| - 1) == |out| - 1 && out[|out| - 1] == ps[|ps| - 1]
  {
    MarkedLength(ps, median, limit);
    MarkedEnds(ps, median, limit);
    assert Spacings(ps)[..|ps| - 1] == Spacings(ps);
  }

  lemma {:induction false} MarkedGrows(ps: seq<Point>, median: int, limit: int)
    requires |ps| >= 2
    ensures Marked(ps[..|ps| - 1], median, limit) <= Marked(ps, median, limit)
  {
  }

  lemma {:induction false} SecondLastPlace(ps: seq<Point>, median: int, limit: int)
    requires |ps| >= 2
    ensures PlacedAt(Marked(ps, median, limit), ps, median, limit, |ps| - 2)
  {
    var n := |ps| - 1;
    LastPlace(ps[..n], median, limit);
    PlaceInPrefix(ps, limit, n - 1);
    assert ps[..n][n - 1] == ps[n - 1];
  }

  /** A longer series places its earlier samples where a shorter one did. */
  lemma {:induction false} EarlierPlace(out: seq<Point>, out': seq<Point>, ps: seq<Point>, median: int, limit: int, i: nat)
    requires i < |ps| - 2 && PlacedAt(out, ps[..|ps| - 1], median, limit, i) && out <= out'
    ensures PlacedAt(out', ps, median, limit, i)
  {
    PlaceInPrefix(ps, limit, i);
    assert MarkAfter(ps[..|ps| - 1], median, limit, i) == MarkAfter(ps, median, limit, i);
    StandsInLonger(out, out', Place(Spacings(ps), limit, i), ps[i], MarkAfter(ps, median, limit, i));
  }

  lemma {:induction false} MarkedPlaces(ps: seq<Point>, median: int, limit: int, i: nat)
    requires i < |ps|
    ensures PlacedAt(Marked(ps, median, limit), ps, median, limit, i)
  {
    var n := |ps| - 1;
    if i == n {
      LastPlace(ps, median, limit);
    } else if i == n - 1 {
      SecondLastPlace(ps, median, limit);
    } else {
      MarkedPlaces(ps[..n], median, limit, i);
      MarkedGrows(ps, median, limit);
      EarlierPlace(Marked(ps[..n], median, limit), Marked(ps, median, limit), ps, median, limit, i);
    }
  }

  /** Twice the median or one and a half intervals, whichever is larger. */
  function LateAbove(median: int, interval: int): int {
    var floor := if interval >= 0 then 3 * interval / 2 else -(3 * -interval / 2);
    if 2 * median >= floor then 2 * median else floor
  }

  lemma {:induction false} ThresholdIs(median: int, interval: int)
    ensures Threshold(median, interval) == LateAbove(median, interval)
  {
  }

  /**
   * The output is the samples in order with a marker after exactly those whose gap is
   * longer than twice the median gap and one and a half intervals, at the sample's time
   * plus the median; with the length, nothing else is in it.
   */
  lemma {:induction false} GapsAreMarked(ps: seq<Point>, interval: int, i: nat)
    requires |ps| >= 2 && i < |ps|
    ensures var g, out := Spacings(ps), WithGaps(ps, interval);
      var median := SortedCopy(g)[|g| / 2];
      var limit := LateAbove(median, interval);
      |out| == |ps| + CountAbove(g, limit) && PlacedAt(out, ps, median, limit, i)
  {
    var g := Spacings(ps);
    var median := Median(g);
    ThresholdIs(median, interval);
    MarkedLength(ps, median, Threshold(median, interval));
    MarkedPlaces(ps, median, Threshold(median, interval), i);
  }
}
