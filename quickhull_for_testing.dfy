/** The testing version of QuickHull
    (convex_hull/algorithms/quickhull_for_Testing.py). The hull list that
    `quickhull_recursive` mutates in place, and the snapshot list it appends
    to, are threaded through the recursion as explicit accumulators. The
    farthest point is chosen by absolute distance with no side filter, and
    a snapshot is taken only after each insertion. Filters, insertion, the
    first leftmost/rightmost search and the partition around the first line
    are the ones of the `Quickhull` module, whose loops do the same. */
module QuickhullForTesting {
  import opened Base
  import Quickhull

  // ---------------------------------------------------------------------
  // Distance and the farthest point
  // ---------------------------------------------------------------------

  /** `distance_from_line`: the signed cross product of the line
      `s -> e` and `p - s`; positive exactly when `p` is left of the line
      and negative exactly when it is right of it, as `findSide` of
      quickhull.py says. */
  function DistanceFromLine(p: Point, s: Point, e: Point): (d: real)
    ensures d == Quickhull.Cross(s, e, p)
    ensures d > 0.0 <==> Quickhull.FindSide(s, e, p) == 1
    ensures d < 0.0 <==> Quickhull.FindSide(s, e, p) == -1
  {
    Quickhull.CrossCommuted(s, e, p);
    (e.x - s.x) * (p.y - s.y) - (e.y - s.y) * (p.x - s.x)
  }

  /** `abs(distance_from_line(p, s, e))`, which is `lineDist` of quickhull.py. */
  function AbsDistance(p: Point, s: Point, e: Point): (d: real)
    ensures d == Quickhull.LineDist(s, e, p)
  {
    var v := DistanceFromLine(p, s, e);
    if v < 0.0 then -v else v
  }

  /** The index of `farthest` after the loop of `find_farthest_point` has
      looked at `points[..n]`, or -1 while it is still `None`. */
  function FarthestIn(points: seq<Point>, s: Point, e: Point, n: nat): (i: int)
    requires n <= |points|
    ensures -1 <= i < n
    decreases n
  {
    if n == 0 then -1
    else
      var j := FarthestIn(points, s, e, n - 1);
      var best := if j == -1 then 0.0 else AbsDistance(points[j], s, e);
      if AbsDistance(points[n - 1], s, e) > best then n - 1 else j
  }

  /** `i` is what `find_farthest_point` must find: -1 when every point is
      on the line, and otherwise a point off the line at maximal distance
      that is strictly farther than every point before it. */
  predicate IsFarthest(points: seq<Point>, s: Point, e: Point, i: int)
  {
    -1 <= i < |points| &&
    (i == -1 <==> forall k :: 0 <= k < |points| ==> AbsDistance(points[k], s, e) == 0.0) &&
    (i >= 0 ==>
       AbsDistance(points[i], s, e) > 0.0 &&
       (forall k :: 0 <= k < |points| ==> AbsDistance(points[k], s, e) <= AbsDistance(points[i], s, e)) &&
       (forall k :: 0 <= k < i ==> AbsDistance(points[k], s, e) < AbsDistance(points[i], s, e)))
  }

  /** The loop's choice is the farthest point of the prefix it has seen. */
  lemma {:induction false} FarthestInIsFarthest(points: seq<Point>, s: Point, e: Point, n: nat)
    requires n <= |points|
    ensures IsFarthest(points[..n], s, e, FarthestIn(points, s, e, n))
    decreases n
  {
    if n > 0 {
      FarthestInIsFarthest(points, s, e, n - 1);
      var u, t := points[..n - 1], points[..n];
      assert forall k :: 0 <= k < n - 1 ==> t[k] == u[k];
    }
  }

  /** The point `find_farthest_point` returns, as an option. */
  function Farthest(points: seq<Point>, s: Point, e: Point): Option<Point>
  {
    var i := FarthestIn(points, s, e, |points|);
    if i == -1 then None else Some(points[i])
  }

  /** The point found is one of the points. */
  lemma FarthestMember(points: seq<Point>, s: Point, e: Point)
    ensures Farthest(points, s, e).Some? ==> Farthest(points, s, e).value in points
  {
  }

  /** No point is found exactly when every point is on the line (in
      particular for an empty list); a point found is off the line, at the
      greatest absolute distance, and strictly farther than every point
      before its first occurrence. */
  lemma FarthestSpec(points: seq<Point>, s: Point, e: Point)
    ensures Farthest(points, s, e).None? <==>
              forall k :: 0 <= k < |points| ==> DistanceFromLine(points[k], s, e) == 0.0
    ensures Farthest(points, s, e).Some? ==>
              exists i :: 0 <= i < |points| && IsFarthest(points, s, e, i) && Farthest(points, s, e).value == points[i]
  {
    FarthestInIsFarthest(points, s, e, |points|);
    assert points[..|points|] == points;
  }

  /** `find_farthest_point`: the loop keeps the first point of greatest
      absolute distance seen so far, starting from distance 0. */
  method FindFarthestPoint(points: seq<Point>, s: Point, e: Point) returns (farthest: Option<Point>)
    ensures farthest == Farthest(points, s, e)
    ensures farthest.None? <==> forall k :: 0 <= k < |points| ==> DistanceFromLine(points[k], s, e) == 0.0
    ensures farthest.Some? ==>
              exists i :: 0 <= i < |points| && IsFarthest(points, s, e, i) && farthest.value == points[i]
  {
    var maxDist := 0.0;
    farthest := None;
    ghost var ind := -1;
    var i := 0;
    while i < |points|
      invariant 0 <= i <= |points|
      invariant ind == FarthestIn(points, s, e, i)
      invariant farthest == if ind == -1 then None else Some(points[ind])
      invariant maxDist == if ind == -1 then 0.0 else AbsDistance(points[ind], s, e)
    {
      var p := points[i];
      var dist := AbsDistance(p, s, e);
      if dist > maxDist {
        maxDist := dist;
        farthest := Some(p);
        ind := i;
      }
      i := i + 1;
    }
    assert points[..|points|] == points;
    FarthestSpec(points, s, e);
  }

  // ---------------------------------------------------------------------
  // quickhull_recursive
  // ---------------------------------------------------------------------

  /** The second loop of `quickhull_recursive`: each point other than the
      farthest one goes to the left list when strictly left of
      s -> farthest and (independently) to the right list when strictly
      left of farthest -> e. */
  method SplitAround(points: seq<Point>, s: Point, f: Point, e: Point)
    returns (left: seq<Point>, right: seq<Point>)
    ensures left == Quickhull.LeftSet(points, s, f, 1)
    ensures right == Quickhull.RightSet(points, f, e, 1)
  {
    left, right := [], [];
    var i := 0;
    while i < |points|
      invariant 0 <= i <= |points|
      invariant left == Quickhull.SideFilter(Quickhull.Remove(points[..i], f), s, f, 1)
      invariant right == Quickhull.SideFilter(Quickhull.Remove(points[..i], f), f, e, 1)
    {
      var p := points[i];
      assert points[..i + 1] == points[..i] + [p];
      Quickhull.PartitionStep(points[..i], p, f, s, f, 1);
      Quickhull.PartitionStep(points[..i], p, f, f, e, 1);
      if p != f {
        var distLeft := DistanceFromLine(p, s, f);
        var distRight := DistanceFromLine(p, f, e);
        if distLeft > 0.0 {
          left := left + [p];
        }
        if distRight > 0.0 {
          right := right + [p];
        }
      }
      i := i + 1;
    }
    assert points[..|points|] == points;
  }

  /** The hull after a call and the snapshots the call appends. */
  datatype Grown = Grown(hull: seq<Point>, snapshots: seq<seq<Point>>)

  /** What `quickhull_recursive(points, s, e, hull, steps)` does to the
      hull `h` and which snapshots it appends. */
  function Recursive(points: seq<Point>, s: Point, e: Point, h: seq<Point>): Grown
    decreases |points|
  {
    match Farthest(points, s, e)
    case None => Grown(h, [])
    case Some(f) =>
      var h1 := Quickhull.InsertBefore(h, f, e);
      FarthestMember(points, s, e);
      Quickhull.RemoveShorter(points, f);
      var g1 := Recursive(Quickhull.LeftSet(points, s, f, 1), s, f, h1);
      var g2 := Recursive(Quickhull.RightSet(points, f, e, 1), f, e, g1.hull);
      Grown(g2.hull, [h1] + g1.snapshots + g2.snapshots)
  }

  /** `quickhull_recursive`: with `h0` the hull list on entry, `hull` is
      the list on exit; `snaps` is the snapshot list after the call when
      `recording`, and is left alone otherwise. */
  method QuickhullRecursive(points: seq<Point>, s: Point, e: Point, h0: seq<Point>,
                            recording: bool, snaps0: seq<seq<Point>>)
    returns (hull: seq<Point>, snaps: seq<seq<Point>>)
    ensures hull == Recursive(points, s, e, h0).hull
    ensures snaps == if recording then snaps0 + Recursive(points, s, e, h0).snapshots else snaps0
    decreases |points|
  {
    hull, snaps := h0, snaps0;
    if points == [] {
      return;
    }
    var farthest := FindFarthestPoint(points, s, e);
    if farthest.None? {
      return;
    }
    var f := farthest.value;
    hull := Quickhull.InsertBefore(hull, f, e);
    if recording {
      snaps := snaps + [hull];
    }
    ghost var h1 := hull;
    var left, right := SplitAround(points, s, f, e);
    Quickhull.RemoveShorter(points, f);
    hull, snaps := QuickhullRecursive(left, s, f, hull, recording, snaps);
    ghost var g1 := Recursive(left, s, f, h1);
    hull, snaps := QuickhullRecursive(right, f, e, hull, recording, snaps);
    ghost var g2 := Recursive(right, f, e, g1.hull);
    assert Recursive(points, s, e, h0) == Grown(g2.hull, [h1] + g1.snapshots + g2.snapshots);
    if recording {
      Regroup(snaps0, h1, g1.snapshots, g2.snapshots);
    }
  }

  /** Proof helper, not a property of the source: regrouping the
      snapshots of one call that found a farthest point. */
  lemma Regroup(snaps0: seq<seq<Point>>, h1: seq<Point>, s1: seq<seq<Point>>, s2: seq<seq<Point>>)
    ensures snaps0 + [h1] + s1 + s2 == snaps0 + ([h1] + s1 + s2)
  {
    AppendAssoc(snaps0, [h1], s1);
    AppendAssoc(snaps0, [h1] + s1, s2);
  }

  /** `g` grows the hull `h` by points of `pts` only: no entry of `h` is
      dropped, there is one snapshot per point added, no snapshot means an
      unchanged hull, and the last snapshot is the hull reached. */
  predicate GrowsFrom(h: seq<Point>, pts: seq<Point>, g: Grown)
  {
    multiset(h) <= multiset(g.hull) &&
    (forall q :: q in g.hull ==> q in h || q in pts) &&
    |g.snapshots| == |g.hull| - |h| &&
    (g.snapshots == [] ==> g.hull == h) &&
    (g.snapshots != [] ==> g.snapshots[|g.snapshots| - 1] == g.hull)
  }

  /** Every call of `quickhull_recursive` grows the hull by its own points
      only, one snapshot per point added; with no point off the line it
      changes nothing. */
  lemma {:induction false} RecursiveGrows(points: seq<Point>, s: Point, e: Point, h: seq<Point>)
    ensures GrowsFrom(h, points, Recursive(points, s, e, h))
    ensures Farthest(points, s, e).None? ==> Recursive(points, s, e, h) == Grown(h, [])
    decreases |points|
  {
    match Farthest(points, s, e)
    case None =>
    case Some(f) =>
      FarthestMember(points, s, e);
      var h1 := Quickhull.InsertBefore(h, f, e);
      Quickhull.ChildrenShorter(points, s, f, e, 1);
      var left, right := Quickhull.LeftSet(points, s, f, 1), Quickhull.RightSet(points, f, e, 1);
      RecursiveGrows(left, s, f, h1);
      var g1 := Recursive(left, s, f, h1);
      RecursiveGrows(right, f, e, g1.hull);
      var g2 := Recursive(right, f, e, g1.hull);
      GrownPair(h1, left, right, g1, g2);
      AppendAssoc([h1], g1.snapshots, g2.snapshots);
      assert Recursive(points, s, e, h) == Grown(g2.hull, [h1] + (g1.snapshots + g2.snapshots));
      GrownInsert(h, f, h1, points, left + right, Grown(g2.hull, g1.snapshots + g2.snapshots));
  }

  /** Two calls in a row, the second starting from the hull the first ends
      with, grow the hull by the points of both. */
  lemma GrownPair(h1: seq<Point>, left: seq<Point>, right: seq<Point>, g1: Grown, g2: Grown)
    requires GrowsFrom(h1, left, g1) && GrowsFrom(g1.hull, right, g2)
    ensures GrowsFrom(h1, left + right, Grown(g2.hull, g1.snapshots + g2.snapshots))
  {
    var snaps := g1.snapshots + g2.snapshots;
    if g2.snapshots == [] {
      assert snaps == g1.snapshots;
    } else {
      assert snaps[|snaps| - 1] == g2.snapshots[|g2.snapshots| - 1];
    }
  }

  /** Inserting a point of the list and snapshotting the result, then
      growing by points of the list, grows the original hull by points of
      the list. */
  lemma GrownInsert(h: seq<Point>, f: Point, h1: seq<Point>, points: seq<Point>, rest: seq<Point>, g: Grown)
    requires multiset(h1) == multiset(h) + multiset{f} && |h1| == |h| + 1
    requires f in points && forall q :: q in rest ==> q in points
    requires GrowsFrom(h1, rest, g)
    ensures GrowsFrom(h, points, Grown(g.hull, [h1] + g.snapshots))
  {
    var snaps := [h1] + g.snapshots;
    assert snaps[|snaps| - 1] == g.hull by {
      if g.snapshots != [] {
        assert snaps[|snaps| - 1] == g.snapshots[|g.snapshots| - 1];
      }
    }
    forall q | q in g.hull ensures q in h || q in points {
      if q in h1 && q != f {
        assert q in multiset(h1);
      }
    }
  }

  // ---------------------------------------------------------------------
  // quickhull_algorithm
  // ---------------------------------------------------------------------

  /** The hull and the snapshots of the two top-level calls on the points
      above and below the line lo -> hi, after the first snapshot [lo, hi]. */
  function Combine(lo: Point, hi: Point, upper: seq<Point>, lower: seq<Point>): Grown
  {
    var g1 := Recursive(upper, lo, hi, [lo, hi]);
    var g2 := Recursive(lower, hi, lo, g1.hull);
    Grown(g2.hull, [[lo, hi]] + g1.snapshots + g2.snapshots)
  }

  /** The first leftmost point (`min` with an x key keeps the first minimum). */
  function Leftmost(points: seq<Point>): Point
    requires |points| >= 1
  {
    points[Quickhull.MinXIn(points, |points|)]
  }

  /** The first rightmost point (`max` with an x key keeps the first maximum). */
  function Rightmost(points: seq<Point>): Point
    requires |points| >= 1
  {
    points[Quickhull.MaxXIn(points, |points|)]
  }

  /** The built hull and snapshots of `quickhull_algorithm` before the final
      reordering. */
  function Build(points: seq<Point>): Grown
    requires |points| >= 3
  {
    var lo, hi := Leftmost(points), Rightmost(points);
    var inner := Quickhull.Inner(points, lo, hi);
    Combine(lo, hi, Quickhull.SideFilter(inner, lo, hi, 1), Quickhull.SideFilter(inner, lo, hi, -1))
  }

  /** What `quickhull_algorithm` returns outside step mode; `order` stands
      for the sort by angle around the centroid. */
  function TestingHull(points: seq<Point>, order: seq<Point> -> seq<Point>): seq<Point>
  {
    if |points| <= 2 then points else Quickhull.Ordered(Build(points).hull, order)
  }

  /** What `quickhull_algorithm` returns in step mode. */
  function TestingSnapshots(points: seq<Point>, order: seq<Point> -> seq<Point>): seq<seq<Point>>
  {
    if |points| <= 2 then [points] else Build(points).snapshots + [TestingHull(points, order)]
  }

  /** What `quickhull_algorithm` returns: the hull, or the snapshots in step mode. */
  datatype Output = Hull(hull: seq<Point>) | Snapshots(snapshots: seq<seq<Point>>)

  /** The part of `quickhull_algorithm` before the final reordering: the
      first snapshot, the partition around the first line, and the two
      top-level calls. */
  method BuildHull(points: seq<Point>, stepMode: bool) returns (hull: seq<Point>, snaps: seq<seq<Point>>)
    requires |points| >= 3
    ensures hull == Build(points).hull
    ensures snaps == if stepMode then Build(points).snapshots else []
  {
    var leftmost := points[Quickhull.MinXIn(points, |points|)];
    var rightmost := points[Quickhull.MaxXIn(points, |points|)];
    snaps := [];
    hull := [leftmost, rightmost];
    if stepMode {
      snaps := snaps + [hull];
      assert snaps == [[leftmost, rightmost]];
    }
    var upper, lower := Quickhull.SplitByLine(points, leftmost, rightmost);
    hull, snaps := QuickhullRecursive(upper, leftmost, rightmost, hull, stepMode, snaps);
    ghost var g1 := Recursive(upper, leftmost, rightmost, [leftmost, rightmost]);
    hull, snaps := QuickhullRecursive(lower, rightmost, leftmost, hull, stepMode, snaps);
    ghost var g2 := Recursive(lower, rightmost, leftmost, g1.hull);
    assert Combine(leftmost, rightmost, upper, lower) == Grown(g2.hull, [[leftmost, rightmost]] + g1.snapshots + g2.snapshots);
  }

  /** `quickhull_algorithm` of the testing version. */
  method QuickhullAlgorithm(points: seq<Point>, stepMode: bool, order: seq<Point> -> seq<Point>)
    returns (out: Output)
    ensures out == if stepMode then Snapshots(TestingSnapshots(points, order)) else Hull(TestingHull(points, order))
  {
    if |points| <= 2 {
      if stepMode {
        out := Snapshots([points]);
      } else {
        out := Hull(points);
      }
      return;
    }
    var hull, snaps := BuildHull(points, stepMode);
    if |hull| > 2 {
      hull := order(hull);
    }
    if stepMode {
      snaps := snaps + [hull];
      out := Snapshots(snaps);
    } else {
      out := Hull(hull);
    }
  }

  // ---------------------------------------------------------------------
  // What quickhull_algorithm promises
  // ---------------------------------------------------------------------

  /** The two top-level calls keep the two end points, add only their own
      points, and take one snapshot per point added. */
  lemma CombineGrows(lo: Point, hi: Point, upper: seq<Point>, lower: seq<Point>)
    ensures var c := Combine(lo, hi, upper, lower);
            multiset([lo, hi]) <= multiset(c.hull) && |c.hull| >= 2 &&
            (forall q :: q in c.hull ==> q == lo || q == hi || q in upper || q in lower) &&
            |c.snapshots| == |c.hull| - 1 &&
            c.snapshots[|c.snapshots| - 1] == c.hull
  {
    RecursiveGrows(upper, lo, hi, [lo, hi]);
    var g1 := Recursive(upper, lo, hi, [lo, hi]);
    RecursiveGrows(lower, hi, lo, g1.hull);
    var g2 := Recursive(lower, hi, lo, g1.hull);
    GrownPair([lo, hi], upper, lower, g1, g2);
    AppendAssoc([[lo, hi]], g1.snapshots, g2.snapshots);
    FirstSnapshot([lo, hi], upper + lower, Grown(g2.hull, g1.snapshots + g2.snapshots));
    SubMultisetLength([lo, hi], g2.hull);
    assert Combine(lo, hi, upper, lower) == Grown(g2.hull, [[lo, hi]] + (g1.snapshots + g2.snapshots));
  }

  /** Snapshotting the starting hull before growing it. */
  lemma FirstSnapshot(h: seq<Point>, pts: seq<Point>, g: Grown)
    requires GrowsFrom(h, pts, g)
    ensures var snaps := [h] + g.snapshots;
            multiset(h) <= multiset(g.hull) &&
            (forall q :: q in g.hull ==> q in h || q in pts) &&
            |snaps| == |g.hull| - |h| + 1 &&
            snaps[|snaps| - 1] == g.hull
  {
    var snaps := [h] + g.snapshots;
    if g.snapshots != [] {
      assert snaps[|snaps| - 1] == g.snapshots[|g.snapshots| - 1];
    }
  }

  /** The testing `quickhull_algorithm` returns only input points; two or
      fewer points come back as they are (one snapshot of them in step
      mode); for three or more points its hull is a reordering of the built
      hull, which holds the first leftmost and the first rightmost point. */
  lemma TestingFromInput(points: seq<Point>, order: seq<Point> -> seq<Point>)
    requires forall h: seq<Point> :: multiset(order(h)) == multiset(h)
    ensures forall q :: q in TestingHull(points, order) ==> q in points
    ensures |points| <= 2 ==> TestingHull(points, order) == points && TestingSnapshots(points, order) == [points]
    ensures |points| >= 3 ==>
              multiset(TestingHull(points, order)) == multiset(Build(points).hull) &&
              multiset([Leftmost(points), Rightmost(points)]) <= multiset(TestingHull(points, order))
  {
    if |points| >= 3 {
      var lo, hi := Leftmost(points), Rightmost(points);
      var inner := Quickhull.Inner(points, lo, hi);
      CombineGrows(lo, hi, Quickhull.SideFilter(inner, lo, hi, 1), Quickhull.SideFilter(inner, lo, hi, -1));
      Quickhull.CandidatesFromInput(points, lo, hi, 1);
      Quickhull.CandidatesFromInput(points, lo, hi, -1);
      var r := TestingHull(points, order);
      assert multiset(r) == multiset(Build(points).hull);
      forall q | q in r ensures q in points {
        assert q in multiset(r);
      }
    }
  }

  /** In step mode the first snapshot is [leftmost, rightmost], there is one
      snapshot per point the calls add, the one before last is the built
      hull, and the last one is the returned hull. */
  lemma TestingSnapshotsShape(points: seq<Point>, order: seq<Point> -> seq<Point>)
    requires |points| >= 3
    ensures var s := TestingSnapshots(points, order);
            |s| == |Build(points).hull| &&
            s[0] == [Leftmost(points), Rightmost(points)] &&
            s[|s| - 2] == Build(points).hull &&
            s[|s| - 1] == TestingHull(points, order)
  {
    var lo, hi := Leftmost(points), Rightmost(points);
    var inner := Quickhull.Inner(points, lo, hi);
    var upper, lower := Quickhull.SideFilter(inner, lo, hi, 1), Quickhull.SideFilter(inner, lo, hi, -1);
    CombineShape(lo, hi, upper, lower, TestingHull(points, order));
    assert Build(points) == Combine(lo, hi, upper, lower);
  }

  /** The snapshots of the two top-level calls followed by one more. */
  lemma CombineShape(lo: Point, hi: Point, upper: seq<Point>, lower: seq<Point>, last: seq<Point>)
    ensures var c := Combine(lo, hi, upper, lower);
            var s := c.snapshots + [last];
            |s| == |c.hull| && s[0] == [lo, hi] && s[|s| - 2] == c.hull && s[|s| - 1] == last
  {
    CombineGrows(lo, hi, upper, lower);
    CombineFirst(lo, hi, upper, lower);
    AppendOne(Combine(lo, hi, upper, lower).snapshots, last);
  }

  /** Proof helper, not a property of the source: first, second-to-last
      and last element after appending one element. */
  lemma AppendOne<T>(b: seq<T>, x: T)
    requires |b| >= 1
    ensures var s := b + [x];
            |s| == |b| + 1 && s[0] == b[0] && s[|s| - 2] == b[|b| - 1] && s[|s| - 1] == x
  {
  }

  /** The first snapshot of the two top-level calls is [lo, hi]. */
  lemma CombineFirst(lo: Point, hi: Point, upper: seq<Point>, lower: seq<Point>)
    ensures Combine(lo, hi, upper, lower).snapshots[0] == [lo, hi]
  {
    var g1 := Recursive(upper, lo, hi, [lo, hi]);
    var g2 := Recursive(lower, hi, lo, g1.hull);
    assert ([[lo, hi]] + g1.snapshots + g2.snapshots)[0] == [lo, hi];
  }

  /** When every point lies on the line through the first leftmost and the
      first rightmost point, both side lists are empty and the hull is
      exactly those two points. */
  lemma TestingCollinear(points: seq<Point>, order: seq<Point> -> seq<Point>)
    requires |points| >= 3
    requires forall k :: 0 <= k < |points| ==> DistanceFromLine(points[k], Leftmost(points), Rightmost(points)) == 0.0
    ensures TestingHull(points, order) == [Leftmost(points), Rightmost(points)]
  {
    var lo, hi := Leftmost(points), Rightmost(points);
    Quickhull.NoneOnSide(points, lo, hi, 1);
    Quickhull.NoneOnSide(points, lo, hi, -1);
    CombineEmpty(lo, hi);
  }

  /** Proof helper for `TestingCollinear`: with no points on either side
      both calls leave [lo, hi] alone. */
  lemma CombineEmpty(lo: Point, hi: Point)
    ensures Combine(lo, hi, [], []).hull == [lo, hi]
  {
    assert Recursive([], lo, hi, [lo, hi]).hull == [lo, hi];
    assert Recursive([], hi, lo, [lo, hi]).hull == [lo, hi];
  }
}
