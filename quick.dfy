/** The legacy QuickHull copy (convex_hull/algorithms/quick.py).

    Its `findSide` (defined twice with the same body; the later definition
    wins) and `lineDist` are those of quickhull.py and are taken from the
    `Quickhull` module, as are the first leftmost/rightmost search and the
    partition around the first line, whose loops are the same. Its
    `quickHull` differs: it records a snapshot of the hull plus each
    candidate while searching, partitions on the unsigned distance, and
    its second recursive call leaves out the `side` argument, which Python
    rejects with a `TypeError` when the call is made. That error is the
    `Err(MissingSideArgument)` outcome here. */
module Quick {
  import opened Base
  import Quickhull

  /** The error raised by the second recursive call of `quickHull`. */
  datatype QuickError = MissingSideArgument

  /** A result or the error that ends the computation. */
  datatype Result<T> = Ok(value: T) | Err(error: QuickError)

  /** The global hull after a call and the snapshots it appended. */
  datatype State = State(hull: seq<Point>, steps: seq<seq<Point>>)

  // ---------------------------------------------------------------------
  // quickHull
  // ---------------------------------------------------------------------

  /** The snapshots of the search loop: the hull followed by each candidate. */
  function ProbeSnapshots(a: seq<Point>, h: seq<Point>): (r: seq<seq<Point>>)
    ensures |r| == |a|
    ensures forall i :: 0 <= i < |a| ==> r[i] == h + [a[i]]
  {
    seq(|a|, i requires 0 <= i < |a| => h + [a[i]])
  }

  /** The first `for` loop of `quickHull`: the same search for the farthest
      candidate as in quickhull.py, with a snapshot per point looked at. */
  method ScanCandidates(a: seq<Point>, p1: Point, p2: Point, side: int, h: seq<Point>,
                        recording: bool, steps0: seq<seq<Point>>)
    returns (ind: int, steps: seq<seq<Point>>)
    ensures ind == Quickhull.Farthest(a, p1, p2, side)
    ensures Quickhull.IsFarthest(a, p1, p2, side, ind)
    ensures steps == if recording then steps0 + ProbeSnapshots(a, h) else steps0
  {
    ind := -1;
    var maxDist := 0.0;
    steps := steps0;
    var i := 0;
    while i < |a|
      invariant 0 <= i <= |a|
      invariant ind == Quickhull.FarthestIn(a, p1, p2, side, i)
      invariant maxDist == if ind == -1 then 0.0 else Quickhull.LineDist(p1, p2, a[ind])
      invariant steps == if recording then steps0 + ProbeSnapshots(a[..i], h) else steps0
    {
      var temp := Quickhull.LineDist(p1, p2, a[i]);
      if recording {
        assert ProbeSnapshots(a[..i + 1], h) == ProbeSnapshots(a[..i], h) + [h + [a[i]]];
        AppendAssoc(steps0, ProbeSnapshots(a[..i], h), [h + [a[i]]]);
        steps := steps + [h + [a[i]]];
      }
      if Quickhull.FindSide(p1, p2, a[i]) == side && temp > maxDist {
        ind := i;
        maxDist := temp;
      }
      i := i + 1;
    }
    assert a[..|a|] == a;
    Quickhull.FarthestIsFarthest(a, p1, p2, side);
  }

  /** The points of `s` off the line u -> v (`lineDist > 0`), in order. */
  function OffLine(s: seq<Point>, u: Point, v: Point): (r: seq<Point>)
    ensures |r| <= |s|
    decreases |s|
  {
    if s == [] then []
    else
      OffLine(s[..|s| - 1], u, v) + (if Quickhull.LineDist(u, v, s[|s| - 1]) > 0.0 then [s[|s| - 1]] else [])
  }

  /** `OffLine` keeps exactly the points of `s` that are not on the line,
      whichever side they are on. */
  lemma {:induction false} OffLineMembers(s: seq<Point>, u: Point, v: Point)
    ensures forall q :: q in OffLine(s, u, v) <==> q in s && Quickhull.FindSide(u, v, q) != 0
    decreases |s|
  {
    if s != [] {
      var init := s[..|s| - 1];
      assert s == init + [s[|s| - 1]];
      OffLineMembers(init, u, v);
    }
  }

  lemma OffLineSnoc(s: seq<Point>, q: Point, u: Point, v: Point)
    ensures OffLine(s + [q], u, v) == OffLine(s, u, v) + (if Quickhull.LineDist(u, v, q) > 0.0 then [q] else [])
  {
    assert (s + [q])[..|s|] == s;
  }

  /** One more point seen by the partition loop of `quickHull`. */
  lemma OffLineStep(s: seq<Point>, p: Point, f: Point, u: Point, v: Point)
    ensures OffLine(Quickhull.Remove(s + [p], f), u, v)
            == OffLine(Quickhull.Remove(s, f), u, v)
               + (if p != f && Quickhull.LineDist(u, v, p) > 0.0 then [p] else [])
  {
    Quickhull.RemoveSnoc(s, p, f);
    if p != f {
      OffLineSnoc(Quickhull.Remove(s, f), p, u, v);
    } else {
      assert Quickhull.Remove(s + [p], f) == Quickhull.Remove(s, f) + [];
      assert Quickhull.Remove(s, f) + [] == Quickhull.Remove(s, f);
      assert OffLine(Quickhull.Remove(s, f), u, v) + [] == OffLine(Quickhull.Remove(s, f), u, v);
    }
  }

  /** The partition loop of `quickHull`: every point other than the
      farthest one goes to the left list when off the line p1 -> farthest
      and (independently) to the right list when off farthest -> p2, on
      either side of each line. */
  method PartitionOffLine(a: seq<Point>, p1: Point, f: Point, p2: Point)
    returns (left: seq<Point>, right: seq<Point>)
    ensures left == OffLine(Quickhull.Remove(a, f), p1, f)
    ensures right == OffLine(Quickhull.Remove(a, f), f, p2)
  {
    left, right := [], [];
    var i := 0;
    while i < |a|
      invariant 0 <= i <= |a|
      invariant left == OffLine(Quickhull.Remove(a[..i], f), p1, f)
      invariant right == OffLine(Quickhull.Remove(a[..i], f), f, p2)
    {
      var p := a[i];
      assert a[..i + 1] == a[..i] + [p];
      OffLineStep(a[..i], p, f, p1, f);
      OffLineStep(a[..i], p, f, f, p2);
      if p != f {
        if Quickhull.LineDist(p1, f, p) > 0.0 {
          left := left + [p];
        }
        if Quickhull.LineDist(f, p2, p) > 0.0 {
          right := right + [p];
        }
      }
      i := i + 1;
    }
    assert a[..|a|] == a;
  }

  /** What one call `quickHull(a, len(a), p1, p2, side, steps)` does to the
      global hull `h`: without a candidate it adds the missing end points
      and takes one more snapshot; with one it ends in the error of the
      second recursive call. */
  function QuickRun(a: seq<Point>, p1: Point, p2: Point, side: int, h: seq<Point>): Result<State>
  {
    if Quickhull.Farthest(a, p1, p2, side) == -1 then
      var h1 := Quickhull.WithEndpoints(h, p1, p2);
      Ok(State(h1, ProbeSnapshots(a, h) + [h1]))
    else
      Err(MissingSideArgument)
  }

  /** `quickHull` with the global hull `h0` on entry and, when `recording`,
      the step list `steps0`: the search loop, then either the end points
      and a snapshot, or the insertion, its snapshot, the partition, the
      first recursive call and the failing second one. */
  method QuickHull(a: seq<Point>, p1: Point, p2: Point, side: int, h0: seq<Point>,
                   recording: bool, steps0: seq<seq<Point>>)
    returns (r: Result<State>)
    ensures r.Err? <==> QuickRun(a, p1, p2, side, h0).Err?
    ensures r.Ok? ==>
              r.value.hull == QuickRun(a, p1, p2, side, h0).value.hull &&
              r.value.steps == if recording then steps0 + QuickRun(a, p1, p2, side, h0).value.steps else steps0
    decreases |a|
  {
    var ind, steps := ScanCandidates(a, p1, p2, side, h0, recording, steps0);
    var hull := h0;
    if ind == -1 {
      if p1 !in hull {
        hull := hull + [p1];
      }
      if p2 !in hull {
        hull := hull + [p2];
      }
      if recording {
        AppendAssoc(steps0, ProbeSnapshots(a, h0), [hull]);
        steps := steps + [hull];
      }
      return Ok(State(hull, steps));
    }
    var farthest := a[ind];
    hull := Quickhull.InsertBefore(hull, farthest, p2);
    if recording {
      steps := steps + [hull];
    }
    var left, right := PartitionOffLine(a, p1, farthest, p2);
    Quickhull.RemoveShorter(a, farthest);
    var _ := QuickHull(left, p1, farthest, side, hull, recording, steps);
    r := Err(MissingSideArgument);
  }

  /** A call fails exactly when it finds a farthest point; when it does
      not, it records one snapshot per point it looked at plus one of the
      hull it ends with, and that hull holds both end points and keeps
      every earlier entry in place. */
  lemma QuickRunSpec(a: seq<Point>, p1: Point, p2: Point, side: int, h: seq<Point>)
    ensures QuickRun(a, p1, p2, side, h).Ok? <==>
              forall k :: 0 <= k < |a| ==> !Quickhull.Candidate(p1, p2, side, a[k])
    ensures QuickRun(a, p1, p2, side, h).Ok? ==>
              var st := QuickRun(a, p1, p2, side, h).value;
              |st.steps| == |a| + 1 && st.steps[|a|] == st.hull &&
              st.hull[..|h|] == h && p1 in st.hull && p2 in st.hull
  {
    Quickhull.FarthestIsFarthest(a, p1, p2, side);
    if Quickhull.Farthest(a, p1, p2, side) == -1 {
      var h1 := Quickhull.WithEndpoints(h, p1, p2);
      var hp := if p1 in h then h else h + [p1];
      assert hp[..|h|] == h;
      assert h1[..|h|] == h;
    }
  }

  // ---------------------------------------------------------------------
  // quickhull_algorithm
  // ---------------------------------------------------------------------

  /** What `quickhull_algorithm` returns. */
  datatype Output = Hull(hull: seq<Point>) | Snapshots(snapshots: seq<seq<Point>>)

  /** The first leftmost and the first rightmost point. */
  function Lo(points: seq<Point>): Point
    requires |points| >= 1
  {
    points[Quickhull.MinXIn(points, |points|)]
  }

  function Hi(points: seq<Point>): Point
    requires |points| >= 1
  {
    points[Quickhull.MaxXIn(points, |points|)]
  }

  /** The two top-level calls on the candidates above and below lo -> hi,
      after the first snapshot [lo, hi]; the first error ends it. */
  function Combine(lo: Point, hi: Point, upper: seq<Point>, lower: seq<Point>): Result<State>
  {
    match QuickRun(upper, lo, hi, 1, [lo, hi])
    case Err(e) => Err(e)
    case Ok(s1) =>
      match QuickRun(lower, hi, lo, 1, s1.hull)
      case Err(e) => Err(e)
      case Ok(s2) => Ok(State(s2.hull, [[lo, hi]] + s1.steps + s2.steps))
  }

  /** What `quickhull_algorithm(points, step_mode)` returns; `order` stands
      for the sort by angle around the centroid. */
  function QuickResult(points: seq<Point>, stepMode: bool, order: seq<Point> -> seq<Point>): Result<Output>
  {
    if |points| < 3 then
      Ok(if stepMode then Snapshots([points]) else Hull(points))
    else
      var lo, hi := Lo(points), Hi(points);
      var inner := Quickhull.Inner(points, lo, hi);
      match Combine(lo, hi, Quickhull.SideFilter(inner, lo, hi, 1), Quickhull.SideFilter(inner, lo, hi, -1))
      case Err(e) => Err(e)
      case Ok(st) =>
        var hull := Quickhull.Ordered(st.hull, order);
        Ok(if stepMode then Snapshots(st.steps + [hull]) else Hull(hull))
  }

  /** The part of `quickhull_algorithm` up to the two top-level calls. */
  method BuildHull(points: seq<Point>, stepMode: bool) returns (r: Result<State>)
    requires |points| >= 3
    ensures var lo, hi := Lo(points), Hi(points);
            var inner := Quickhull.Inner(points, lo, hi);
            var c := Combine(lo, hi, Quickhull.SideFilter(inner, lo, hi, 1), Quickhull.SideFilter(inner, lo, hi, -1));
            (r.Err? <==> c.Err?) &&
            (r.Ok? ==> r.value.hull == c.value.hull && r.value.steps == if stepMode then c.value.steps else [])
  {
    var minX, maxX := Quickhull.ExtremeIndices(points);
    var lo, hi := points[minX], points[maxX];
    var steps: seq<seq<Point>> := [];
    var hull := [lo, hi];
    if stepMode {
      steps := steps + [hull];
      assert steps == [[lo, hi]];
    }
    var upper, lower := Quickhull.SplitByLine(points, lo, hi);
    var r1 := QuickHull(upper, lo, hi, 1, hull, stepMode, steps);
    if r1.Err? {
      return Err(r1.error);
    }
    var r2 := QuickHull(lower, hi, lo, 1, r1.value.hull, stepMode, r1.value.steps);
    if r2.Err? {
      return Err(r2.error);
    }
    r := r2;
  }

  /** `quickhull_algorithm` of quick.py. */
  method QuickhullAlgorithm(points: seq<Point>, stepMode: bool, order: seq<Point> -> seq<Point>)
    returns (r: Result<Output>)
    ensures r == QuickResult(points, stepMode, order)
  {
    if |points| < 3 {
      if stepMode {
        return Ok(Snapshots([points]));
      }
      return Ok(Hull(points));
    }
    var b := BuildHull(points, stepMode);
    if b.Err? {
      return Err(b.error);
    }
    var hull := b.value.hull;
    if |hull| > 2 {
      hull := order(hull);
    }
    if stepMode {
      r := Ok(Snapshots(b.value.steps + [hull]));
    } else {
      r := Ok(Hull(hull));
    }
  }

  // ---------------------------------------------------------------------
  // What quickhull_algorithm promises
  // ---------------------------------------------------------------------

  /** A call on candidates that are all strictly on `side` fails exactly
      when there is at least one of them. */
  lemma RunOnCandidates(a: seq<Point>, p1: Point, p2: Point, h: seq<Point>)
    requires forall q :: q in a ==> Quickhull.FindSide(p1, p2, q) == 1
    ensures QuickRun(a, p1, p2, 1, h).Ok? <==> a == []
    ensures a == [] ==> QuickRun(a, p1, p2, 1, h) == Ok(State(Quickhull.WithEndpoints(h, p1, p2), [Quickhull.WithEndpoints(h, p1, p2)]))
  {
    QuickRunSpec(a, p1, p2, 1, h);
    if a == [] {
      assert Quickhull.FarthestIn(a, p1, p2, 1, 0) == -1;
      var w := Quickhull.WithEndpoints(h, p1, p2);
      assert ProbeSnapshots(a, h) + [w] == [w];
    } else {
      assert a[0] in a;
      assert Quickhull.Candidate(p1, p2, 1, a[0]);
    }
  }

  /** The two top-level calls succeed exactly when both candidate lists are
      empty, and then the hull is [lo, hi] and every snapshot is [lo, hi]. */
  lemma CombineOk(lo: Point, hi: Point, upper: seq<Point>, lower: seq<Point>)
    requires forall q :: q in upper ==> Quickhull.FindSide(lo, hi, q) == 1
    requires forall q :: q in lower ==> Quickhull.FindSide(hi, lo, q) == 1
    ensures Combine(lo, hi, upper, lower).Ok? <==> upper == [] && lower == []
    ensures Combine(lo, hi, upper, lower).Ok? ==>
              Combine(lo, hi, upper, lower).value == State([lo, hi], [[lo, hi], [lo, hi], [lo, hi]])
  {
    RunOnCandidates(upper, lo, hi, [lo, hi]);
    if upper == [] {
      assert Quickhull.WithEndpoints([lo, hi], lo, hi) == [lo, hi];
      RunOnCandidates(lower, hi, lo, [lo, hi]);
      assert Quickhull.WithEndpoints([lo, hi], hi, lo) == [lo, hi];
    }
  }

  /** The points below lo -> hi are the points above hi -> lo. */
  lemma LowerIsLeftOfReverse(points: seq<Point>, lo: Point, hi: Point)
    ensures forall q :: q in Quickhull.SideFilter(Quickhull.Inner(points, lo, hi), lo, hi, -1) ==>
              Quickhull.FindSide(hi, lo, q) == 1
  {
    forall q | q in Quickhull.SideFilter(Quickhull.Inner(points, lo, hi), lo, hi, -1)
      ensures Quickhull.FindSide(hi, lo, q) == 1
    {
      Quickhull.FindSideSwap(lo, hi, q);
    }
  }

  /** `quickhull_algorithm` of quick.py returns normally on three or more
      points exactly when every point lies on the line through the first
      leftmost and the first rightmost point; it then returns those two
      points, and in step mode four snapshots of them. */
  lemma QuickOkIff(points: seq<Point>, stepMode: bool, order: seq<Point> -> seq<Point>)
    requires |points| >= 3
    ensures QuickResult(points, stepMode, order).Ok? <==>
              forall k :: 0 <= k < |points| ==> Quickhull.FindSide(Lo(points), Hi(points), points[k]) == 0
    ensures QuickResult(points, stepMode, order).Ok? ==>
              QuickResult(points, stepMode, order).value ==
                if stepMode then Snapshots([[Lo(points), Hi(points)], [Lo(points), Hi(points)], [Lo(points), Hi(points)], [Lo(points), Hi(points)]])
                else Hull([Lo(points), Hi(points)])
  {
    var lo, hi := Lo(points), Hi(points);
    var inner := Quickhull.Inner(points, lo, hi);
    var upper := Quickhull.SideFilter(inner, lo, hi, 1);
    var lower := Quickhull.SideFilter(inner, lo, hi, -1);
    LowerIsLeftOfReverse(points, lo, hi);
    CombineOk(lo, hi, upper, lower);
    OnLineIff(points, lo, hi);
  }

  /** Both candidate lists are empty exactly when every point is on the
      line lo -> hi (the end points themselves always are). */
  lemma OnLineIff(points: seq<Point>, lo: Point, hi: Point)
    ensures (Quickhull.SideFilter(Quickhull.Inner(points, lo, hi), lo, hi, 1) == [] &&
             Quickhull.SideFilter(Quickhull.Inner(points, lo, hi), lo, hi, -1) == []) <==>
            forall k :: 0 <= k < |points| ==> Quickhull.FindSide(lo, hi, points[k]) == 0
  {
    var inner := Quickhull.Inner(points, lo, hi);
    if forall k :: 0 <= k < |points| ==> Quickhull.FindSide(lo, hi, points[k]) == 0 {
      Quickhull.NoneOnSide(points, lo, hi, 1);
      Quickhull.NoneOnSide(points, lo, hi, -1);
    } else {
      var k :| 0 <= k < |points| && Quickhull.FindSide(lo, hi, points[k]) != 0;
      var q := points[k];
      Quickhull.EndpointsOnLine(lo, hi);
      assert q != lo && q != hi;
      assert q in Quickhull.Remove(points, lo);
      assert q in inner;
      assert q in Quickhull.SideFilter(inner, lo, hi, Quickhull.FindSide(lo, hi, q));
    }
  }
}
