/** QuickHull with an ordered hull list (convex_hull/algorithms/quickhull.py).

    The module-global `hull` list of the source is threaded through the
    recursion as an explicit accumulator: `QuickHull` takes the hull before
    the call and returns the hull after it, and likewise for the list of
    step records, which the source appends to only when it is not `None`
    (`recording` here). Each loop and recursive procedure of the source is a
    method proved equal to a specification function (`FarthestIn`,
    `SideFilter`, `Remove`, `Run`, `QuickhullHull`, `QuickhullSteps`), and
    what the source promises is proved as lemmas about those functions. */
module Quickhull {
  import opened Base
  import Andrews

  // ---------------------------------------------------------------------
  // Side and distance of a point relative to a line
  // ---------------------------------------------------------------------

  /** The cross product `val` of `findSide` and `lineDist`: (p2 - p1) x (p - p1). */
  function Cross(p1: Point, p2: Point, p: Point): real
  {
    (p.y - p1.y) * (p2.x - p1.x) - (p2.y - p1.y) * (p.x - p1.x)
  }

  /** `findSide`: 1 when `p` is strictly left of the line p1 -> p2, -1 when
      strictly right, 0 when on it. */
  function FindSide(p1: Point, p2: Point, p: Point): (r: int)
    ensures -1 <= r <= 1
    ensures r == 1 <==> Cross(p1, p2, p) > 0.0
    ensures r == -1 <==> Cross(p1, p2, p) < 0.0
  {
    var val := Cross(p1, p2, p);
    if val > 0.0 then 1 else if val < 0.0 then -1 else 0
  }

  /** `lineDist`: the absolute value of the cross product (twice the area of
      the triangle p1, p2, p), zero exactly when `p` is on the line. */
  function LineDist(p1: Point, p2: Point, p: Point): (d: real)
    ensures d >= 0.0
    ensures d == 0.0 <==> FindSide(p1, p2, p) == 0
    ensures d == Cross(p1, p2, p) || d == -Cross(p1, p2, p)
  {
    var val := Cross(p1, p2, p);
    if val < 0.0 then -val else val
  }

  /** `findSide` measures the same turn as `orientation` of andrews.py:
      `p` is left of p1 -> p2 exactly when p1, p2, p turn left. */
  lemma FindSideIsOrientationSign(p1: Point, p2: Point, p: Point)
    ensures FindSide(p1, p2, p) == 1 <==> Andrews.Orientation(p1, p2, p) > 0.0
    ensures FindSide(p1, p2, p) == -1 <==> Andrews.Orientation(p1, p2, p) < 0.0
    ensures FindSide(p1, p2, p) == 0 <==> Andrews.Orientation(p1, p2, p) == 0.0
  {
    assert Cross(p1, p2, p) == Andrews.Orientation(p1, p2, p);
  }

  /** Reversing the direction of the line swaps the two sides and keeps the distance. */
  lemma FindSideSwap(p1: Point, p2: Point, p: Point)
    ensures FindSide(p2, p1, p) == -FindSide(p1, p2, p)
    ensures LineDist(p2, p1, p) == LineDist(p1, p2, p)
  {
    assert Cross(p2, p1, p) == -Cross(p1, p2, p);
  }

  /** The end points of a line lie on it. */
  lemma EndpointsOnLine(p1: Point, p2: Point)
    ensures FindSide(p1, p2, p1) == 0 && FindSide(p1, p2, p2) == 0
  {
  }

  // ---------------------------------------------------------------------
  // The farthest point on one side
  // ---------------------------------------------------------------------

  /** A point the `for` loop of `quickHull` may pick: strictly on `side`
      and at a distance greater than the initial `max_dist` of 0. */
  predicate Candidate(p1: Point, p2: Point, side: int, q: Point)
  {
    FindSide(p1, p2, q) == side && LineDist(p1, p2, q) > 0.0
  }

  /** `ind` is what the search must find: -1 when no point of `a` is a
      candidate, and otherwise a candidate of maximal distance that is
      strictly farther than every candidate before it (the first one on ties). */
  predicate IsFarthest(a: seq<Point>, p1: Point, p2: Point, side: int, ind: int)
  {
    -1 <= ind < |a| &&
    (ind == -1 <==> forall k :: 0 <= k < |a| ==> !Candidate(p1, p2, side, a[k])) &&
    (ind >= 0 ==>
       Candidate(p1, p2, side, a[ind]) &&
       (forall k :: 0 <= k < |a| && Candidate(p1, p2, side, a[k]) ==> LineDist(p1, p2, a[k]) <= LineDist(p1, p2, a[ind])) &&
       (forall k :: 0 <= k < ind && Candidate(p1, p2, side, a[k]) ==> LineDist(p1, p2, a[k]) < LineDist(p1, p2, a[ind])))
  }

  /** The index the `for` loop holds after looking at `a[..n]`. */
  function FarthestIn(a: seq<Point>, p1: Point, p2: Point, side: int, n: nat): (ind: int)
    requires n <= |a|
    ensures -1 <= ind < n
    decreases n
  {
    if n == 0 then -1
    else
      var j := FarthestIn(a, p1, p2, side, n - 1);
      var best := if j == -1 then 0.0 else LineDist(p1, p2, a[j]);
      if FindSide(p1, p2, a[n - 1]) == side && LineDist(p1, p2, a[n - 1]) > best then n - 1 else j
  }

  /** The index `quickHull` picks. */
  function Farthest(a: seq<Point>, p1: Point, p2: Point, side: int): (ind: int)
    ensures -1 <= ind < |a|
  {
    FarthestIn(a, p1, p2, side, |a|)
  }

  /** The loop's index is the farthest candidate of the prefix it has seen. */
  lemma {:induction false} FarthestInIsFarthest(a: seq<Point>, p1: Point, p2: Point, side: int, n: nat)
    requires n <= |a|
    ensures IsFarthest(a[..n], p1, p2, side, FarthestIn(a, p1, p2, side, n))
    decreases n
  {
    if n > 0 {
      FarthestInIsFarthest(a, p1, p2, side, n - 1);
      var s, t := a[..n - 1], a[..n];
      assert forall k :: 0 <= k < n - 1 ==> t[k] == s[k];
    }
  }

  /** `quickHull` picks the farthest candidate, the first one on ties. */
  lemma FarthestIsFarthest(a: seq<Point>, p1: Point, p2: Point, side: int)
    ensures IsFarthest(a, p1, p2, side, Farthest(a, p1, p2, side))
  {
    FarthestInIsFarthest(a, p1, p2, side, |a|);
    assert a[..|a|] == a;
  }

  /** The first `for` loop of `quickHull`. */
  method FindFarthest(a: seq<Point>, p1: Point, p2: Point, side: int) returns (ind: int)
    ensures ind == Farthest(a, p1, p2, side)
    ensures IsFarthest(a, p1, p2, side, ind)
  {
    ind := -1;
    var maxDist := 0.0;
    var i := 0;
    while i < |a|
      invariant 0 <= i <= |a|
      invariant ind == FarthestIn(a, p1, p2, side, i)
      invariant maxDist == if ind == -1 then 0.0 else LineDist(p1, p2, a[ind])
    {
      var temp := LineDist(p1, p2, a[i]);
      if FindSide(p1, p2, a[i]) == side && temp > maxDist {
        ind := i;
        maxDist := temp;
      }
      i := i + 1;
    }
    FarthestIsFarthest(a, p1, p2, side);
  }

  // ---------------------------------------------------------------------
  // Filters over point lists
  // ---------------------------------------------------------------------

  /** The points of `s` that differ from `x`, in order (the `continue` on
      `p == farthest` of the partition loop). */
  function Remove(s: seq<Point>, x: Point): (r: seq<Point>)
    ensures |r| <= |s|
    ensures forall q :: q in r <==> q in s && q != x
    decreases |s|
  {
    if s == [] then []
    else
      var init := s[..|s| - 1];
      assert s == init + [s[|s| - 1]];
      Remove(init, x) + (if s[|s| - 1] != x then [s[|s| - 1]] else [])
  }

  /** Removing a point that occurs shortens the list. */
  lemma {:induction false} RemoveShorter(s: seq<Point>, x: Point)
    requires x in s
    ensures |Remove(s, x)| < |s|
    decreases |s|
  {
    var init := s[..|s| - 1];
    assert s == init + [s[|s| - 1]];
    if s[|s| - 1] != x {
      RemoveShorter(init, x);
    }
  }

  /** The points of `s` strictly on `side` of the line u -> v, in order. */
  function SideFilter(s: seq<Point>, u: Point, v: Point, side: int): (r: seq<Point>)
    ensures |r| <= |s|
    ensures forall q :: q in r <==> q in s && FindSide(u, v, q) == side
    decreases |s|
  {
    if s == [] then []
    else
      var init := s[..|s| - 1];
      assert s == init + [s[|s| - 1]];
      SideFilter(init, u, v, side) + (if FindSide(u, v, s[|s| - 1]) == side then [s[|s| - 1]] else [])
  }

  /** Index of the first occurrence of `x` (Python's `list.index`). */
  function FirstIndex(h: seq<Point>, x: Point): (i: nat)
    requires x in h
    ensures i < |h| && h[i] == x
    ensures forall k :: 0 <= k < i ==> h[k] != x
  {
    if h[0] == x then 0 else 1 + FirstIndex(h[1..], x)
  }

  /** `hull.insert(hull.index(p2), farthest)`, or `hull.append(farthest)`
      when `p2` is not in the hull (the `ValueError` branch). */
  function InsertBefore(h: seq<Point>, f: Point, p2: Point): (r: seq<Point>)
    ensures |r| == |h| + 1
    ensures multiset(r) == multiset(h) + multiset{f}
  {
    if p2 in h then
      var i := FirstIndex(h, p2);
      assert h == h[..i] + h[i..];
      h[..i] + [f] + h[i..]
    else
      h + [f]
  }

  /** The farthest point lands immediately before the first `p2` and every
      other entry keeps its order; without `p2` it is appended. */
  lemma InsertBeforeSpec(h: seq<Point>, f: Point, p2: Point)
    ensures p2 in h ==>
              var i := FirstIndex(h, p2);
              InsertBefore(h, f, p2)[i] == f && InsertBefore(h, f, p2)[i + 1] == p2 &&
              InsertBefore(h, f, p2)[..i] + InsertBefore(h, f, p2)[i + 1..] == h
    ensures p2 !in h ==> InsertBefore(h, f, p2) == h + [f]
  {
    if p2 in h {
      InsertAt(h, f, FirstIndex(h, p2));
    }
  }

  /** Inserting `f` at position `i` puts it there, shifts the rest by one,
      and deleting it again gives back the list. */
  lemma InsertAt<T>(h: seq<T>, f: T, i: nat)
    requires i < |h|
    ensures var r := h[..i] + [f] + h[i..];
            r[i] == f && r[i + 1] == h[i] && r[..i] + r[i + 1..] == h
  {
    var r := h[..i] + [f] + h[i..];
    assert r[..i] == h[..i];
    assert r[i + 1..] == h[i..];
    assert h == h[..i] + h[i..];
  }

  /** The two `if ... not in hull: hull.append(...)` statements. */
  function WithEndpoints(h: seq<Point>, p1: Point, p2: Point): (r: seq<Point>)
    ensures p1 in r && p2 in r
    ensures multiset(h) <= multiset(r)
    ensures forall q :: q in r ==> q in h || q == p1 || q == p2
    ensures p1 in h && p2 in h ==> r == h
  {
    var h1 := if p1 in h then h else h + [p1];
    if p2 in h1 then h1 else h1 + [p2]
  }

  // ---------------------------------------------------------------------
  // Step records
  // ---------------------------------------------------------------------

  /** The `dividing_line` and `test_points` of a record made on entry to `quickHull`. */
  datatype Probe = Probe(dividingLine: seq<Point>, testPoints: seq<Point>)

  /** A step dictionary: `hull`, `active` and, for the record made on entry
      to `quickHull`, the line and the points tested against it. */
  datatype VizStep = VizStep(hull: seq<Point>, active: seq<Point>, probe: Option<Probe>)

  /** An element of a step list: a dictionary, or a bare list of points (what
      the source returns in step mode for fewer than three points). */
  datatype RawStep = Record(step: VizStep) | Snapshot(points: seq<Point>)

  /** The hull after a call of `quickHull` and the records it appends. */
  datatype Outcome = Outcome(hull: seq<Point>, steps: seq<RawStep>)

  /** The record `quickHull` makes on entry when it has candidates. */
  function ProbeStep(a: seq<Point>, p1: Point, p2: Point, side: int, h: seq<Point>): RawStep
  {
    Record(VizStep(h, [], Some(Probe([p1, p2], SideFilter(a, p1, p2, side)))))
  }

  /** The candidates of the call on the segment p1 -> farthest. */
  function LeftSet(a: seq<Point>, p1: Point, f: Point, side: int): seq<Point>
  {
    SideFilter(Remove(a, f), p1, f, side)
  }

  /** The candidates of the call on the segment farthest -> p2. */
  function RightSet(a: seq<Point>, f: Point, p2: Point, side: int): seq<Point>
  {
    SideFilter(Remove(a, f), f, p2, side)
  }

  /** The candidate lists of the two recursive calls around a point `f` of
      `a` (the farthest point) hold only points strictly on `side` of their
      new lines, never `f` itself, and are strictly shorter than `a`: the
      recursion terminates. */
  lemma ChildrenShorter(a: seq<Point>, p1: Point, f: Point, p2: Point, side: int)
    requires f in a
    ensures |LeftSet(a, p1, f, side)| < |a| && |RightSet(a, f, p2, side)| < |a|
    ensures forall q :: q in LeftSet(a, p1, f, side) ==> q in a && q != f && FindSide(p1, f, q) == side
    ensures forall q :: q in RightSet(a, f, p2, side) ==> q in a && q != f && FindSide(f, p2, q) == side
  {
    RemoveShorter(a, f);
  }

  /** What one call `quickHull(a, len(a), p1, p2, side, steps)` does to the
      hull `h` and which records it appends. */
  function Run(a: seq<Point>, p1: Point, p2: Point, side: int, h: seq<Point>): Outcome
    decreases |a|
  {
    var probe := if |a| > 0 then [ProbeStep(a, p1, p2, side, h)] else [];
    var ind := Farthest(a, p1, p2, side);
    if ind == -1 then
      var h1 := WithEndpoints(h, p1, p2);
      Outcome(h1, probe + [Record(VizStep(h1, [], None))])
    else
      var f := a[ind];
      var h1 := InsertBefore(h, f, p2);
      RemoveShorter(a, f);
      var o1 := Run(LeftSet(a, p1, f, side), p1, f, side, h1);
      var o2 := Run(RightSet(a, f, p2, side), f, p2, side, o1.hull);
      Outcome(o2.hull, probe + [Record(VizStep(h1, [f], None))] + o1.steps + o2.steps)
  }

  /** A call never removes a hull entry, leaves both end points of its line
      in the hull, and adds only its candidates and those end points. */
  lemma {:induction false} RunKeepsHull(a: seq<Point>, p1: Point, p2: Point, side: int, h: seq<Point>)
    ensures multiset(h) <= multiset(Run(a, p1, p2, side, h).hull)
    ensures p1 in Run(a, p1, p2, side, h).hull && p2 in Run(a, p1, p2, side, h).hull
    ensures forall q :: q in Run(a, p1, p2, side, h).hull ==> q in h || q in a || q == p1 || q == p2
    decreases |a|
  {
    var ind := Farthest(a, p1, p2, side);
    if ind != -1 {
      var f := a[ind];
      var h1 := InsertBefore(h, f, p2);
      RemoveShorter(a, f);
      var left, right := LeftSet(a, p1, f, side), RightSet(a, f, p2, side);
      RunKeepsHull(left, p1, f, side, h1);
      var o1 := Run(left, p1, f, side, h1);
      RunKeepsHull(right, f, p2, side, o1.hull);
      var o2 := Run(right, f, p2, side, o1.hull);
      assert Run(a, p1, p2, side, h).hull == o2.hull;
      assert p1 in multiset(o1.hull);
      forall q | q in o2.hull ensures q in h || q in a || q == p1 || q == p2 {
        if q in o1.hull && q in h1 {
          assert q in multiset(h1);
        }
      }
    }
  }

  /** Every call appends at least one record, the first being the record
      of its line and test points when it has any points, and the last
      being the plain snapshot of the hull the call ends with (the
      innermost calls always end in the branch with no candidate). */
  lemma {:induction false} RunSteps(a: seq<Point>, p1: Point, p2: Point, side: int, h: seq<Point>)
    ensures |Run(a, p1, p2, side, h).steps| >= 1
    ensures |a| > 0 ==> Run(a, p1, p2, side, h).steps[0] == ProbeStep(a, p1, p2, side, h)
    ensures var o := Run(a, p1, p2, side, h);
            o.steps[|o.steps| - 1] == Record(VizStep(o.hull, [], None))
    decreases |a|
  {
    var ind := Farthest(a, p1, p2, side);
    if ind != -1 {
      var f := a[ind];
      var h1 := InsertBefore(h, f, p2);
      RemoveShorter(a, f);
      var left, right := LeftSet(a, p1, f, side), RightSet(a, f, p2, side);
      var o1 := Run(left, p1, f, side, h1);
      RunSteps(right, f, p2, side, o1.hull);
      var o2 := Run(right, f, p2, side, o1.hull);
      var probe := if |a| > 0 then [ProbeStep(a, p1, p2, side, h)] else [];
      var all := probe + [Record(VizStep(h1, [f], None))] + o1.steps + o2.steps;
      assert Run(a, p1, p2, side, h) == Outcome(o2.hull, all);
      assert all[|all| - 1] == o2.steps[|o2.steps| - 1];
      assert |a| > 0 ==> all[0] == probe[0];
    }
  }

  // ---------------------------------------------------------------------
  // The procedures of quickhull.py
  // ---------------------------------------------------------------------

  lemma RemoveSnoc(s: seq<Point>, q: Point, x: Point)
    ensures Remove(s + [q], x) == Remove(s, x) + (if q != x then [q] else [])
  {
    assert (s + [q])[..|s|] == s;
  }

  lemma SideFilterSnoc(s: seq<Point>, q: Point, u: Point, v: Point, side: int)
    ensures SideFilter(s + [q], u, v, side) == SideFilter(s, u, v, side) + (if FindSide(u, v, q) == side then [q] else [])
  {
    assert (s + [q])[..|s|] == s;
  }

  /** One more point seen by the partition loop of `quickHull`. */
  lemma PartitionStep(s: seq<Point>, p: Point, f: Point, u: Point, v: Point, side: int)
    ensures SideFilter(Remove(s + [p], f), u, v, side)
            == SideFilter(Remove(s, f), u, v, side) + (if p != f && FindSide(u, v, p) == side then [p] else [])
  {
    RemoveSnoc(s, p, f);
    if p != f {
      SideFilterSnoc(Remove(s, f), p, u, v, side);
    } else {
      assert Remove(s + [p], f) == Remove(s, f) + [];
      assert Remove(s, f) + [] == Remove(s, f);
      assert SideFilter(Remove(s, f), u, v, side) + [] == SideFilter(Remove(s, f), u, v, side);
    }
  }

  /** The partition loop of `quickHull`: every point other than `f` goes to
      the left list when it is on `side` of p1 -> f, and (independently) to
      the right list when it is on `side` of f -> p2. */
  method Partition(a: seq<Point>, p1: Point, f: Point, p2: Point, side: int)
    returns (left: seq<Point>, right: seq<Point>)
    ensures left == LeftSet(a, p1, f, side)
    ensures right == RightSet(a, f, p2, side)
  {
    left, right := [], [];
    var i := 0;
    while i < |a|
      invariant 0 <= i <= |a|
      invariant left == SideFilter(Remove(a[..i], f), p1, f, side)
      invariant right == SideFilter(Remove(a[..i], f), f, p2, side)
    {
      var p := a[i];
      assert a[..i + 1] == a[..i] + [p];
      PartitionStep(a[..i], p, f, p1, f, side);
      PartitionStep(a[..i], p, f, f, p2, side);
      if p != f {
        if FindSide(p1, f, p) == side {
          left := left + [p];
        }
        if FindSide(f, p2, p) == side {
          right := right + [p];
        }
      }
      i := i + 1;
    }
    assert a[..|a|] == a;
  }

  /** One step of `Run` when a farthest point exists. */
  lemma RunFound(a: seq<Point>, p1: Point, p2: Point, side: int, h: seq<Point>)
    requires Farthest(a, p1, p2, side) != -1
    ensures var f := a[Farthest(a, p1, p2, side)];
            var h1 := InsertBefore(h, f, p2);
            var o1 := Run(LeftSet(a, p1, f, side), p1, f, side, h1);
            var o2 := Run(RightSet(a, f, p2, side), f, p2, side, o1.hull);
            Run(a, p1, p2, side, h)
            == Outcome(o2.hull, [ProbeStep(a, p1, p2, side, h)] + [Record(VizStep(h1, [f], None))] + o1.steps + o2.steps)
  {
  }

  /** `quickHull(a, len(a), p1, p2, side, steps)`: with `h0` the global hull
      on entry, `hull` is the global hull on exit; `steps` is the step list
      after the call when `recording`, and is left alone otherwise. */
  method QuickHull(a: seq<Point>, p1: Point, p2: Point, side: int, h0: seq<Point>,
                   recording: bool, steps0: seq<RawStep>)
    returns (hull: seq<Point>, steps: seq<RawStep>)
    ensures hull == Run(a, p1, p2, side, h0).hull
    ensures steps == if recording then steps0 + Run(a, p1, p2, side, h0).steps else steps0
    decreases |a|
  {
    hull := h0;
    steps := steps0;
    if recording && |a| > 0 {
      steps := steps + [Record(VizStep(hull, [], Some(Probe([p1, p2], SideFilter(a, p1, p2, side)))))];
    }
    var ind := FindFarthest(a, p1, p2, side);
    if ind == -1 {
      if p1 !in hull {
        hull := hull + [p1];
      }
      if p2 !in hull {
        hull := hull + [p2];
      }
      if recording {
        AppendAssoc(steps0, if |a| > 0 then [ProbeStep(a, p1, p2, side, h0)] else [], [Record(VizStep(hull, [], None))]);
        steps := steps + [Record(VizStep(hull, [], None))];
      }
      return;
    }
    var farthest := a[ind];
    hull := InsertBefore(hull, farthest, p2);
    if recording {
      steps := steps + [Record(VizStep(hull, [farthest], None))];
    }
    ghost var h1, steps1 := hull, steps;
    var left, right := Partition(a, p1, farthest, p2, side);
    RemoveShorter(a, farthest);
    hull, steps := QuickHull(left, p1, farthest, side, hull, recording, steps);
    ghost var o1 := Run(left, p1, farthest, side, h1);
    hull, steps := QuickHull(right, farthest, p2, side, hull, recording, steps);
    ghost var o2 := Run(right, farthest, p2, side, o1.hull);
    RunFound(a, p1, p2, side, h0);
    if recording {
      FoundSteps(steps0, ProbeStep(a, p1, p2, side, h0), Record(VizStep(h1, [farthest], None)), o1.steps, o2.steps);
    }
  }

  /** Regrouping the records appended by one call that found a farthest point. */
  lemma FoundSteps(steps0: seq<RawStep>, probe: RawStep, found: RawStep, s1: seq<RawStep>, s2: seq<RawStep>)
    ensures steps0 + [probe] + [found] + s1 + s2 == steps0 + ([probe] + [found] + s1 + s2)
  {
    AppendAssoc(steps0, [probe] + [found], s1);
    AppendAssoc(steps0, [probe] + [found] + s1, s2);
    AppendAssoc(steps0, [probe], [found]);
  }

  // ---------------------------------------------------------------------
  // quickhull_algorithm
  // ---------------------------------------------------------------------

  /** The index `min_x` holds after the `for` loop over `points[1..n]`. */
  function MinXIn(points: seq<Point>, n: nat): (i: nat)
    requires 1 <= n <= |points|
    ensures i < n
  {
    if n == 1 then 0
    else
      var j := MinXIn(points, n - 1);
      if points[n - 1].x < points[j].x then n - 1 else j
  }

  /** The index `max_x` holds after the `for` loop over `points[1..n]`. */
  function MaxXIn(points: seq<Point>, n: nat): (i: nat)
    requires 1 <= n <= |points|
    ensures i < n
  {
    if n == 1 then 0
    else
      var j := MaxXIn(points, n - 1);
      if points[n - 1].x > points[j].x then n - 1 else j
  }

  /** `i` is the first index of a point with the least x coordinate. */
  predicate IsFirstMinX(points: seq<Point>, i: int)
  {
    0 <= i < |points| &&
    (forall k :: 0 <= k < |points| ==> points[i].x <= points[k].x) &&
    (forall k :: 0 <= k < i ==> points[k].x > points[i].x)
  }

  /** `i` is the first index of a point with the greatest x coordinate. */
  predicate IsFirstMaxX(points: seq<Point>, i: int)
  {
    0 <= i < |points| &&
    (forall k :: 0 <= k < |points| ==> points[i].x >= points[k].x) &&
    (forall k :: 0 <= k < i ==> points[k].x < points[i].x)
  }

  /** The strict comparisons of the loop keep the first extreme point:
      ties on x are not broken by y. */
  lemma {:induction false} ExtremesAreFirst(points: seq<Point>, n: nat)
    requires 1 <= n <= |points|
    ensures IsFirstMinX(points[..n], MinXIn(points, n))
    ensures IsFirstMaxX(points[..n], MaxXIn(points, n))
    decreases n
  {
    if n > 1 {
      ExtremesAreFirst(points, n - 1);
      var s, t := points[..n - 1], points[..n];
      assert forall k :: 0 <= k < n - 1 ==> t[k] == s[k];
    }
  }

  /** The `for` loop finding `min_x` and `max_x`. */
  method ExtremeIndices(points: seq<Point>) returns (minX: nat, maxX: nat)
    requires |points| >= 1
    ensures minX == MinXIn(points, |points|) && maxX == MaxXIn(points, |points|)
    ensures IsFirstMinX(points, minX) && IsFirstMaxX(points, maxX)
  {
    minX, maxX := 0, 0;
    var i := 1;
    while i < |points|
      invariant 1 <= i <= |points|
      invariant minX == MinXIn(points, i) && maxX == MaxXIn(points, i)
    {
      if points[i].x < points[minX].x {
        minX := i;
      }
      if points[i].x > points[maxX].x {
        maxX := i;
      }
      i := i + 1;
    }
    ExtremesAreFirst(points, |points|);
    assert points[..|points|] == points;
  }

  /** The points other than both end points, in order. */
  function Inner(points: seq<Point>, lo: Point, hi: Point): seq<Point>
  {
    Remove(Remove(points, lo), hi)
  }

  /** The cross product of `quickhull_algorithm`'s partition loop, written
      with the factors in the other order, is `Cross`. */
  lemma CrossCommuted(lo: Point, hi: Point, p: Point)
    ensures (hi.x - lo.x) * (p.y - lo.y) - (hi.y - lo.y) * (p.x - lo.x) == Cross(lo, hi, p)
  {
    var a, b, c, d := hi.x - lo.x, p.y - lo.y, hi.y - lo.y, p.x - lo.x;
    assert a * b == b * a;
  }

  /** One more point seen by the partition loop of `quickhull_algorithm`. */
  lemma SplitStep(s: seq<Point>, p: Point, lo: Point, hi: Point, side: int)
    ensures SideFilter(Inner(s + [p], lo, hi), lo, hi, side)
            == SideFilter(Inner(s, lo, hi), lo, hi, side)
               + (if p != lo && p != hi && FindSide(lo, hi, p) == side then [p] else [])
  {
    RemoveSnoc(s, p, lo);
    var r := Remove(s, lo);
    if p != lo {
      assert Remove(s + [p], lo) == r + [p];
      PartitionStep(r, p, hi, lo, hi, side);
    } else {
      assert Remove(s + [p], lo) == r;
      var t := SideFilter(Inner(s, lo, hi), lo, hi, side);
      assert t + [] == t;
    }
  }

  /** The partition loop of `quickhull_algorithm`: points other than the two
      end points go to `upper` when strictly left of lo -> hi and to `lower`
      when strictly right; points on the line are dropped. */
  method SplitByLine(points: seq<Point>, lo: Point, hi: Point) returns (upper: seq<Point>, lower: seq<Point>)
    ensures upper == SideFilter(Inner(points, lo, hi), lo, hi, 1)
    ensures lower == SideFilter(Inner(points, lo, hi), lo, hi, -1)
  {
    upper, lower := [], [];
    var i := 0;
    while i < |points|
      invariant 0 <= i <= |points|
      invariant upper == SideFilter(Inner(points[..i], lo, hi), lo, hi, 1)
      invariant lower == SideFilter(Inner(points[..i], lo, hi), lo, hi, -1)
    {
      var p := points[i];
      assert points[..i + 1] == points[..i] + [p];
      SplitStep(points[..i], p, lo, hi, 1);
      SplitStep(points[..i], p, lo, hi, -1);
      if p != lo && p != hi {
        var dist := (hi.x - lo.x) * (p.y - lo.y) - (hi.y - lo.y) * (p.x - lo.x);
        CrossCommuted(lo, hi, p);
        if dist > 0.0 {
          upper := upper + [p];
        } else if dist < 0.0 {
          lower := lower + [p];
        }
      }
      i := i + 1;
    }
    assert points[..|points|] == points;
  }

  /** The hull and the records of the two top-level `quickHull` calls on
      the candidates above and below the line lo -> hi, starting from the
      first record [lo, hi]. */
  function Combine(lo: Point, hi: Point, upper: seq<Point>, lower: seq<Point>): Outcome
  {
    var o1 := Run(upper, lo, hi, 1, [lo, hi]);
    var o2 := Run(lower, hi, lo, 1, o1.hull);
    Outcome(o2.hull, [Record(VizStep([lo, hi], [lo, hi], None))] + o1.steps + o2.steps)
  }

  /** The outcome of the two top-level calls of `quickhull_algorithm`. */
  function Build(points: seq<Point>): Outcome
    requires |points| >= 3
  {
    var lo := points[MinXIn(points, |points|)];
    var hi := points[MaxXIn(points, |points|)];
    Combine(lo, hi, SideFilter(Inner(points, lo, hi), lo, hi, 1), SideFilter(Inner(points, lo, hi), lo, hi, -1))
  }

  /** The final counter-clockwise reordering, applied only to hulls of more
      than two points. The `atan2` sort key is not modelled: `order` stands
      for `sorted(hull, key=angle)`. */
  function Ordered(h: seq<Point>, order: seq<Point> -> seq<Point>): seq<Point>
  {
    if |h| > 2 then order(h) else h
  }

  /** What `quickhull_algorithm` returns outside step mode. */
  function QuickhullHull(points: seq<Point>, order: seq<Point> -> seq<Point>): seq<Point>
  {
    if |points| < 3 then points else Ordered(Build(points).hull, order)
  }

  /** What `quickhull_algorithm` returns in step mode. */
  function QuickhullSteps(points: seq<Point>, order: seq<Point> -> seq<Point>): seq<RawStep>
  {
    if |points| < 3 then [Snapshot(points)]
    else Build(points).steps + [Record(VizStep(QuickhullHull(points, order), [], None))]
  }

  /** What `quickhull_algorithm` returns: the hull, or the steps in step mode. */
  datatype Output = Hull(hull: seq<Point>) | Steps(steps: seq<RawStep>)

  /** `quickhull_algorithm`, with the sort by angle around the centroid
      passed in as `order`. */
  method QuickhullAlgorithm(points: seq<Point>, stepMode: bool, order: seq<Point> -> seq<Point>)
    returns (out: Output)
    ensures out == if stepMode then Steps(QuickhullSteps(points, order)) else Hull(QuickhullHull(points, order))
  {
    if |points| < 3 {
      if stepMode {
        out := Steps([Snapshot(points)]);
      } else {
        out := Hull(points);
      }
      return;
    }
    var minX, maxX := ExtremeIndices(points);
    var lo, hi := points[minX], points[maxX];
    var steps: seq<RawStep> := [];
    var hull := [lo, hi];
    if stepMode {
      steps := steps + [Record(VizStep(hull, hull, None))];
      assert steps == [Record(VizStep([lo, hi], [lo, hi], None))];
    }
    var upper, lower := SplitByLine(points, lo, hi);
    hull, steps := QuickHull(upper, lo, hi, 1, hull, stepMode, steps);
    ghost var o1 := Run(upper, lo, hi, 1, [lo, hi]);
    hull, steps := QuickHull(lower, hi, lo, 1, hull, stepMode, steps);
    ghost var o2 := Run(lower, hi, lo, 1, o1.hull);
    assert Combine(lo, hi, upper, lower) == Outcome(o2.hull, [Record(VizStep([lo, hi], [lo, hi], None))] + o1.steps + o2.steps);
    assert hull == Build(points).hull;
    assert stepMode ==> steps == Build(points).steps;
    if |hull| > 2 {
      hull := order(hull);
    }
    if stepMode {
      steps := steps + [Record(VizStep(hull, [], None))];
      out := Steps(steps);
    } else {
      out := Hull(hull);
    }
  }

  // ---------------------------------------------------------------------
  // What quickhull_algorithm promises
  // ---------------------------------------------------------------------

  /** No point of `s` on `side` leaves nothing to filter. */
  lemma SideFilterEmpty(s: seq<Point>, u: Point, v: Point, side: int)
    requires forall k :: 0 <= k < |s| ==> FindSide(u, v, s[k]) != side
    ensures SideFilter(s, u, v, side) == []
  {
  }

  /** The two top-level calls keep both end points, so the hull has at
      least two entries, and add only candidates. */
  lemma CombineKeeps(lo: Point, hi: Point, upper: seq<Point>, lower: seq<Point>)
    ensures lo in Combine(lo, hi, upper, lower).hull && hi in Combine(lo, hi, upper, lower).hull
    ensures |Combine(lo, hi, upper, lower).hull| >= 2
    ensures forall q :: q in Combine(lo, hi, upper, lower).hull ==> q in upper || q in lower || q == lo || q == hi
  {
    RunKeepsHull(upper, lo, hi, 1, [lo, hi]);
    var o1 := Run(upper, lo, hi, 1, [lo, hi]);
    RunKeepsHull(lower, hi, lo, 1, o1.hull);
    var o2 := Run(lower, hi, lo, 1, o1.hull);
    assert Combine(lo, hi, upper, lower).hull == o2.hull;
    SubMultisetLength([lo, hi], o2.hull);
  }

  /** The built hull holds both end points of the first line, at least two
      entries, and nothing but input points. */
  lemma BuildFromInput(points: seq<Point>)
    requires |points| >= 3
    ensures points[MinXIn(points, |points|)] in Build(points).hull
    ensures points[MaxXIn(points, |points|)] in Build(points).hull
    ensures |Build(points).hull| >= 2
    ensures forall q :: q in Build(points).hull ==> q in points
  {
    var lo := points[MinXIn(points, |points|)];
    var hi := points[MaxXIn(points, |points|)];
    var upper := SideFilter(Inner(points, lo, hi), lo, hi, 1);
    var lower := SideFilter(Inner(points, lo, hi), lo, hi, -1);
    CombineKeeps(lo, hi, upper, lower);
    CandidatesFromInput(points, lo, hi, 1);
    CandidatesFromInput(points, lo, hi, -1);
  }

  /** The candidates on either side of the first line are input points. */
  lemma CandidatesFromInput(points: seq<Point>, lo: Point, hi: Point, side: int)
    ensures forall q :: q in SideFilter(Inner(points, lo, hi), lo, hi, side) ==> q in points
  {
    forall q | q in SideFilter(Inner(points, lo, hi), lo, hi, side) ensures q in points {
      assert q in Remove(points, lo);
    }
  }

  /** `quickhull_algorithm` returns only input points; fewer than three
      points come back unchanged (one snapshot of them in step mode); for
      three or more points its hull is a reordering of the built hull, which
      holds the first leftmost and the first rightmost point. */
  lemma QuickhullFromInput(points: seq<Point>, order: seq<Point> -> seq<Point>)
    requires forall h: seq<Point> :: multiset(order(h)) == multiset(h)
    ensures forall q :: q in QuickhullHull(points, order) ==> q in points
    ensures |points| < 3 ==> QuickhullHull(points, order) == points && QuickhullSteps(points, order) == [Snapshot(points)]
    ensures |points| >= 3 ==>
              multiset(QuickhullHull(points, order)) == multiset(Build(points).hull) &&
              points[MinXIn(points, |points|)] in QuickhullHull(points, order) &&
              points[MaxXIn(points, |points|)] in QuickhullHull(points, order) &&
              |QuickhullHull(points, order)| >= 2
  {
    if |points| >= 3 {
      BuildFromInput(points);
      var b := Build(points).hull;
      var r := QuickhullHull(points, order);
      assert multiset(r) == multiset(b);
      forall q | q in r ensures q in points {
        assert q in multiset(r);
      }
      assert |r| == |multiset(r)|;
      assert points[MinXIn(points, |points|)] in multiset(r);
      assert points[MaxXIn(points, |points|)] in multiset(r);
    }
  }

  /** The records of the two top-level calls: the first marks the end
      points as active, the next is the probe of the upper call when it has
      candidates, and the last holds the hull with nothing active. */
  lemma CombineSteps(lo: Point, hi: Point, upper: seq<Point>, lower: seq<Point>)
    ensures var s := Combine(lo, hi, upper, lower).steps;
            |s| >= 3 &&
            s[0] == Record(VizStep([lo, hi], [lo, hi], None)) &&
            (upper != [] ==> s[1] == ProbeStep(upper, lo, hi, 1, [lo, hi])) &&
            s[|s| - 1] == Record(VizStep(Combine(lo, hi, upper, lower).hull, [], None))
  {
    RunSteps(upper, lo, hi, 1, [lo, hi]);
    var o1 := Run(upper, lo, hi, 1, [lo, hi]);
    RunSteps(lower, hi, lo, 1, o1.hull);
    var o2 := Run(lower, hi, lo, 1, o1.hull);
    ThreeParts(Record(VizStep([lo, hi], [lo, hi], None)), o1.steps, o2.steps);
  }

  /** Proof helper, not a property of the source: first, second and last
      element of a list made of one element and two non-empty lists. */
  lemma ThreeParts<T>(x: T, s1: seq<T>, s2: seq<T>)
    requires |s1| >= 1 && |s2| >= 1
    ensures var s := [x] + s1 + s2;
            |s| >= 3 && s[0] == x && s[1] == s1[0] && s[|s| - 1] == s2[|s2| - 1]
  {
  }

  /** In step mode the first record marks the two end points as active, the
      next one (when there are points above the line) is the probe of the
      upper call with exactly its candidates as test points, and the last
      record holds the returned hull with nothing active. */
  lemma QuickhullStepsShape(points: seq<Point>, order: seq<Point> -> seq<Point>)
    requires |points| >= 3
    ensures var lo := points[MinXIn(points, |points|)];
            var hi := points[MaxXIn(points, |points|)];
            var upper := SideFilter(Inner(points, lo, hi), lo, hi, 1);
            var s := QuickhullSteps(points, order);
            |s| >= 4 &&
            s[0] == Record(VizStep([lo, hi], [lo, hi], None)) &&
            (upper != [] ==> s[1] == ProbeStep(upper, lo, hi, 1, [lo, hi])) &&
            s[|s| - 1] == Record(VizStep(QuickhullHull(points, order), [], None))
  {
    var lo := points[MinXIn(points, |points|)];
    var hi := points[MaxXIn(points, |points|)];
    var upper := SideFilter(Inner(points, lo, hi), lo, hi, 1);
    var lower := SideFilter(Inner(points, lo, hi), lo, hi, -1);
    CombineSteps(lo, hi, upper, lower);
    var b := Combine(lo, hi, upper, lower).steps;
    var s := QuickhullSteps(points, order);
    assert s == b + [Record(VizStep(QuickhullHull(points, order), [], None))];
    assert s[0] == b[0] && s[1] == b[1];
  }

  /** When every point lies on the line through the first leftmost and the
      first rightmost point, nothing is added: the hull is exactly those two
      points (the same point twice when all x coordinates are equal). */
  lemma QuickhullCollinear(points: seq<Point>, order: seq<Point> -> seq<Point>)
    requires |points| >= 3
    requires forall k :: 0 <= k < |points| ==>
               FindSide(points[MinXIn(points, |points|)], points[MaxXIn(points, |points|)], points[k]) == 0
    ensures QuickhullHull(points, order) == [points[MinXIn(points, |points|)], points[MaxXIn(points, |points|)]]
  {
    var lo := points[MinXIn(points, |points|)];
    var hi := points[MaxXIn(points, |points|)];
    NoneOnSide(points, lo, hi, 1);
    NoneOnSide(points, lo, hi, -1);
    CombineEmpty(lo, hi);
  }

  /** When no point is on `side` of lo -> hi, that side has no candidates. */
  lemma NoneOnSide(points: seq<Point>, lo: Point, hi: Point, side: int)
    requires forall k :: 0 <= k < |points| ==> FindSide(lo, hi, points[k]) != side
    ensures SideFilter(Inner(points, lo, hi), lo, hi, side) == []
  {
    var inner := Inner(points, lo, hi);
    forall k | 0 <= k < |inner| ensures FindSide(lo, hi, inner[k]) != side {
      assert inner[k] in Remove(points, lo);
    }
    SideFilterEmpty(inner, lo, hi, side);
  }

  /** Proof helper for `QuickhullCollinear`: with no candidate on either
      side both calls only check that the end points are present. */
  lemma CombineEmpty(lo: Point, hi: Point)
    ensures Combine(lo, hi, [], []).hull == [lo, hi]
  {
    assert Run([], lo, hi, 1, [lo, hi]).hull == [lo, hi];
    assert Run([], hi, lo, 1, [lo, hi]).hull == [lo, hi];
  }
}
