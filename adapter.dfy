/** The adapter between the step lists of the hull algorithms and the
    visualisation (convex_hull/algorithms/adapter.py): it marks, for each
    snapshot, the points that changed since the previous one, or passes
    QuickHull's step records through. Python sets become membership: the
    order in which a set is listed is not part of the model, and the model
    lists each group in order of first occurrence. */
module Adapter {
  import opened Base
  import Quickhull

  // ---------------------------------------------------------------------
  // detect_active_points
  // ---------------------------------------------------------------------

  /** The points of `s` that are not in `t`, each once. */
  function Missing(s: seq<Point>, t: seq<Point>): (r: seq<Point>)
    ensures forall q :: q in r <==> q in s && q !in t
    ensures forall i, j :: 0 <= i < j < |r| ==> r[i] != r[j]
    ensures r != [] ==> r[0] in s && r[0] !in t
    decreases |s|
  {
    if s == [] then []
    else if s[0] in t then Missing(s[1..], t)
    else
      var rest := Missing(s[1..], t + [s[0]]);
      assert s[0] !in rest;
      [s[0]] + rest
  }

  /** `detect_active_points(current, previous)`: the points added since
      `previous`, then the points removed from it; when there are none, the
      last point of a non-empty `current`. */
  function DetectActivePoints(current: seq<Point>, previous: seq<Point>): (active: seq<Point>)
  {
    var changed := Missing(current, previous) + Missing(previous, current);
    if changed == [] && current != [] then [current[|current| - 1]] else changed
  }

  /** Two lists without repeats and without a common element join into a
      list without repeats. */
  lemma DistinctJoin(a: seq<Point>, b: seq<Point>)
    requires forall i, j :: 0 <= i < j < |a| ==> a[i] != a[j]
    requires forall i, j :: 0 <= i < j < |b| ==> b[i] != b[j]
    requires forall q :: q in a ==> q !in b
    ensures forall i, j :: 0 <= i < j < |a + b| ==> (a + b)[i] != (a + b)[j]
  {
    forall i, j | 0 <= i < j < |a + b|
      ensures (a + b)[i] != (a + b)[j]
    {
      if i < |a| && j >= |a| {
        assert (a + b)[i] == a[i] && a[i] in a;
        assert (a + b)[j] == b[j - |a|];
      }
    }
  }

  /** When the two hulls differ as sets, the active points are exactly
      their symmetric difference, each once, and no added point comes after
      a removed one. */
  lemma ActiveIsSymmetricDifference(current: seq<Point>, previous: seq<Point>)
    requires exists q :: (q in current) != (q in previous)
    ensures var active := DetectActivePoints(current, previous);
            (forall q :: q in active <==> (q in current) != (q in previous)) &&
            (forall i, j :: 0 <= i < j < |active| ==> active[i] != active[j]) &&
            (forall i, j :: 0 <= i < j < |active| && active[i] !in current ==> active[j] !in current)
  {
    var added := Missing(current, previous);
    var removed := Missing(previous, current);
    var q :| (q in current) != (q in previous);
    assert q in added + removed;
    var active := added + removed;
    assert active == DetectActivePoints(current, previous);
    DistinctJoin(added, removed);
    forall i, j | 0 <= i < j < |active| && active[i] !in current
      ensures active[j] !in current
    {
      assert active[j] == removed[j - |added|] && removed[j - |added|] in removed;
    }
  }

  /** When the two hulls hold the same points, the active list is the last
      point of `current`, or empty when `current` is. */
  lemma ActiveWhenUnchanged(current: seq<Point>, previous: seq<Point>)
    requires forall q :: (q in current) == (q in previous)
    ensures DetectActivePoints(current, previous) ==
              if current == [] then [] else [current[|current| - 1]]
  {
  }

  /** Every active point comes from one of the two hulls, and the active
      list is empty exactly when both hulls are. */
  lemma ActiveBounds(current: seq<Point>, previous: seq<Point>)
    ensures forall q :: q in DetectActivePoints(current, previous) ==> q in current || q in previous
    ensures DetectActivePoints(current, previous) == [] <==> current == [] && previous == []
  {
    if previous != [] && current == [] {
      assert previous[0] in Missing(previous, current);
    }
  }

  // ---------------------------------------------------------------------
  // adapt_for_visualization
  // ---------------------------------------------------------------------

  /** The QuickHull path for one element: a step record passes through, a
      bare list becomes a record with that hull and no active points. */
  function Wrap(step: Quickhull.RawStep): Quickhull.VizStep
  {
    match step
    case Record(v) => v
    case Snapshot(points) => Quickhull.VizStep(points, [], None)
  }

  /** The QuickHull path over a whole step list. */
  function WrapAll(raw: seq<Quickhull.RawStep>): (viz: seq<Quickhull.VizStep>)
    decreases |raw|
  {
    if raw == [] then [] else WrapAll(raw[..|raw| - 1]) + [Wrap(raw[|raw| - 1])]
  }

  /** The QuickHull path keeps the length and maps every element on its
      own: records are unchanged, bare lists get an empty active list. */
  lemma {:induction false} WrapAllSpec(raw: seq<Quickhull.RawStep>)
    ensures |WrapAll(raw)| == |raw|
    ensures forall i :: 0 <= i < |raw| ==>
              (raw[i].Record? ==> WrapAll(raw)[i] == raw[i].step) &&
              (raw[i].Snapshot? ==> WrapAll(raw)[i] == Quickhull.VizStep(raw[i].points, [], None))
    decreases |raw|
  {
    if raw != [] {
      WrapAllSpec(raw[..|raw| - 1]);
    }
  }

  /** Whether every element of the step list is a bare list of points, as
      the snapshot path needs. */
  predicate AllSnapshots(raw: seq<Quickhull.RawStep>)
  {
    forall i :: 0 <= i < |raw| ==> raw[i].Snapshot?
  }

  /** The snapshot path from a previous hull `prev` on: each snapshot with
      the points that changed since the one before it. */
  function Annotate(raw: seq<Quickhull.RawStep>, prev: seq<Point>): (viz: seq<Quickhull.VizStep>)
    requires AllSnapshots(raw)
    decreases |raw|
  {
    if raw == [] then []
    else
      [Quickhull.VizStep(raw[0].points, DetectActivePoints(raw[0].points, prev), None)]
      + Annotate(raw[1..], raw[0].points)
  }

  /** The hull before step i: the empty hull before the first one. */
  function Before(raw: seq<Quickhull.RawStep>, prev: seq<Point>, i: nat): seq<Point>
    requires AllSnapshots(raw) && i < |raw|
  {
    if i == 0 then prev else raw[i - 1].points
  }

  /** The snapshot path keeps the length. */
  lemma {:induction false} AnnotateLength(raw: seq<Quickhull.RawStep>, prev: seq<Point>)
    requires AllSnapshots(raw)
    ensures |Annotate(raw, prev)| == |raw|
    decreases |raw|
  {
    if raw != [] {
      AnnotateLength(raw[1..], raw[0].points);
    }
  }

  /** The snapshot path keeps hull i unchanged and marks at step i what
      changed since step i - 1. */
  lemma {:induction false} AnnotateAt(raw: seq<Quickhull.RawStep>, prev: seq<Point>, i: nat)
    requires AllSnapshots(raw) && i < |raw|
    ensures |Annotate(raw, prev)| == |raw|
    ensures Annotate(raw, prev)[i] ==
              Quickhull.VizStep(raw[i].points, DetectActivePoints(raw[i].points, Before(raw, prev, i)), None)
    decreases i
  {
    AnnotateLength(raw, prev);
    if i > 0 {
      var tail := raw[1..];
      AnnotateAt(tail, raw[0].points, i - 1);
      assert raw[i] == tail[i - 1];
    }
  }

  /** What `adapt_for_visualization(raw_steps, all_points, algorithm)`
      returns. */
  function Adapted(raw: seq<Quickhull.RawStep>, algorithm: string): seq<Quickhull.VizStep>
    requires algorithm != "quickhull" ==> AllSnapshots(raw)
  {
    if raw == [] then []
    else if algorithm == "quickhull" then WrapAll(raw)
    else Annotate(raw, [])
  }

  /** `adapt_for_visualization`; `allPoints` is not used by the source. */
  method AdaptForVisualization(raw: seq<Quickhull.RawStep>, allPoints: seq<Point>, algorithm: string)
    returns (viz: seq<Quickhull.VizStep>)
    requires algorithm != "quickhull" ==> AllSnapshots(raw)
    ensures viz == Adapted(raw, algorithm)
  {
    if raw == [] {
      return [];
    }
    if algorithm == "quickhull" {
      viz := [];
      var i := 0;
      while i < |raw|
        invariant 0 <= i <= |raw|
        invariant viz == WrapAll(raw[..i])
      {
        assert raw[..i + 1][..i] == raw[..i];
        if raw[i].Record? {
          viz := viz + [raw[i].step];
        } else {
          viz := viz + [Quickhull.VizStep(raw[i].points, [], None)];
        }
        i := i + 1;
      }
      assert raw[..|raw|] == raw;
      return;
    }
    viz := [];
    var previousHull: seq<Point> := [];
    var i := 0;
    while i < |raw|
      invariant 0 <= i <= |raw|
      invariant previousHull == if i == 0 then [] else raw[i - 1].points
      invariant viz + Annotate(raw[i..], previousHull) == Annotate(raw, [])
    {
      var hull := raw[i].points;
      var active := DetectActivePoints(hull, previousHull);
      assert raw[i..][1..] == raw[i + 1..];
      AppendAssoc(viz, [Quickhull.VizStep(hull, active, None)], Annotate(raw[i + 1..], hull));
      viz := viz + [Quickhull.VizStep(hull, active, None)];
      previousHull := hull;
      i := i + 1;
    }
    assert viz + [] == viz;
  }

  /** What the adapter promises: an empty list for no steps; the same
      length as the input on both paths; on the QuickHull path each record
      unchanged and each bare list wrapped; on the snapshot path each hull
      unchanged, with the points that changed since the previous snapshot
      (none before the first) as its active points. */
  lemma AdaptedSpec(raw: seq<Quickhull.RawStep>, algorithm: string)
    requires algorithm != "quickhull" ==> AllSnapshots(raw)
    ensures raw == [] ==> Adapted(raw, algorithm) == []
    ensures |Adapted(raw, algorithm)| == |raw|
    ensures algorithm == "quickhull" ==>
              forall i :: 0 <= i < |raw| ==> Adapted(raw, algorithm)[i] == Wrap(raw[i])
    ensures algorithm != "quickhull" ==>
              forall i :: 0 <= i < |raw| ==>
                Adapted(raw, algorithm)[i].hull == raw[i].points &&
                Adapted(raw, algorithm)[i].probe == None &&
                Adapted(raw, algorithm)[i].active ==
                  DetectActivePoints(raw[i].points, if i == 0 then [] else raw[i - 1].points)
  {
    if raw != [] {
      if algorithm == "quickhull" {
        WrapAllSpec(raw);
      } else {
        AnnotateLength(raw, []);
        forall i | 0 <= i < |raw|
          ensures Adapted(raw, algorithm)[i] ==
                    Quickhull.VizStep(raw[i].points, DetectActivePoints(raw[i].points, Before(raw, [], i)), None)
        {
          AnnotateAt(raw, [], i);
        }
      }
    }
  }
}
