/** The testing version of Andrew's monotone chain
    (convex_hull/algorithms/andrews_for_Testing.py). It runs the same two
    scans as andrews.py but, in step mode, records bare stack snapshots
    instead of step dictionaries. Its `orientation`, `merge` and
    `merge_sort` are copies of the ones in andrews.py and are shared with
    the `Andrews` module here. */
module AndrewsForTesting {
  import opened Base
  import Andrews

  /** What `andrews_algorithm` returns: the hull, or the list of snapshots in step mode. */
  datatype Output = Hull(hull: seq<Point>) | Snapshots(snapshots: seq<seq<Point>>)

  /** The `while` loop of one scan: pops the top of the stack while it and
      the point below it do not make a strict left turn towards `p`,
      appending a copy of the stack after each pop in step mode. */
  method PopSnapshots(stack: seq<Point>, p: Point, stepMode: bool, snaps0: seq<seq<Point>>)
    returns (chain: seq<Point>, snaps: seq<seq<Point>>)
    ensures chain == Andrews.PopNonLeft(stack, p)
    ensures snaps == if stepMode then snaps0 + Andrews.PopTrace(stack, p) else snaps0
  {
    chain := stack;
    snaps := snaps0;
    ghost var done: seq<seq<Point>> := [];
    while |chain| >= 2 && Andrews.Orientation(chain[|chain| - 2], chain[|chain| - 1], p) <= 0.0
      invariant Andrews.PopNonLeft(chain, p) == Andrews.PopNonLeft(stack, p)
      invariant done + Andrews.PopTrace(chain, p) == Andrews.PopTrace(stack, p)
      invariant snaps == if stepMode then snaps0 + done else snaps0
      decreases |chain|
    {
      Andrews.PopUnfold(chain, p);
      chain := chain[..|chain| - 1];
      AppendAssoc(done, [chain], Andrews.PopTrace(chain, p));
      if stepMode {
        AppendAssoc(snaps0, done, [chain]);
        snaps := snaps + [chain];
      }
      done := done + [chain];
    }
    Andrews.PopStop(chain, p);
  }

  /** One `for` loop of the testing version: for each point, the pops and
      then the push, with a snapshot after each in step mode. */
  method ScanSnapshots(pts: seq<Point>, stepMode: bool, snaps0: seq<seq<Point>>)
    returns (chain: seq<Point>, snaps: seq<seq<Point>>)
    ensures chain == Andrews.Chain([], pts)
    ensures snaps == if stepMode then snaps0 + Andrews.ChainTrace([], pts) else snaps0
  {
    ghost var full := Andrews.ChainTrace([], pts);
    chain := [];
    snaps := snaps0;
    ghost var trace: seq<seq<Point>> := [];
    var i := 0;
    while i < |pts|
      invariant 0 <= i <= |pts|
      invariant Andrews.Chain(chain, pts[i..]) == Andrews.Chain([], pts)
      invariant trace + Andrews.ChainTrace(chain, pts[i..]) == full
      invariant snaps == if stepMode then snaps0 + trace else snaps0
    {
      var p := pts[i];
      ghost var pops := Andrews.PopTrace(chain, p);
      Andrews.ScanResumes(trace, chain, pts, i, full);
      chain, snaps := PopSnapshots(chain, p, stepMode, snaps);
      chain := chain + [p];
      if stepMode {
        AppendAssoc(snaps0, trace, pops);
        AppendAssoc(snaps0, trace + pops, [chain]);
        snaps := snaps + [chain];
      }
      AppendAssoc(trace, pops, [chain]);
      trace := trace + (pops + [chain]);
      i := i + 1;
    }
  }

  /** `andrews_algorithm` of the testing version: the same hull as
      andrews.py outside step mode, and in step mode exactly the stacks
      that andrews.py puts in the `hull` fields of its step records. */
  method AndrewsAlgorithm(points: seq<Point>, stepMode: bool) returns (out: Output)
    ensures out == if stepMode then Snapshots(Andrews.TraceHulls(points)) else Hull(Andrews.AndrewsHull(points))
  {
    if |points| <= 1 {
      if stepMode {
        out := Snapshots([points]);
      } else {
        out := Hull(points);
      }
      return;
    }
    var pts := Andrews.MergeSort(points);
    var lower, upper, snaps;
    lower, snaps := ScanSnapshots(pts, stepMode, []);
    var rev := Reverse(pts);
    upper, snaps := ScanSnapshots(rev, stepMode, snaps);
    var hull := DropLast(lower) + DropLast(upper);
    assert hull == Andrews.AndrewsHull(points);
    if stepMode {
      assert [] + Andrews.ChainTrace([], pts) == Andrews.ChainTrace([], pts);
      assert Andrews.TraceHulls(points) == Andrews.ChainTrace([], pts) + Andrews.ChainTrace([], rev) + [hull];
      snaps := snaps + [hull];
      out := Snapshots(snaps);
    } else {
      out := Hull(hull);
    }
  }
}
