/** Andrew's monotone-chain hull of convex_hull/algorithms/andrews.py:
    the turn predicate, the hand-written merge sort, the two stack scans
    and the step records of step mode.

    The specification functions (`Merged`, `MergeSort`, `PopNonLeft`,
    `Chain`, `ChainTrace`, `AndrewsHull`, `TraceHulls`) describe what the
    loops compute; the methods `Merge` and `AndrewsAlgorithm` are the loops
    themselves, proved against them. convex_hull/algorithms/andrews_for_Testing.py
    repeats `orientation`, `merge_sort` and `merge` character for character;
    it uses the members of this module. */
module Andrews {
  import opened Base

  // ---------------------------------------------------------------------
  // Turn predicate
  // ---------------------------------------------------------------------

  /** Cross product of `q - p` and `r - p`. */
  function Orientation(p: Point, q: Point, r: Point): real
  {
    (q.x - p.x) * (r.y - p.y) - (q.y - p.y) * (r.x - p.x)
  }

  /** The meaning of the sign of `Orientation`: it does not depend on where
      the turn starts (the three rotations agree) and it flips when the turn
      is walked backwards, so `> 0` is one turn direction (left,
      counter-clockwise), `< 0` the other and `0` collinear. */
  lemma OrientationSymmetries(p: Point, q: Point, r: Point)
    ensures Orientation(p, q, r) == Orientation(q, r, p) == Orientation(r, p, q)
    ensures Orientation(p, r, q) == -Orientation(p, q, r)
    ensures Orientation(p, p, r) == 0.0 && Orientation(p, q, q) == 0.0
  {
  }

  /** A turn towards positive y from a step towards positive x is a left turn. */
  lemma OrientationLeftOfXAxis(p: Point, d: real, h: real)
    requires d > 0.0
    ensures (Orientation(p, Point(p.x + d, p.y), Point(p.x, p.y + h)) > 0.0) <==> h > 0.0
  {
    assert Orientation(p, Point(p.x + d, p.y), Point(p.x, p.y + h)) == d * h;
  }

  // ---------------------------------------------------------------------
  // Ordering by x, then y, and the merge sort
  // ---------------------------------------------------------------------

  /** The comparison of `merge`: `a` goes first when it is strictly smaller
      by x, or equal in x and strictly smaller in y. */
  predicate Before(a: Point, b: Point)
  {
    a.x < b.x || (a.x == b.x && a.y < b.y)
  }

  /** Sorted ascending by (x, then y). */
  predicate SortedXY(s: seq<Point>)
  {
    forall i, j :: 0 <= i < j < |s| ==> !Before(s[j], s[i])
  }

  /** `Before` is a strict total order on points. */
  lemma BeforeIsStrictTotalOrder(a: Point, b: Point, c: Point)
    ensures !Before(a, a)
    ensures Before(a, b) ==> !Before(b, a)
    ensures Before(a, b) && Before(b, c) ==> Before(a, c)
    ensures a != b ==> Before(a, b) || Before(b, a)
  {
  }

  /** What `merge` returns: the two lists interleaved, taking from `left`
      only when its head is strictly before the head of `right`. */
  function Merged(left: seq<Point>, right: seq<Point>): (r: seq<Point>)
    ensures multiset(r) == multiset(left) + multiset(right)
    decreases |left| + |right|
  {
    if left == [] then right
    else if right == [] then left
    else if Before(left[0], right[0]) then
      assert left == [left[0]] + left[1..];
      [left[0]] + Merged(left[1..], right)
    else
      assert right == [right[0]] + right[1..];
      [right[0]] + Merged(left, right[1..])
  }

  /** Every element of the merge is an element of one of the two lists. */
  lemma MergedFrom(left: seq<Point>, right: seq<Point>, q: Point)
    requires q in Merged(left, right)
    ensures q in left || q in right
  {
    assert q in multiset(Merged(left, right));
  }

  /** Prepending a point that is not after anything in a sorted list keeps it sorted. */
  lemma ConsSorted(h: Point, rest: seq<Point>)
    requires SortedXY(rest)
    requires forall q :: q in rest ==> !Before(q, h)
    ensures SortedXY([h] + rest)
  {
    var r := [h] + rest;
    forall i, j | 0 <= i < j < |r| ensures !Before(r[j], r[i]) {
      assert r[j] == rest[j - 1];
      if i > 0 {
        assert r[i] == rest[i - 1];
      }
    }
  }

  /** Nothing in a sorted list comes before its head. */
  lemma SortedHead(s: seq<Point>, h: Point)
    requires SortedXY(s) && s != [] && !Before(s[0], h)
    ensures forall q :: q in s ==> !Before(q, h)
  {
    forall q | q in s ensures !Before(q, h) {
      var k :| 0 <= k < |s| && s[k] == q;
      if k > 0 {
        assert !Before(s[k], s[0]);
      }
    }
  }

  /** The tail of a sorted list is sorted and nothing in it comes before the head. */
  lemma SortedTail(s: seq<Point>)
    requires SortedXY(s) && s != []
    ensures SortedXY(s[1..])
    ensures forall q :: q in s[1..] ==> !Before(q, s[0])
  {
    forall q | q in s[1..] ensures !Before(q, s[0]) {
      var k :| 0 <= k < |s[1..]| && s[1..][k] == q;
      assert s[k + 1] == q;
    }
  }

  /** A bound on everything in two lists bounds everything in their merge. */
  lemma MergedBound(left: seq<Point>, right: seq<Point>, h: Point)
    requires forall q :: q in left ==> !Before(q, h)
    requires forall q :: q in right ==> !Before(q, h)
    ensures forall q :: q in Merged(left, right) ==> !Before(q, h)
  {
    forall q | q in Merged(left, right) ensures !Before(q, h) {
      MergedFrom(left, right, q);
    }
  }

  /** Merging two sorted lists gives a sorted list (and, by the contract of
      `Merged`, a permutation of their concatenation). */
  lemma {:induction false} MergedSorted(left: seq<Point>, right: seq<Point>)
    requires SortedXY(left) && SortedXY(right)
    ensures SortedXY(Merged(left, right))
    ensures |Merged(left, right)| == |left| + |right|
    decreases |left| + |right|
  {
    var r := Merged(left, right);
    assert |multiset(r)| == |multiset(left)| + |multiset(right)|;
    if left == [] || right == [] {
    } else if Before(left[0], right[0]) {
      MergedSorted(left[1..], right);
      SortedTail(left);
      SortedHead(right, left[0]);
      MergedBound(left[1..], right, left[0]);
      ConsSorted(left[0], Merged(left[1..], right));
    } else {
      MergedSorted(left, right[1..]);
      SortedTail(right);
      SortedHead(left, right[0]);
      MergedBound(left, right[1..], right[0]);
      ConsSorted(right[0], Merged(left, right[1..]));
    }
  }

  /** One step of `Merged` when both lists are non-empty. */
  lemma MergedStep(left: seq<Point>, right: seq<Point>)
    requires left != [] && right != []
    ensures Before(left[0], right[0]) ==> Merged(left, right) == [left[0]] + Merged(left[1..], right)
    ensures !Before(left[0], right[0]) ==> Merged(left, right) == [right[0]] + Merged(left, right[1..])
  {
  }

  /** `Merged` with one list exhausted is the other list. */
  lemma MergedDone(left: seq<Point>, right: seq<Point>)
    requires left == [] || right == []
    ensures Merged(left, right) == left + right
  {
  }

  /** The `while` loop of `merge` followed by the two `extend` calls. */
  method Merge(left: seq<Point>, right: seq<Point>) returns (result: seq<Point>)
    ensures result == Merged(left, right)
  {
    result := [];
    var i, j := 0, 0;
    while i < |left| && j < |right|
      invariant 0 <= i <= |left| && 0 <= j <= |right|
      invariant result + Merged(left[i..], right[j..]) == Merged(left, right)
      decreases |left| - i + |right| - j
    {
      MergedStep(left[i..], right[j..]);
      if left[i].x < right[j].x || (left[i].x == right[j].x && left[i].y < right[j].y) {
        assert left[i..][1..] == left[i + 1..];
        AppendAssoc(result, [left[i]], Merged(left[i + 1..], right[j..]));
        result := result + [left[i]];
        i := i + 1;
      } else {
        assert right[j..][1..] == right[j + 1..];
        AppendAssoc(result, [right[j]], Merged(left[i..], right[j + 1..]));
        result := result + [right[j]];
        j := j + 1;
      }
    }
    MergedDone(left[i..], right[j..]);
    AppendAssoc(result, left[i..], right[j..]);
    result := result + left[i..];
    result := result + right[j..];
  }

  /** `merge_sort`: lists of length at most one are returned as they are,
      longer ones are split at `len // 2`, sorted and merged. */
  function MergeSort(points: seq<Point>): (r: seq<Point>)
    ensures multiset(r) == multiset(points)
    decreases |points|
  {
    if |points| <= 1 then points
    else
      var mid := |points| / 2;
      assert points == points[..mid] + points[mid..];
      Merged(MergeSort(points[..mid]), MergeSort(points[mid..]))
  }

  /** `merge_sort` returns a permutation of its input sorted by (x, then y). */
  lemma {:induction false} MergeSortSorted(points: seq<Point>)
    ensures SortedXY(MergeSort(points))
    ensures multiset(MergeSort(points)) == multiset(points)
    ensures |MergeSort(points)| == |points|
    decreases |points|
  {
    if |points| > 1 {
      var mid := |points| / 2;
      MergeSortSorted(points[..mid]);
      MergeSortSorted(points[mid..]);
      MergedSorted(MergeSort(points[..mid]), MergeSort(points[mid..]));
    }
    assert |multiset(MergeSort(points))| == |multiset(points)|;
  }

  // ---------------------------------------------------------------------
  // The stack scans
  // ---------------------------------------------------------------------

  /** The last three of positions `i`, `i + 1`, `i + 2` of `s` make a strict left turn. */
  predicate LeftTurnAt(s: seq<Point>, i: int)
    requires 0 <= i && i + 2 < |s|
  {
    Orientation(s[i], s[i + 1], s[i + 2]) > 0.0
  }

  /** Every consecutive triple of the chain is a strict left turn: no right
      turn and no collinear middle point. */
  predicate StrictlyConvex(s: seq<Point>)
  {
    forall i :: 0 <= i && i + 2 < |s| ==> LeftTurnAt(s, i)
  }

  /** The inner `while` loop: pops the top of the stack while the two top
      points and `p` do not make a strict left turn. The result is a prefix
      of `stack` after which pushing `p` makes a strict left turn. */
  function PopNonLeft(stack: seq<Point>, p: Point): (r: seq<Point>)
    ensures |r| <= |stack| && r == stack[..|r|]
    ensures |r| >= 2 ==> Orientation(r[|r| - 2], r[|r| - 1], p) > 0.0
    ensures |stack| >= 2 ==> |r| >= 1
    decreases |stack|
  {
    if |stack| >= 2 && Orientation(stack[|stack| - 2], stack[|stack| - 1], p) <= 0.0 then
      PopNonLeft(stack[..|stack| - 1], p)
    else
      stack
  }

  /** The stacks passed through while popping for `p`: one entry per pop,
      each the stack just after that pop. */
  function PopTrace(stack: seq<Point>, p: Point): seq<seq<Point>>
    decreases |stack|
  {
    if |stack| >= 2 && Orientation(stack[|stack| - 2], stack[|stack| - 1], p) <= 0.0 then
      [stack[..|stack| - 1]] + PopTrace(stack[..|stack| - 1], p)
    else
      []
  }

  /** The `for` loop over `pts`: pop for each point, then push it. */
  function Chain(stack: seq<Point>, pts: seq<Point>): seq<Point>
    decreases |pts|
  {
    if pts == [] then stack
    else Chain(PopNonLeft(stack, pts[0]) + [pts[0]], pts[1..])
  }

  /** The stacks recorded while scanning `pts`: for each point, one stack
      per pop and then the stack after the push. */
  function ChainTrace(stack: seq<Point>, pts: seq<Point>): seq<seq<Point>>
    decreases |pts|
  {
    if pts == [] then []
    else
      var pushed := PopNonLeft(stack, pts[0]) + [pts[0]];
      PopTrace(stack, pts[0]) + [pushed] + ChainTrace(pushed, pts[1..])
  }

  /** What `andrews_algorithm` returns outside step mode. */
  function AndrewsHull(points: seq<Point>): seq<Point>
  {
    if |points| <= 1 then points
    else
      var pts := MergeSort(points);
      DropLast(Chain([], pts)) + DropLast(Chain([], Reverse(pts)))
  }

  /** The hull states passed through in step mode, one per recorded step:
      the lower-chain stacks, the upper-chain stacks and the combined hull. */
  function TraceHulls(points: seq<Point>): seq<seq<Point>>
  {
    if |points| <= 1 then [points]
    else
      var pts := MergeSort(points);
      ChainTrace([], pts) + ChainTrace([], Reverse(pts)) + [AndrewsHull(points)]
  }

  // ---------------------------------------------------------------------
  // Properties of the scans
  // ---------------------------------------------------------------------

  /** A prefix of a strictly convex chain is strictly convex. */
  lemma PrefixConvex(s: seq<Point>, n: nat)
    requires StrictlyConvex(s) && n <= |s|
    ensures StrictlyConvex(s[..n])
  {
    var t := s[..n];
    forall i | 0 <= i && i + 2 < |t| ensures LeftTurnAt(t, i) {
      assert LeftTurnAt(s, i);
      assert t[i] == s[i] && t[i + 1] == s[i + 1] && t[i + 2] == s[i + 2];
    }
  }

  /** Pushing `p` after the pops keeps every consecutive triple a strict left turn. */
  lemma PushKeepsConvex(stack: seq<Point>, p: Point)
    requires StrictlyConvex(stack)
    ensures StrictlyConvex(PopNonLeft(stack, p) + [p])
  {
    var r := PopNonLeft(stack, p);
    var s := r + [p];
    PrefixConvex(stack, |r|);
    forall i | 0 <= i && i + 2 < |s| ensures LeftTurnAt(s, i) {
      if i + 2 < |r| {
        assert LeftTurnAt(r, i);
        assert s[i] == r[i] && s[i + 1] == r[i + 1] && s[i + 2] == r[i + 2];
      }
    }
  }

  /** Popping keeps the chain strictly convex: every stack recorded after a
      pop is a prefix of a strictly convex stack. */
  lemma {:induction false} PopTraceConvex(stack: seq<Point>, p: Point)
    requires StrictlyConvex(stack)
    ensures forall s :: s in PopTrace(stack, p) ==> StrictlyConvex(s)
    decreases |stack|
  {
    if |stack| >= 2 && Orientation(stack[|stack| - 2], stack[|stack| - 1], p) <= 0.0 {
      var shorter := stack[..|stack| - 1];
      PrefixConvex(stack, |shorter|);
      PopTraceConvex(shorter, p);
    }
  }

  /** Starting from a strictly convex stack, every recorded stack and the
      final chain make strict left turns at every consecutive triple
      (collinear middle points are popped because the test is `<= 0`). */
  lemma {:induction false} ChainConvex(stack: seq<Point>, pts: seq<Point>)
    requires StrictlyConvex(stack)
    ensures StrictlyConvex(Chain(stack, pts))
    ensures forall s :: s in ChainTrace(stack, pts) ==> StrictlyConvex(s)
    decreases |pts|
  {
    if pts != [] {
      var pushed := PopNonLeft(stack, pts[0]) + [pts[0]];
      PushKeepsConvex(stack, pts[0]);
      PopTraceConvex(stack, pts[0]);
      ChainConvex(pushed, pts[1..]);
    }
  }

  /** Popping only removes points. */
  lemma {:induction false} PopTraceFrom(stack: seq<Point>, p: Point)
    ensures forall s :: s in PopTrace(stack, p) ==> AllIn(s, stack)
    decreases |stack|
  {
    if |stack| >= 2 && Orientation(stack[|stack| - 2], stack[|stack| - 1], p) <= 0.0 {
      PopTraceFrom(stack[..|stack| - 1], p);
    }
  }

  /** The chain and every recorded stack hold only points of the initial
      stack and of the scanned points. */
  lemma {:induction false} ChainFrom(stack: seq<Point>, pts: seq<Point>)
    ensures AllIn(Chain(stack, pts), stack + pts)
    ensures forall s :: s in ChainTrace(stack, pts) ==> AllIn(s, stack + pts)
    decreases |pts|
  {
    if pts != [] {
      var pushed := PopNonLeft(stack, pts[0]) + [pts[0]];
      PopTraceFrom(stack, pts[0]);
      ChainFrom(pushed, pts[1..]);
      assert pts == [pts[0]] + pts[1..];
    }
  }

  /** Scanning a non-empty list ends with its last point on top of the
      stack, and the last recorded stack is the final chain. */
  lemma {:induction false} ChainEnd(stack: seq<Point>, pts: seq<Point>)
    requires pts != []
    ensures Chain(stack, pts) != [] && Chain(stack, pts)[|Chain(stack, pts)| - 1] == pts[|pts| - 1]
    ensures ChainTrace(stack, pts) != []
    ensures ChainTrace(stack, pts)[|ChainTrace(stack, pts)| - 1] == Chain(stack, pts)
    decreases |pts|
  {
    if |pts| > 1 {
      ChainEnd(PopNonLeft(stack, pts[0]) + [pts[0]], pts[1..]);
    }
  }

  /** A recorded stack grows by one point (a push) or shrinks by one point
      (a pop) relative to the stack before it. */
  predicate OneMove(before: seq<Point>, after: seq<Point>)
  {
    (|after| == |before| + 1 && after[..|before|] == before) ||
    (|after| + 1 == |before| && before[..|after|] == after)
  }

  /** Number of pushes in a trace that starts from `stack`. */
  function Pushes(stack: seq<Point>, trace: seq<seq<Point>>): nat
    decreases |trace|
  {
    if trace == [] then 0
    else (if |trace[0]| > |stack| then 1 else 0) + Pushes(trace[0], trace[1..])
  }

  /** Number of pops in a trace that starts from `stack`. */
  function Pops(stack: seq<Point>, trace: seq<seq<Point>>): nat
    decreases |trace|
  {
    if trace == [] then 0
    else (if |trace[0]| < |stack| then 1 else 0) + Pops(trace[0], trace[1..])
  }

  /** Every recorded stack is one push or one pop away from the one before. */
  predicate MovesByOne(stack: seq<Point>, trace: seq<seq<Point>>)
    decreases |trace|
  {
    trace == [] || (OneMove(stack, trace[0]) && MovesByOne(trace[0], trace[1..]))
  }

  /** The last stack of a trace that starts from `stack`. */
  function LastStack(stack: seq<Point>, trace: seq<seq<Point>>): seq<Point>
  {
    if trace == [] then stack else trace[|trace| - 1]
  }

  lemma {:induction false} MovesByOneAppend(stack: seq<Point>, a: seq<seq<Point>>, b: seq<seq<Point>>)
    requires MovesByOne(stack, a)
    requires MovesByOne(LastStack(stack, a), b)
    ensures MovesByOne(stack, a + b)
    ensures Pushes(stack, a + b) == Pushes(stack, a) + Pushes(LastStack(stack, a), b)
    ensures Pops(stack, a + b) == Pops(stack, a) + Pops(LastStack(stack, a), b)
    ensures LastStack(stack, a + b) == LastStack(LastStack(stack, a), b)
    decreases |a|
  {
    if a == [] {
      assert a + b == b;
    } else {
      var ab := a + b;
      assert ab[0] == a[0];
      assert ab[1..] == a[1..] + b;
      assert LastStack(a[0], a[1..]) == LastStack(stack, a);
      assert LastStack(stack, ab) == LastStack(a[0], a[1..] + b);
      MovesByOneAppend(a[0], a[1..], b);
      assert OneMove(stack, ab[0]) && MovesByOne(ab[0], ab[1..]);
      assert Pushes(stack, ab) == (if |a[0]| > |stack| then 1 else 0) + Pushes(a[0], a[1..] + b);
      assert Pops(stack, ab) == (if |a[0]| < |stack| then 1 else 0) + Pops(a[0], a[1..] + b);
    }
  }

  /** Every pop removes exactly the top point. */
  lemma {:induction false} PopTraceMoves(stack: seq<Point>, p: Point)
    ensures MovesByOne(stack, PopTrace(stack, p))
    ensures Pushes(stack, PopTrace(stack, p)) == 0
    ensures Pops(stack, PopTrace(stack, p)) == |PopTrace(stack, p)|
    ensures LastStack(stack, PopTrace(stack, p)) == PopNonLeft(stack, p)
    decreases |stack|
  {
    if |stack| >= 2 && Orientation(stack[|stack| - 2], stack[|stack| - 1], p) <= 0.0 {
      var shorter := stack[..|stack| - 1];
      PopTraceMoves(shorter, p);
      assert shorter == stack[..|shorter|];
      var t := PopTrace(stack, p);
      assert t[0] == shorter && t[1..] == PopTrace(shorter, p);
      assert LastStack(shorter, t[1..]) == LastStack(stack, t);
    }
  }

  /** Scanning `pts` records exactly one push per point, every other
      record is a pop, and each record is one move away from the previous
      one: the number of records is `|pts|` plus the number of pops. */
  lemma {:induction false} ChainTraceMoves(stack: seq<Point>, pts: seq<Point>)
    ensures MovesByOne(stack, ChainTrace(stack, pts))
    ensures Pushes(stack, ChainTrace(stack, pts)) == |pts|
    ensures |ChainTrace(stack, pts)| == |pts| + Pops(stack, ChainTrace(stack, pts))
    decreases |pts|
  {
    if pts != [] {
      var popped := PopNonLeft(stack, pts[0]);
      var pushed := popped + [pts[0]];
      ChainTraceUnfold(stack, pts);
      PopTraceMoves(stack, pts[0]);
      ChainTraceMoves(pushed, pts[1..]);
      assert pushed[..|popped|] == popped;
      ConsMove(popped, pushed, ChainTrace(pushed, pts[1..]));
      MovesByOneAppend(stack, PopTrace(stack, pts[0]), [pushed] + ChainTrace(pushed, pts[1..]));
    }
  }

  /** Prepending one move to a trace. */
  lemma ConsMove(stack: seq<Point>, next: seq<Point>, trace: seq<seq<Point>>)
    requires OneMove(stack, next) && MovesByOne(next, trace)
    ensures MovesByOne(stack, [next] + trace)
    ensures Pushes(stack, [next] + trace) == (if |next| > |stack| then 1 else 0) + Pushes(next, trace)
    ensures Pops(stack, [next] + trace) == (if |next| < |stack| then 1 else 0) + Pops(next, trace)
  {
    var t := [next] + trace;
    assert t[0] == next && t[1..] == trace;
  }

  /** Scanning a permutation of `points` from the empty stack records only
      points of `points`, in every stack and in the final chain. */
  lemma ScanFromInput(pts: seq<Point>, points: seq<Point>)
    requires multiset(pts) == multiset(points)
    ensures AllIn(Chain([], pts), points)
    ensures forall s :: s in ChainTrace([], pts) ==> AllIn(s, points)
  {
    ChainFrom([], pts);
    assert [] + pts == pts;
    forall q | q in pts ensures q in points {
      assert q in multiset(pts);
    }
  }

  /** The sorted points and their reverse are permutations of the input. */
  lemma SortedPermutations(points: seq<Point>)
    ensures multiset(MergeSort(points)) == multiset(points)
    ensures multiset(Reverse(MergeSort(points))) == multiset(points)
    ensures |MergeSort(points)| == |points|
  {
    MergeSortSorted(points);
    ReverseSameElements(MergeSort(points));
  }

  /** Dropping the last point of each chain and joining them keeps only
      points of `t`. */
  lemma JoinedIn(lower: seq<Point>, upper: seq<Point>, t: seq<Point>)
    requires AllIn(lower, t) && AllIn(upper, t)
    ensures AllIn(DropLast(lower) + DropLast(upper), t)
  {
    forall q | q in DropLast(lower) + DropLast(upper) ensures q in t {
      if q in DropLast(lower) {
        var k :| 0 <= k < |DropLast(lower)| && DropLast(lower)[k] == q;
        assert q == lower[k];
      } else {
        var k :| 0 <= k < |DropLast(upper)| && DropLast(upper)[k] == q;
        assert q == upper[k];
      }
    }
  }

  /** The hull holds only input points; with zero or one point it is the input. */
  lemma AndrewsHullFromInput(points: seq<Point>)
    ensures AllIn(AndrewsHull(points), points)
    ensures |points| <= 1 ==> AndrewsHull(points) == points
  {
    if |points| > 1 {
      var pts := MergeSort(points);
      SortedPermutations(points);
      ScanFromInput(pts, points);
      ScanFromInput(Reverse(pts), points);
      JoinedIn(Chain([], pts), Chain([], Reverse(pts)), points);
    }
  }

  /** Step mode records `pops + 2 * len(points) + 1` stacks for two or more
      points: one per pop, one per push in each of the two scans, and the
      combined hull. The last record is the hull returned outside step mode,
      and every record holds only input points. */
  lemma TraceHullsShape(points: seq<Point>)
    requires |points| >= 2
    ensures |TraceHulls(points)|
            == Pops([], ChainTrace([], MergeSort(points))) + Pops([], ChainTrace([], Reverse(MergeSort(points))))
               + 2 * |points| + 1
    ensures TraceHulls(points)[|TraceHulls(points)| - 1] == AndrewsHull(points)
    ensures forall s :: s in TraceHulls(points) ==> AllIn(s, points)
  {
    var pts := MergeSort(points);
    var rev := Reverse(pts);
    var t1, t2 := ChainTrace([], pts), ChainTrace([], rev);
    assert TraceHulls(points) == t1 + t2 + [AndrewsHull(points)];
    SortedPermutations(points);
    ChainTraceMoves([], pts);
    ChainTraceMoves([], rev);
    ScanFromInput(pts, points);
    ScanFromInput(rev, points);
    AndrewsHullFromInput(points);
    TracesIn(t1, t2, AndrewsHull(points), points);
  }

  lemma TracesIn(t1: seq<seq<Point>>, t2: seq<seq<Point>>, h: seq<Point>, points: seq<Point>)
    requires forall s :: s in t1 ==> AllIn(s, points)
    requires forall s :: s in t2 ==> AllIn(s, points)
    requires AllIn(h, points)
    ensures forall s :: s in t1 + t2 + [h] ==> AllIn(s, points)
  {
  }

  /** Both chains of the hull make strict left turns at every consecutive
      triple, and they meet at the extreme points: the lower chain runs from
      the first to the last point of the sorted input, the upper chain back. */
  lemma AndrewsChainsConvex(points: seq<Point>)
    requires |points| >= 2
    ensures AndrewsHull(points) == DropLast(Chain([], MergeSort(points))) + DropLast(Chain([], Reverse(MergeSort(points))))
    ensures StrictlyConvex(Chain([], MergeSort(points)))
    ensures StrictlyConvex(Chain([], Reverse(MergeSort(points))))
    ensures ChainsMeet(MergeSort(points), Chain([], MergeSort(points)), Chain([], Reverse(MergeSort(points))))
  {
    SortedPermutations(points);
    BothScans(MergeSort(points));
  }

  lemma BothScans(pts: seq<Point>)
    requires |pts| >= 2
    ensures StrictlyConvex(Chain([], pts)) && StrictlyConvex(Chain([], Reverse(pts)))
    ensures ChainsMeet(pts, Chain([], pts), Chain([], Reverse(pts)))
  {
    ScansConvex(pts);
    ScansMeet(pts);
  }

  lemma ScansConvex(pts: seq<Point>)
    ensures StrictlyConvex(Chain([], pts)) && StrictlyConvex(Chain([], Reverse(pts)))
  {
    ChainConvex([], pts);
    ChainConvex([], Reverse(pts));
  }

  lemma ScansMeet(pts: seq<Point>)
    requires |pts| >= 2
    ensures ChainsMeet(pts, Chain([], pts), Chain([], Reverse(pts)))
  {
    ScanEnds(pts);
    ScanEnds(Reverse(pts));
    MeetFromEnds(pts, Chain([], pts), Chain([], Reverse(pts)));
  }

  /** `chain` has at least two points and runs from the first point of
      `pts` to its last. */
  predicate Spans(pts: seq<Point>, chain: seq<Point>)
  {
    |pts| >= 2 && |chain| >= 2 && chain[0] == pts[0] && chain[|chain| - 1] == pts[|pts| - 1]
  }

  lemma MeetFromEnds(pts: seq<Point>, lower: seq<Point>, upper: seq<Point>)
    requires Spans(pts, lower) && Spans(Reverse(pts), upper)
    ensures ChainsMeet(pts, lower, upper)
  {
    var rev := Reverse(pts);
    assert rev[0] == pts[|pts| - 1] && rev[|rev| - 1] == pts[0];
  }

  /** A scan from the empty stack over two or more points starts at the
      first point and ends at the last one. */
  lemma ScanEnds(pts: seq<Point>)
    requires |pts| >= 2
    ensures Spans(pts, Chain([], pts))
  {
    ChainEnd([], pts);
    ChainStart(pts);
  }

  /** The lower chain runs from the first to the last sorted point and the
      upper chain from the last back to the first, each with at least two points. */
  predicate ChainsMeet(pts: seq<Point>, lower: seq<Point>, upper: seq<Point>)
  {
    |pts| >= 2 && |lower| >= 2 && |upper| >= 2 &&
    lower[0] == pts[0] && lower[|lower| - 1] == pts[|pts| - 1] &&
    upper[0] == pts[|pts| - 1] && upper[|upper| - 1] == pts[0]
  }

  /** A scan from the empty stack over two or more points keeps the first
      point at the bottom and ends with at least two points. */
  lemma ChainStart(pts: seq<Point>)
    requires |pts| >= 2
    ensures |Chain([], pts)| >= 2 && Chain([], pts)[0] == pts[0]
  {
    var s1 := PopNonLeft([], pts[0]) + [pts[0]];
    assert s1 == [pts[0]];
    var s2 := PopNonLeft(s1, pts[1]) + [pts[1]];
    assert s2 == [pts[0], pts[1]];
    assert pts[1..][1..] == pts[2..];
    assert Chain([], pts) == Chain(s2, pts[2..]);
    ChainKeepsBottom(s2, pts[2..]);
  }

  /** Once the stack holds two points the bottom point is never popped and
      the stack never drops below two points. */
  lemma {:induction false} ChainKeepsBottom(stack: seq<Point>, pts: seq<Point>)
    requires |stack| >= 2
    ensures |Chain(stack, pts)| >= 2 && Chain(stack, pts)[0] == stack[0]
    decreases |pts|
  {
    if pts != [] {
      var popped := PopNonLeft(stack, pts[0]);
      var pushed := popped + [pts[0]];
      assert popped[0] == stack[0];
      ChainKeepsBottom(pushed, pts[1..]);
    }
  }

  // ---------------------------------------------------------------------
  // Step records of andrews.py
  // ---------------------------------------------------------------------

  /** The `phase` field of a step record. */
  datatype Phase = LowerHull | UpperHull | Complete

  /** The parameters of the `description` text; the wording itself is not modelled. */
  datatype Description =
    | RemovedPoint(removed: Point)                        // "Removed point {removed} ..."
    | AddedPoint(added: Point, ordinal: nat, total: nat)  // "Added point {p} ... ({i+1}/{len(pts)})"
    | FewPoints                                           // "Only one or zero points ..."
    | Combined                                            // "Combined lower and upper hull ..."

  /** One step record: the dictionary with keys step, hull, description, active and phase. */
  datatype StepRecord = StepRecord(step: nat, hull: seq<Point>, description: Description,
                                   active: seq<Point>, phase: Phase)

  /** What `andrews_algorithm` returns: the hull, or the step records in step mode. */
  datatype Output = Hull(hull: seq<Point>) | Steps(steps: seq<StepRecord>)

  /** Number of "added point" records among `steps[lo..hi]`. */
  function AddedBetween(steps: seq<StepRecord>, lo: nat, hi: nat): nat
    requires lo <= hi <= |steps|
    decreases hi - lo
  {
    if hi == lo then 0
    else AddedBetween(steps, lo, hi - 1) + (if steps[hi - 1].description.AddedPoint? then 1 else 0)
  }

  /** Appending a record does not change the counts over earlier ranges. */
  lemma {:induction false} AddedBetweenAppend(steps: seq<StepRecord>, lo: nat, hi: nat, r: StepRecord)
    requires lo <= hi <= |steps|
    ensures AddedBetween(steps + [r], lo, hi) == AddedBetween(steps, lo, hi)
    decreases hi - lo
  {
    if hi > lo {
      AddedBetweenAppend(steps, lo, hi - 1, r);
    }
  }

  /** Record `r` follows a record whose hull is `prev` while scanning `pts`:
      a pop record names the removed point as active and its hull is the
      previous stack without it; an add record names the pushed point as
      active, its hull is the previous stack plus that point, and that point
      is the `ordinal`-th of `pts`. */
  predicate Follows(prev: seq<Point>, r: StepRecord, pts: seq<Point>)
  {
    match r.description
    case RemovedPoint(q) => r.active == [q] && prev == r.hull + [q]
    case AddedPoint(q, ordinal, total) =>
      r.active == [q] && r.hull == prev + [q] &&
      total == |pts| && 1 <= ordinal <= total && q == pts[ordinal - 1]
    case _ => false
  }

  /** Record `k` of a scan whose records start at `lo`: numbered by its
      position, in `phase`, following the record before it (the first
      follows the empty stack), and, if it adds a point, numbered one past
      the add records before it. */
  predicate RecordAt(steps: seq<StepRecord>, lo: nat, k: nat, phase: Phase, pts: seq<Point>)
    requires lo <= k < |steps|
  {
    steps[k].step == k && steps[k].phase == phase &&
    Follows(if k == lo then [] else steps[k - 1].hull, steps[k], pts) &&
    (steps[k].description.AddedPoint? ==> steps[k].description.ordinal == AddedBetween(steps, lo, k) + 1)
  }

  /** Records `lo..` of `steps` are the records of one scan over `pts`
      (see `RecordAt`), holding `added` add records in all. */
  predicate PhaseRecords(steps: seq<StepRecord>, lo: nat, phase: Phase, pts: seq<Point>, added: nat)
  {
    lo <= |steps| &&
    (forall k :: lo <= k < |steps| ==> RecordAt(steps, lo, k, phase, pts)) &&
    AddedBetween(steps, lo, |steps|) == added
  }

  /** Appending a record that follows the last one keeps the phase well formed. */
  lemma PhaseRecordsAppend(steps: seq<StepRecord>, lo: nat, phase: Phase, pts: seq<Point>, added: nat,
                           r: StepRecord)
    requires PhaseRecords(steps, lo, phase, pts, added)
    requires r.step == |steps| && r.phase == phase
    requires Follows(if |steps| == lo then [] else steps[|steps| - 1].hull, r, pts)
    requires r.description.AddedPoint? ==> r.description.ordinal == added + 1
    ensures PhaseRecords(steps + [r], lo, phase, pts, if r.description.AddedPoint? then added + 1 else added)
  {
    var t := steps + [r];
    AddedBetweenAppend(steps, lo, |steps|, r);
    assert AddedBetween(t, lo, |t|) == AddedBetween(t, lo, |steps|) + (if r.description.AddedPoint? then 1 else 0);
    forall k | lo <= k < |t| ensures RecordAt(t, lo, k, phase, pts) {
      AddedBetweenAppend(steps, lo, k, r);
      if k < |steps| {
        assert RecordAt(steps, lo, k, phase, pts);
        assert t[k] == steps[k];
        if k > lo {
          assert t[k - 1] == steps[k - 1];
        }
      } else {
        assert t[k] == r;
        if k > lo {
          assert t[k - 1] == steps[k - 1];
        }
      }
    }
  }

  /** One more step of a scan, as `Chain` takes it. */
  lemma ChainUnfold(stack: seq<Point>, pts: seq<Point>)
    requires pts != []
    ensures Chain(stack, pts) == Chain(PopNonLeft(stack, pts[0]) + [pts[0]], pts[1..])
  {
  }

  /** One more step of a scan, as `ChainTrace` takes it. */
  lemma ChainTraceUnfold(stack: seq<Point>, pts: seq<Point>)
    requires pts != []
    ensures ChainTrace(stack, pts)
            == PopTrace(stack, pts[0]) + ([PopNonLeft(stack, pts[0]) + [pts[0]]]
                                          + ChainTrace(PopNonLeft(stack, pts[0]) + [pts[0]], pts[1..]))
  {
  }

  /** One more pop, as `PopNonLeft` and `PopTrace` take it. */
  lemma PopUnfold(stack: seq<Point>, p: Point)
    requires |stack| >= 2 && Orientation(stack[|stack| - 2], stack[|stack| - 1], p) <= 0.0
    ensures PopNonLeft(stack, p) == PopNonLeft(stack[..|stack| - 1], p)
    ensures PopTrace(stack, p) == [stack[..|stack| - 1]] + PopTrace(stack[..|stack| - 1], p)
  {
  }

  /** No more pops. */
  lemma PopStop(stack: seq<Point>, p: Point)
    requires !(|stack| >= 2 && Orientation(stack[|stack| - 2], stack[|stack| - 1], p) <= 0.0)
    ensures PopNonLeft(stack, p) == stack && PopTrace(stack, p) == []
  {
  }

  /** Records `|steps0|..` of `steps` carry, in order, the hulls of `trace`. */
  predicate Mirrors(steps: seq<StepRecord>, steps0: seq<StepRecord>, trace: seq<seq<Point>>)
  {
    |steps| == |steps0| + |trace| && steps[..|steps0|] == steps0 &&
    forall k :: 0 <= k < |trace| ==> steps[|steps0| + k].hull == trace[k]
  }

  lemma MirrorsAppend(steps: seq<StepRecord>, steps0: seq<StepRecord>, trace: seq<seq<Point>>, r: StepRecord)
    requires Mirrors(steps, steps0, trace)
    ensures Mirrors(steps + [r], steps0, trace + [r.hull])
  {
    var t := steps + [r];
    assert t[..|steps0|] == steps[..|steps0|];
    forall k | 0 <= k < |trace| + 1 ensures t[|steps0| + k].hull == (trace + [r.hull])[k] {
      if k < |trace| {
        assert t[|steps0| + k] == steps[|steps0| + k];
      }
    }
  }

  lemma MirrorsTrans(a: seq<StepRecord>, b: seq<StepRecord>, steps0: seq<StepRecord>,
                     t1: seq<seq<Point>>, t2: seq<seq<Point>>)
    requires Mirrors(a, steps0, t1) && Mirrors(b, a, t2)
    ensures Mirrors(b, steps0, t1 + t2)
  {
    assert b[..|steps0|] == a[..|steps0|];
    forall k | 0 <= k < |t1| + |t2| ensures b[|steps0| + k].hull == (t1 + t2)[k] {
      if k < |t1| {
        assert b[|steps0| + k] == a[|steps0| + k];
      } else {
        assert b[|steps0| + k] == b[|a| + (k - |t1|)];
      }
    }
  }

  /** The hull of the last record of a scan starting at `lo`; the empty
      stack before the first. */
  function LastHull(steps: seq<StepRecord>, lo: nat): (h: seq<Point>)
    requires lo <= |steps|
    ensures |steps| > lo ==> h == steps[|steps| - 1].hull
  {
    if |steps| == lo then [] else steps[|steps| - 1].hull
  }

  /** The inner loop of one scan of andrews.py: pops the top of the stack
      while it and the point below it do not make a strict left turn
      towards `p`, recording each pop in step mode. */
  method PopSteps(stack: seq<Point>, p: Point, phase: Phase, stepMode: bool, steps0: seq<StepRecord>,
                  ghost lo: nat, ghost pts: seq<Point>, ghost added: nat)
    returns (chain: seq<Point>, steps: seq<StepRecord>)
    requires stepMode ==> PhaseRecords(steps0, lo, phase, pts, added) && LastHull(steps0, lo) == stack
    ensures chain == PopNonLeft(stack, p)
    ensures !stepMode ==> steps == steps0
    ensures stepMode ==> Mirrors(steps, steps0, PopTrace(stack, p)) &&
                         PhaseRecords(steps, lo, phase, pts, added) && LastHull(steps, lo) == chain
  {
    chain := stack;
    steps := steps0;
    ghost var done: seq<seq<Point>> := [];
    while |chain| >= 2 && Orientation(chain[|chain| - 2], chain[|chain| - 1], p) <= 0.0
      invariant PopNonLeft(chain, p) == PopNonLeft(stack, p)
      invariant done + PopTrace(chain, p) == PopTrace(stack, p)
      invariant !stepMode ==> steps == steps0
      invariant stepMode ==> Mirrors(steps, steps0, done) &&
                             PhaseRecords(steps, lo, phase, pts, added) && LastHull(steps, lo) == chain
      decreases |chain|
    {
      PopUnfold(chain, p);
      var removed := chain[|chain| - 1];
      assert chain == chain[..|chain| - 1] + [removed];
      chain := chain[..|chain| - 1];
      AppendAssoc(done, [chain], PopTrace(chain, p));
      if stepMode {
        var r := StepRecord(|steps|, chain, RemovedPoint(removed), [removed], phase);
        PhaseRecordsAppend(steps, lo, phase, pts, added, r);
        MirrorsAppend(steps, steps0, done, r);
        steps := steps + [r];
      }
      done := done + [chain];
    }
    PopStop(chain, p);
  }

  /** One iteration of the `for` loop of a scan: the pops for point
      `p == pts[i]` followed by its push, with their records in step mode. */
  method ScanPoint(stack: seq<Point>, pts: seq<Point>, i: nat, phase: Phase, stepMode: bool,
                   steps0: seq<StepRecord>, ghost lo: nat)
    returns (chain: seq<Point>, steps: seq<StepRecord>)
    requires i < |pts|
    requires stepMode ==> PhaseRecords(steps0, lo, phase, pts, i) && LastHull(steps0, lo) == stack
    ensures chain == PopNonLeft(stack, pts[i]) + [pts[i]]
    ensures !stepMode ==> steps == steps0
    ensures stepMode ==> Mirrors(steps, steps0, PopTrace(stack, pts[i]) + [chain]) &&
                         PhaseRecords(steps, lo, phase, pts, i + 1) && LastHull(steps, lo) == chain
  {
    var p := pts[i];
    chain, steps := PopSteps(stack, p, phase, stepMode, steps0, lo, pts, i);
    chain := chain + [p];
    if stepMode {
      var r := StepRecord(|steps|, chain, AddedPoint(p, i + 1, |pts|), [p], phase);
      PhaseRecordsAppend(steps, lo, phase, pts, i, r);
      MirrorsAppend(steps, steps0, PopTrace(stack, p), r);
      steps := steps + [r];
    }
  }

  /** After the records `trace` of the first `i` points with `chain` on
      the stack, the pops and push for point `i` continue the scan. */
  lemma ScanResumes(trace: seq<seq<Point>>, chain: seq<Point>, pts: seq<Point>, i: nat,
                    full: seq<seq<Point>>)
    requires i < |pts|
    requires trace + ChainTrace(chain, pts[i..]) == full
    ensures var next := PopNonLeft(chain, pts[i]) + [pts[i]];
            Chain(chain, pts[i..]) == Chain(next, pts[i + 1..]) &&
            (trace + (PopTrace(chain, pts[i]) + [next])) + ChainTrace(next, pts[i + 1..]) == full
  {
    var next := PopNonLeft(chain, pts[i]) + [pts[i]];
    var pops := PopTrace(chain, pts[i]);
    ChainUnfold(chain, pts[i..]);
    ChainTraceUnfold(chain, pts[i..]);
    assert pts[i..][0] == pts[i] && pts[i..][1..] == pts[i + 1..];
    AppendAssoc(pops, [next], ChainTrace(next, pts[i + 1..]));
    AppendAssoc(trace, pops + [next], ChainTrace(next, pts[i + 1..]));
  }

  /** One scan of andrews.py (the lower-hull loop, or the upper-hull loop
      over the reversed points): pops while the turn is not strictly left,
      pushes, and in step mode appends one record per pop and per push. */
  method ScanChain(pts: seq<Point>, phase: Phase, stepMode: bool, steps0: seq<StepRecord>)
    returns (chain: seq<Point>, steps: seq<StepRecord>)
    ensures chain == Chain([], pts)
    ensures !stepMode ==> steps == steps0
    ensures stepMode ==> Mirrors(steps, steps0, ChainTrace([], pts)) && PhaseRecords(steps, |steps0|, phase, pts, |pts|)
  {
    ghost var full := ChainTrace([], pts);
    chain := [];
    steps := steps0;
    ghost var trace: seq<seq<Point>> := [];
    var i := 0;
    while i < |pts|
      invariant 0 <= i <= |pts|
      invariant Chain(chain, pts[i..]) == Chain([], pts)
      invariant trace + ChainTrace(chain, pts[i..]) == full
      invariant !stepMode ==> steps == steps0
      invariant stepMode ==> Mirrors(steps, steps0, trace) && PhaseRecords(steps, |steps0|, phase, pts, i) &&
                             LastHull(steps, |steps0|) == chain
    {
      ghost var pops := PopTrace(chain, pts[i]);
      ScanResumes(trace, chain, pts, i, full);
      ghost var steps1 := steps;
      chain, steps := ScanPoint(chain, pts, i, phase, stepMode, steps, |steps0|);
      if stepMode {
        MirrorsTrans(steps1, steps, steps0, trace, pops + [chain]);
      }
      trace := trace + (pops + [chain]);
      i := i + 1;
    }
  }

  /** The step records of `andrews_algorithm` for two or more points, with
      `pts` the sorted points and `hull` the combined hull: the lower-hull
      records of the scan over `pts`, then the upper-hull records of the
      scan over its reverse, then one closing record holding `hull`. */
  predicate ScanSteps(steps: seq<StepRecord>, pts: seq<Point>, hull: seq<Point>)
  {
    var m := |ChainTrace([], pts)|;
    var n := |steps|;
    m < n &&
    PhaseRecords(steps[..m], 0, LowerHull, pts, |pts|) &&
    PhaseRecords(steps[..n - 1], m, UpperHull, Reverse(pts), |pts|) &&
    steps[n - 1] == StepRecord(n - 1, hull, Combined, [], Complete)
  }

  /** Putting the records of the two scans and the closing record together. */
  lemma AssembleSteps(pts: seq<Point>, hull: seq<Point>, lowerSteps: seq<StepRecord>, upperSteps: seq<StepRecord>)
    requires Mirrors(lowerSteps, [], ChainTrace([], pts))
    requires PhaseRecords(lowerSteps, 0, LowerHull, pts, |pts|)
    requires Mirrors(upperSteps, lowerSteps, ChainTrace([], Reverse(pts)))
    requires PhaseRecords(upperSteps, |lowerSteps|, UpperHull, Reverse(pts), |Reverse(pts)|)
    ensures var all := upperSteps + [StepRecord(|upperSteps|, hull, Combined, [], Complete)];
            Mirrors(all, [], ChainTrace([], pts) + ChainTrace([], Reverse(pts)) + [hull]) &&
            ScanSteps(all, pts, hull)
  {
    var t1, t2 := ChainTrace([], pts), ChainTrace([], Reverse(pts));
    var r := StepRecord(|upperSteps|, hull, Combined, [], Complete);
    MirrorsTrans(lowerSteps, upperSteps, [], t1, t2);
    MirrorsAppend(upperSteps, [], t1 + t2, r);
    AssemblePhases(pts, lowerSteps, upperSteps, r);
  }

  lemma AssemblePhases(pts: seq<Point>, lowerSteps: seq<StepRecord>, upperSteps: seq<StepRecord>, r: StepRecord)
    requires |lowerSteps| == |ChainTrace([], pts)|
    requires |lowerSteps| <= |upperSteps| && upperSteps[..|lowerSteps|] == lowerSteps
    requires PhaseRecords(lowerSteps, 0, LowerHull, pts, |pts|)
    requires PhaseRecords(upperSteps, |lowerSteps|, UpperHull, Reverse(pts), |pts|)
    requires r == StepRecord(|upperSteps|, r.hull, Combined, [], Complete)
    ensures ScanSteps(upperSteps + [r], pts, r.hull)
  {
    var all := upperSteps + [r];
    assert all[..|lowerSteps|] == lowerSteps;
    assert all[..|all| - 1] == upperSteps;
  }

  /** `andrews_algorithm`. Outside step mode it returns the hull. In step
      mode it returns the step records: for zero or one point a single
      "complete" record; otherwise the records described by `ScanSteps`,
      numbered from 0 and carrying, in order, the stacks of `TraceHulls`. */
  method AndrewsAlgorithm(points: seq<Point>, stepMode: bool) returns (out: Output)
    ensures !stepMode ==> out == Hull(AndrewsHull(points))
    ensures stepMode ==> out.Steps? && Mirrors(out.steps, [], TraceHulls(points))
    ensures stepMode && |points| <= 1 ==> out.steps == [StepRecord(0, points, FewPoints, points, Complete)]
    ensures stepMode && |points| >= 2 ==> ScanSteps(out.steps, MergeSort(points), AndrewsHull(points))
  {
    if |points| <= 1 {
      if stepMode {
        out := Steps([StepRecord(0, points, FewPoints, points, Complete)]);
      } else {
        out := Hull(points);
      }
      return;
    }
    var pts := MergeSort(points);
    var lower, upper, steps;
    lower, steps := ScanChain(pts, LowerHull, stepMode, []);
    ghost var lowerSteps := steps;
    var rev := Reverse(pts);
    upper, steps := ScanChain(rev, UpperHull, stepMode, steps);
    var hull := DropLast(lower) + DropLast(upper);
    assert hull == AndrewsHull(points);
    if stepMode {
      assert TraceHulls(points) == ChainTrace([], pts) + ChainTrace([], rev) + [hull];
      AssembleSteps(pts, hull, lowerSteps, steps);
      steps := steps + [StepRecord(|steps|, hull, Combined, [], Complete)];
      out := Steps(steps);
    } else {
      out := Hull(hull);
    }
  }
}
