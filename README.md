# Convex hulls and GJK, modelled in Dafny

This project models the algorithmic core of a small computational-geometry
repository. The repository computes convex hulls of point sets in the plane and
tests two convex polygons for collision.

- **Andrew's monotone chain** (`convex_hull/algorithms/andrews.py`). It sorts the
  points with a hand-written merge sort by x, then y. It then builds a lower and
  an upper chain with a stack that pops while the last turn is not strictly
  left, and returns `lower[:-1] + upper[:-1]`. In step mode it also returns one
  step record per pop, one per push and a closing record.
- **The snapshot twin of Andrew's algorithm** (`andrews_for_Testing.py`). It
  computes the same hull, but its step mode returns plain lists of points.
- **QuickHull** (`quickhull.py`). It keeps a module-level ordered hull list and
  inserts each farthest point just before the end of the line it was found
  from. Step mode records dictionaries. A final sort by angle around the
  centroid orders the hull counter-clockwise.
- **The QuickHull twin** (`quickhull_for_Testing.py`). The hull list is passed
  as an argument, and step mode records plain snapshots.
- **The older copy of QuickHull** (`quick.py`). Its second recursive call leaves
  out the `side` argument (`quick.py:116`). Python raises a `TypeError` there,
  so every call that finds a farthest point fails. The model gives that call
  the result `Err(MissingSideArgument)`. `quickhull_algorithm` therefore
  returns normally only when no point lies off the line through the two
  extreme points.
- **The step adapter** (`adapter.py`). It turns the step lists into
  visualisation steps. For plain snapshots, it marks the points that changed
  since the previous snapshot.
- **GJK** (`gjk.py`). This is the Gilbert–Johnson–Keerthi collision test on
  the Minkowski difference of two vertex lists. It has support points, the
  1-, 2- and 3-point simplex update and a bounded iteration loop that records
  one step per iteration.

Each module follows one source file: `Base`, `Andrews`, `AndrewsForTesting`,
`Quickhull`, `QuickhullForTesting`, `Quick`, `Adapter` and `Gjk`.

The modelling choices are these:

- Coordinates are `real`, so every cross product and dot product is exact.
- The source works with loops and in-place lists. Each such operation is a
  method with loop invariants, proved equal to a specification function. The
  lemmas state what the source promises about that function.
- The module-level `hull` of QuickHull is an explicit accumulator: each method
  takes the hull on entry and returns the hull on exit. The shared `steps`
  list is handled the same way.
- `orientation`, `merge` and `merge_sort` are copied character for character
  between `andrews.py` and `andrews_for_Testing.py`. They are modelled once in
  `Andrews`.
- `quick.py` and `quickhull.py` share `findSide` and `lineDist`, which are
  modelled once in `Quickhull`.

Two behaviours of the code worth noting:

- Two or more identical points give the hull `[p, p]`: the pop loop keeps
  two points on each chain, and `lower[:-1] + upper[:-1]` keeps one of each
  (`andrews.py:61`, `andrews.py:115`).
- QuickHull's extreme points are the first point of least x and the first
  point of greatest x in input order, with no tie-break on y
  (`quickhull.py:133-140`).

## Model

| member | source | states |
|---|---|---|
| Base.DropLast | convex_hull/algorithms/andrews.py:115 | `s[:-1]`: one element shorter (empty stays empty), with the same elements in the same places |
| Base.Reverse | convex_hull/algorithms/andrews.py:87 | `reversed(pts)`: the same length, and element k is element `n-1-k` of the input |
| Base.ReverseSameElements | convex_hull/algorithms/andrews.py:87 | reversing keeps the multiset of points |
| Andrews.Orientation | convex_hull/algorithms/andrews.py:5-7 | `orientation(p, q, r)`, the cross product (q−p)×(r−p); its sign conventions are stated by `OrientationSymmetries`, `OrientationLeftOfXAxis` and `Quickhull.FindSideIsOrientationSign` |
| Andrews.OrientationSymmetries | convex_hull/algorithms/andrews.py:5-7 | the turn is invariant under cyclic rotation of its points, changes sign when two points are swapped, and is zero when two adjacent points coincide |
| Andrews.OrientationLeftOfXAxis | convex_hull/algorithms/andrews.py:5-7 | for a line pointing in +x, the turn to a third point is positive exactly when that point lies above it (positive means a left turn) |
| Andrews.BeforeIsStrictTotalOrder | convex_hull/algorithms/andrews.py:22 | the merge comparison "x smaller, or x equal and y smaller" is irreflexive, asymmetric, transitive and total on distinct points |
| Andrews.Merged | convex_hull/algorithms/andrews.py:18-30 | the merged list holds exactly the points of both inputs (multiset equality) |
| Andrews.MergedFrom | convex_hull/algorithms/andrews.py:18-30 | every merged point comes from one of the two inputs |
| Andrews.MergedSorted | convex_hull/algorithms/andrews.py:18-30 | merging two lists sorted by (x, y) gives a sorted list whose length is the sum of theirs |
| Andrews.Merge | convex_hull/algorithms/andrews.py:18-30 | the index-driven `while` loop and its two tail copies return exactly the merge of the two lists |
| Andrews.MergeSort | convex_hull/algorithms/andrews.py:9-16 | `merge_sort` returns a permutation of its input |
| Andrews.MergeSortSorted | convex_hull/algorithms/andrews.py:9-16 | `merge_sort` returns a permutation of its input, sorted by (x, then y), of the same length |
| Andrews.PopNonLeft | convex_hull/algorithms/andrews.py:61-71 | the pop loop leaves a prefix of the stack; if two or more points remain, adding `p` makes a strict left turn; a stack of two or more keeps at least one point |
| Andrews.PrefixConvex | convex_hull/algorithms/andrews.py:61-74 | a prefix of a chain whose consecutive triples all turn strictly left keeps that property |
| Andrews.PushKeepsConvex | convex_hull/algorithms/andrews.py:61-74 | popping for `p` and then pushing `p` keeps every consecutive triple a strict left turn (so collinear middle points are dropped) |
| Andrews.PopTraceConvex | convex_hull/algorithms/andrews.py:61-71 | every stack recorded during the pops is strictly convex |
| Andrews.ChainConvex | convex_hull/algorithms/andrews.py:58-83 | the finished chain and every recorded stack of the scan are strictly convex |
| Andrews.PopTraceFrom | convex_hull/algorithms/andrews.py:61-71 | every stack recorded while popping holds only points of the stack before the pops |
| Andrews.ChainFrom | convex_hull/algorithms/andrews.py:58-83 | the chain and each recorded stack hold only points of the initial stack and the scanned points |
| Andrews.ChainEnd | convex_hull/algorithms/andrews.py:58-83 | a scan over a non-empty list ends with its last point on top, and its last recorded stack is the finished chain |
| Andrews.ChainStart | convex_hull/algorithms/andrews.py:58-83 | a scan of two or more points from the empty stack has at least two points and starts at the first point |
| Andrews.ChainKeepsBottom | convex_hull/algorithms/andrews.py:61-71 | once the stack holds two points its bottom point is never popped |
| Andrews.ScanEnds | convex_hull/algorithms/andrews.py:58-83 | a scan of two or more points runs from the first point to the last |
| Andrews.MeetFromEnds | convex_hull/algorithms/andrews.py:85-115 | a lower chain from first to last point and an upper chain over the reversed points meet at both extreme points |
| Andrews.PopTraceMoves | convex_hull/algorithms/andrews.py:61-71 | the pop records change the stack one point at a time, push nothing, and leave the popped stack on top |
| Andrews.ChainTraceMoves | convex_hull/algorithms/andrews.py:58-83 | the records of a scan change the stack by one point each; there is exactly one push per scanned point, and the number of records is the number of points plus the number of pops |
| Andrews.MovesByOneAppend | convex_hull/algorithms/andrews.py:58-112 | push and pop counts add up over concatenated record lists |
| Andrews.ScanFromInput | convex_hull/algorithms/andrews.py:53-83 | a scan over a permutation of the input holds, and records, only input points |
| Andrews.SortedPermutations | convex_hull/algorithms/andrews.py:53-88 | both scan orders, sorted and reversed, are permutations of the input |
| Andrews.JoinedIn | convex_hull/algorithms/andrews.py:115 | `lower[:-1] + upper[:-1]` holds only points that both chains draw from |
| Andrews.AndrewsHull | convex_hull/algorithms/andrews.py:42-115 | what `andrews_algorithm` returns outside step mode: the input for at most one point, otherwise `lower[:-1] + upper[:-1]` of the scans over the sorted points and their reverse; its properties are `AndrewsHullFromInput` and `AndrewsChainsConvex` |
| Andrews.TraceHulls | convex_hull/algorithms/andrews.py:42-127 | the hulls of the step records in order: the lower-chain stacks, the upper-chain stacks and the final hull; its properties are `TraceHullsShape` and `ChainConvex` |
| Andrews.AndrewsHullFromInput | convex_hull/algorithms/andrews.py:42-115 | the hull holds only input points, and with at most one point the input is returned unchanged |
| Andrews.AndrewsChainsConvex | convex_hull/algorithms/andrews.py:53-115 | for two or more points the hull is `lower[:-1] + upper[:-1]`; both chains are strictly convex and run from the first sorted point to the last and back |
| Andrews.TraceHullsShape | convex_hull/algorithms/andrews.py:53-127 | for two or more points there are (pops) + 2·n + 1 recorded hulls, the last one is the returned hull, and every one holds only input points |
| Andrews.PhaseRecordsAppend | convex_hull/algorithms/andrews.py:62-83 | appending a pop or add record that follows the previous hull keeps a phase's records well numbered |
| Andrews.PopSteps | convex_hull/algorithms/andrews.py:61-71 | the pop loop returns the popped stack and appends one record per pop: the step number is its position, the active point is the one removed and the hull is the stack after the pop; outside step mode nothing is appended |
| Andrews.ScanPoint | convex_hull/algorithms/andrews.py:60-83 | the pops for one point, then its push record: the active point is the pushed one, and it is the (i+1)-th of n |
| Andrews.ScanChain | convex_hull/algorithms/andrews.py:58-83 | one phase's `for` loop returns the chain and appends the records of its stacks, numbered without gaps, exactly `len(pts)` of them add records |
| Andrews.AssembleSteps | convex_hull/algorithms/andrews.py:58-127 | the lower records, the upper records and the closing "complete" record together form the step list of two or more points |
| Andrews.AndrewsAlgorithm | convex_hull/algorithms/andrews.py:32-127 | returns the monotone-chain hull; in step mode the record hulls are exactly the recorded stacks and the final hull; with at most one point a single complete record whose hull and active are the input; otherwise lower-phase records, then upper-phase records, each with `len(pts)` add records, then a complete record with no active points and the returned hull |
| AndrewsForTesting.PopSnapshots | convex_hull/algorithms/andrews_for_Testing.py:63-66 | the pop loop returns the popped stack and appends a snapshot of the stack after each pop |
| AndrewsForTesting.ScanSnapshots | convex_hull/algorithms/andrews_for_Testing.py:60-71 | one chain's loop returns the chain and appends the snapshot after every pop and every push |
| AndrewsForTesting.AndrewsAlgorithm | convex_hull/algorithms/andrews_for_Testing.py:38-94 | the hull is the same as in andrews.py; the snapshots are `[points]` for at most one point, otherwise the lower stacks, the upper stacks and the hull (so their count and content are those of `TraceHullsShape`) |
| Quickhull.FindSide | convex_hull/algorithms/quickhull.py:17-23 | `findSide` is 1, -1 or 0 exactly when the cross product (p2−p1)×(p−p1) is positive, negative or zero |
| Quickhull.LineDist | convex_hull/algorithms/quickhull.py:26-27 | `lineDist` is the absolute value of that cross product: non-negative, and zero exactly when `findSide` is 0 |
| Quickhull.FindSideIsOrientationSign | convex_hull/algorithms/quickhull.py:17-23 | `findSide` is the sign of Andrew's `orientation`, so both algorithms share one turn convention |
| Quickhull.FindSideSwap | convex_hull/algorithms/quickhull.py:17-27 | swapping the two line points flips the side and keeps the distance |
| Quickhull.EndpointsOnLine | convex_hull/algorithms/quickhull.py:17-23 | both end points of a line are on it |
| Quickhull.FarthestInIsFarthest | convex_hull/algorithms/quickhull.py:44-49 | the scanned index is -1 exactly when no point is strictly on `side`; otherwise that point is on `side`, no candidate is farther, and every earlier candidate is strictly closer |
| Quickhull.FindFarthest | convex_hull/algorithms/quickhull.py:44-49 | the search loop returns the first farthest candidate on `side`, or -1 |
| Quickhull.Remove | convex_hull/algorithms/quickhull.py:76-87 | leaving out `farthest` keeps exactly the other points |
| Quickhull.RemoveShorter | convex_hull/algorithms/quickhull.py:76-87 | leaving out a point of the list makes it strictly shorter |
| Quickhull.SideFilter | convex_hull/algorithms/quickhull.py:76-87 | the filtered list holds exactly the points strictly on `side` of the line |
| Quickhull.FirstIndex | convex_hull/algorithms/quickhull.py:66 | `hull.index(p2)` is the first position of `p2` |
| Quickhull.InsertBefore | convex_hull/algorithms/quickhull.py:64-74 | the hull grows by exactly one point, `farthest` |
| Quickhull.InsertBeforeSpec | convex_hull/algorithms/quickhull.py:64-74 | `farthest` is inserted just before the first `p2`, or appended when `p2` is absent, and the other entries keep their order |
| Quickhull.WithEndpoints | convex_hull/algorithms/quickhull.py:52-59 | without a candidate both end points end up in the hull, and nothing else is added |
| Quickhull.ChildrenShorter | convex_hull/algorithms/quickhull.py:76-91 | the child lists are strictly shorter and hold only points other than `farthest`, strictly on `side` of (p1, farthest) and of (farthest, p2) |
| Quickhull.Run | convex_hull/algorithms/quickhull.py:30-91 | what one `quickHull` call does to the global hull and which steps it appends; its properties are `RunKeepsHull`, `RunSteps`, `RunFound` and `ChildrenShorter` |
| Quickhull.RunKeepsHull | convex_hull/algorithms/quickhull.py:30-91 | a call keeps every entry of the hull, ends with `p1` and `p2` in it, and adds only candidates or the end points |
| Quickhull.RunSteps | convex_hull/algorithms/quickhull.py:30-91 | a call records at least one step; on a non-empty list the first is the probe of the dividing line with the candidates on `side` as test points; the last holds the hull reached with nothing active |
| Quickhull.RunFound | convex_hull/algorithms/quickhull.py:36-91 | with a farthest point a call records the probe, inserts `farthest` and records it as active, then runs on the two child lists in turn |
| Quickhull.Partition | convex_hull/algorithms/quickhull.py:76-87 | the partition loop returns exactly the points other than `farthest` strictly on `side` of each new line |
| Quickhull.QuickHull | convex_hull/algorithms/quickhull.py:30-91 | the recursive method leaves the global hull and the step list as the specification function `Run` says, and appends nothing when steps are not recorded |
| Quickhull.ExtremesAreFirst | convex_hull/algorithms/quickhull.py:133-140 | the scan picks the first point of least x and the first point of greatest x |
| Quickhull.ExtremeIndices | convex_hull/algorithms/quickhull.py:133-140 | the loop returns those two indices |
| Quickhull.SplitByLine | convex_hull/algorithms/quickhull.py:149-159 | the points other than the two extremes go above or below the line by the sign of the cross product; collinear points are dropped |
| Quickhull.CombineKeeps | convex_hull/algorithms/quickhull.py:145-163 | after both top-level calls the hull holds both extreme points, at least two points, and only candidates besides them |
| Quickhull.BuildFromInput | convex_hull/algorithms/quickhull.py:128-163 | for three or more points the built hull holds both extreme points and only input points |
| Quickhull.QuickhullAlgorithm | convex_hull/algorithms/quickhull.py:122-186 | the method returns the hull or the step list of the specification functions `QuickhullHull` and `QuickhullSteps` |
| Quickhull.QuickhullFromInput | convex_hull/algorithms/quickhull.py:122-172 | the result holds only input points; fewer than three points come back unchanged (`[points]` in step mode); otherwise the result is a permutation of the built hull holding both extreme points |
| Quickhull.QuickhullStepsShape | convex_hull/algorithms/quickhull.py:145-186 | in step mode the first step marks both extremes as active, the second probes the upper candidates, and the last holds the returned hull with nothing active |
| Quickhull.QuickhullCollinear | convex_hull/algorithms/quickhull.py:122-172 | when all points are on the line between the extremes, the hull is exactly those two points |
| QuickhullForTesting.DistanceFromLine | convex_hull/algorithms/quickhull_for_Testing.py:12-18 | the signed distance is the cross product: positive exactly left of start→end, negative exactly right of it |
| QuickhullForTesting.AbsDistance | convex_hull/algorithms/quickhull_for_Testing.py:27 | its absolute value is `lineDist` of quickhull.py |
| QuickhullForTesting.FarthestInIsFarthest | convex_hull/algorithms/quickhull_for_Testing.py:21-32 | the scanned index has maximal absolute distance, strictly larger than every earlier point's and non-zero, or is -1 when all distances are zero |
| QuickhullForTesting.FarthestSpec | convex_hull/algorithms/quickhull_for_Testing.py:21-32 | `find_farthest_point` gives `None` exactly when the list is empty or every distance is zero; otherwise the first member of maximal absolute distance |
| QuickhullForTesting.FindFarthestPoint | convex_hull/algorithms/quickhull_for_Testing.py:21-32 | the loop returns that point |
| QuickhullForTesting.SplitAround | convex_hull/algorithms/quickhull_for_Testing.py:68-82 | the split returns exactly the points other than `farthest` strictly left of (start, farthest) and of (farthest, end) |
| QuickhullForTesting.QuickhullRecursive | convex_hull/algorithms/quickhull_for_Testing.py:35-86 | the recursive method changes the hull and the snapshot list as the specification function `Recursive` says, and appends nothing when not recording |
| QuickhullForTesting.Recursive | convex_hull/algorithms/quickhull_for_Testing.py:35-86 | what one `quickhull_recursive` call does to the hull and which snapshots it appends; its properties are `RecursiveGrows` and `GrownInsert` |
| QuickhullForTesting.RecursiveGrows | convex_hull/algorithms/quickhull_for_Testing.py:35-86 | a call keeps every hull entry, adds only its own points with one snapshot per point, and its last snapshot is the new hull; with no farthest point nothing changes |
| QuickhullForTesting.GrownInsert | convex_hull/algorithms/quickhull_for_Testing.py:56-66 | inserting `farthest` and recording the new hull, followed by a growing call, is itself growing |
| QuickhullForTesting.CombineGrows | convex_hull/algorithms/quickhull_for_Testing.py:112-137 | after both top-level calls the hull holds both extremes and only candidates besides them, with one snapshot per point and the last snapshot equal to the hull |
| QuickhullForTesting.BuildHull | convex_hull/algorithms/quickhull_for_Testing.py:107-137 | the method up to the two top-level calls returns the built hull and, in step mode, its snapshots |
| QuickhullForTesting.QuickhullAlgorithm | convex_hull/algorithms/quickhull_for_Testing.py:89-155 | the method returns the hull or the snapshots of `TestingHull` and `TestingSnapshots` |
| QuickhullForTesting.TestingFromInput | convex_hull/algorithms/quickhull_for_Testing.py:89-149 | only input points are returned; two or fewer points come back as they are (`[points]` in step mode); otherwise a permutation of the built hull holding leftmost and rightmost |
| QuickhullForTesting.TestingSnapshotsShape | convex_hull/algorithms/quickhull_for_Testing.py:112-155 | the first snapshot is [leftmost, rightmost], there is one snapshot per hull point added, the one before last is the built hull and the last is the returned hull |
| QuickhullForTesting.TestingCollinear | convex_hull/algorithms/quickhull_for_Testing.py:119-149 | for all-collinear input the hull is exactly [leftmost, rightmost] |
| Quick.ProbeSnapshots | convex_hull/algorithms/quick.py:64-69 | one snapshot per candidate, each the current hull plus that candidate |
| Quick.ScanCandidates | convex_hull/algorithms/quick.py:64-73 | the loop returns the first farthest candidate on `side` (or -1) and appends one snapshot per candidate |
| Quick.OffLineMembers | convex_hull/algorithms/quick.py:100-112 | the unsigned `lineDist > 0` filter keeps exactly the points off the line, on either side |
| Quick.PartitionOffLine | convex_hull/algorithms/quick.py:100-112 | the partition loop returns the points other than `farthest` off each new line |
| Quick.QuickHull | convex_hull/algorithms/quick.py:59-116 | the method ends in the error exactly when the specification function `QuickRun` does; otherwise the global hull and snapshots are those of `QuickRun` |
| Quick.QuickRun | convex_hull/algorithms/quick.py:59-116 | what one `quickHull` call of quick.py does: without a candidate, the missing end points added and the probe snapshots plus one of the new hull; with one, the error of the second recursive call (line 116); its properties are `QuickRunSpec` and `RunOnCandidates` |
| Quick.QuickRunSpec | convex_hull/algorithms/quick.py:59-116 | a call returns normally exactly when no point is strictly on `side`; it then keeps the hull as a prefix, ends with both end points in it, and appends one snapshot per candidate plus one of the new hull |
| Quick.RunOnCandidates | convex_hull/algorithms/quick.py:76-116 | on a list of points all on `side`, a call returns normally only for the empty list, and then adds the end points with one snapshot |
| Quick.CombineOk | convex_hull/algorithms/quick.py:186-188 | the two top-level calls return normally exactly when both candidate lists are empty; the hull is then [lo, hi] with three snapshots of it |
| Quick.LowerIsLeftOfReverse | convex_hull/algorithms/quick.py:174-188 | the points below lo→hi are strictly on side 1 of hi→lo, which is the side the second top-level call uses |
| Quick.OnLineIff | convex_hull/algorithms/quick.py:174-184 | both candidate lists are empty exactly when every point is on the line lo→hi |
| Quick.BuildHull | convex_hull/algorithms/quick.py:159-188 | the method up to the two top-level calls fails or succeeds as `Combine` does, with its hull and, in step mode, its snapshots |
| Quick.QuickhullAlgorithm | convex_hull/algorithms/quick.py:147-211 | the method returns the result of the specification function `QuickResult` (unchanged input for fewer than three points) |
| Quick.QuickOkIff | convex_hull/algorithms/quick.py:147-211 | for three or more points the algorithm returns normally exactly when every point is on the line between the extremes; it then returns [lo, hi], or four snapshots of it in step mode |
| Adapter.Missing | convex_hull/algorithms/adapter.py:31-38 | a set difference listed once each: exactly the points of the first list that are not in the second, without repeats |
| Adapter.DetectActivePoints | convex_hull/algorithms/adapter.py:26-48 | `detect_active_points`: the added points, then the removed ones, or the last current point when there are none; its properties are `ActiveIsSymmetricDifference`, `ActiveWhenUnchanged` and `ActiveBounds` |
| Adapter.ActiveIsSymmetricDifference | convex_hull/algorithms/adapter.py:26-48 | when the hulls differ as sets, the active points are exactly their symmetric difference, each once, added points before removed ones |
| Adapter.ActiveWhenUnchanged | convex_hull/algorithms/adapter.py:45-48 | when the hulls hold the same points, the active list is the last point of the current hull (empty if that hull is) |
| Adapter.ActiveBounds | convex_hull/algorithms/adapter.py:26-48 | every active point is in one of the two hulls, and the active list is empty exactly when both hulls are |
| Adapter.WrapAllSpec | convex_hull/algorithms/adapter.py:80-89 | the QuickHull path keeps the length, passes records through and wraps bare lists with no active points |
| Adapter.AnnotateLength | convex_hull/algorithms/adapter.py:91-105 | the snapshot path keeps the length |
| Adapter.AnnotateAt | convex_hull/algorithms/adapter.py:91-105 | step i of the snapshot path keeps hull i and marks the points changed since hull i-1 |
| Adapter.Adapted | convex_hull/algorithms/adapter.py:51-105 | what `adapt_for_visualization` returns on each path; its properties are `AdaptedSpec`, `WrapAllSpec` and `AnnotateAt` |
| Adapter.AdaptForVisualization | convex_hull/algorithms/adapter.py:51-105 | both loops return exactly the specification function `Adapted` |
| Adapter.AdaptedSpec | convex_hull/algorithms/adapter.py:51-105 | no steps give none; the length is kept; on the QuickHull path each step is wrapped on its own; otherwise step i keeps hull i, has no probe, and its active points are those changed since step i-1 (since the empty hull for i = 0) |
| Gjk.ArgMaxIn | gjk.py:14-15 | `argmax` over the first n vertices: a maximal dot product, strictly larger than every earlier one |
| Gjk.Support | gjk.py:8-15 | `support(shape, d)` is a vertex of the shape; `SupportIsExtreme` states that it is the first farthest along d |
| Gjk.SupportIsExtreme | gjk.py:8-15 | `support` returns a vertex of maximal dot product with the direction, the first on ties |
| Gjk.SupportMinkowski | gjk.py:17-25 | `support(A, d) − support(B, −d)`; `SupportMinkowskiIsExtreme` states that it is the support point of the Minkowski difference |
| Gjk.SupportMinkowskiIsExtreme | gjk.py:17-25 | the Minkowski support is a difference a−b of vertices whose dot product is maximal over all such differences |
| Gjk.TripleProduct | gjk.py:136-141 | `triple_product(a, b, c) = b(a·c) − a(b·c)`; its properties are `TripleOrthogonal` and `TripleTowards` |
| Gjk.Perpendicular | gjk.py:143-145 | `perpendicular_2d(v) = (−v.y, v.x)`; its properties are `PerpendicularOrthogonal` |
| Gjk.TripleOrthogonal | gjk.py:136-141 | `triple_product(a, b, c)` is orthogonal to c |
| Gjk.TripleTowards | gjk.py:136-141 | `triple_product(a, b, a)` points towards b: its dot product with b is the square of the cross product |
| Gjk.PerpendicularOrthogonal | gjk.py:143-145 | `perpendicular_2d(v)` is orthogonal to v and as long as v |
| Gjk.HandleSimplex | gjk.py:89-134 | `handle_simplex` by simplex size, returning the simplex it leaves behind; its properties are `HandleSimplexBounds`, `HandleSegmentSpec` and `HandleTriangleSpec` |
| Gjk.HandleSegment | gjk.py:100-113 | the two-point case of `handle_simplex`; its properties are `HandleSegmentSpec` |
| Gjk.HandleTriangle | gjk.py:115-132 | the three-point case of `handle_simplex`; its properties are `HandleTriangleSpec` |
| Gjk.HandleSegmentSpec | gjk.py:97-113 | two points, no collision: with ab·ao ≤ 0 the simplex becomes [a] with direction ao; otherwise it is kept and the direction is orthogonal to ab, facing the origin when the triple product is above the tolerance |
| Gjk.HandleTriangleSpec | gjk.py:115-132 | three points: either a collision with the simplex kept and no direction, or the simplex [a, b] with a direction orthogonal to ab, or [a, c] orthogonal to ac, the direction facing the origin in both cases |
| Gjk.HandleSimplexBounds | gjk.py:89-134 | one point gives no collision, the simplex unchanged and the direction −a; a collision is reported only for three points and exactly when there is no direction; without a collision one or two points remain; other sizes get the fallback (no collision, direction (1, 0)) |
| Gjk.Run | gjk.py:48-87 | the iterations from a given one on, with the simplex and direction the previous ones left; its properties are `RunIterations`, `RunMarks`, `RunDecides` and `RunSimplexSmall` |
| Gjk.Gjk | gjk.py:30-87 | what `gjk_collision_detection` returns: the run from iteration 0 with an empty simplex and direction (1, 0); its properties are `GjkSpec` |
| Gjk.GjkDefault | gjk.py:30 | `gjk_collision_detection(A, B)` with `max_iterations` at its default of 20; its property is `GjkDefaultSteps` |
| Gjk.GjkCollisionDetection | gjk.py:30-87 | the loop returns the collision flag and the steps of the specification function `Gjk` |
| Gjk.RunIterations | gjk.py:48-87 | one step per iteration run, numbered from the first iteration, and at most as many as the iterations left |
| Gjk.RunMarks | gjk.py:52-87 | only the last step is decided; the result is True exactly when it is marked True; a step marked False has support·direction ≤ 0; an undecided ending means all iterations ran |
| Gjk.RunDecides | gjk.py:52-79 | every step is marked False exactly when its support point does not pass the origin (support·direction ≤ 0), so the loop stops with False as soon as that happens and goes on while it passes; a step is marked True only when `handle_simplex` reported a collision for a three-point simplex |
| Gjk.RunSimplexSmall | gjk.py:63-84 | starting from at most two points, every recorded simplex has at most three |
| Gjk.GjkSpec | gjk.py:30-87 | at most `max_iterations` steps, numbered 0, 1, …, with simplices of at most three points; only the last step is decided; True exactly when it is marked True; a step is marked False exactly when support·direction ≤ 0, and marked True only when `handle_simplex` reported a collision for three points |
| Gjk.GjkDefaultSteps | gjk.py:30-87 | with the default budget a call records at most 20 steps, and a call that ends without a decision has run all 20 iterations |

## Left out

- The sort of the QuickHull result by angle around the centroid (`atan2` in
  `quickhull.py`, `quickhull_for_Testing.py` and `quick.py`) is floating-point
  trigonometry. It is a parameter `order` of the model. The lemmas about the
  result assume only that `order` permutes its argument.
- Floating point: coordinates are exact reals. GJK's `norm(d) < 1e-10` test is
  `d·d < 1e-20`, its exact square.
- `printHull` (`quickhull.py`, `quick.py`), the `verbose` dump with `pprint`,
  and the wording of the `description` strings of Andrew's step records are
  console or display text. The records keep the parameters of each
  description, not the text.
- `supersonic_hull` in `quick.py` (NumPy vectorisation with printing) and the
  unused helpers at the top of `quick.py` are not called by the algorithms
  modelled here.
- The web API, the backend, the command-line driver and the random point
  generator are transport or I/O. `gjk.py`'s plotting and animation are
  display code.
- Python set order in `adapter.py`: the model lists each group of active
  points in order of first occurrence. The contracts are about membership.
- Adapter.AdaptForVisualization: on the non-QuickHull path every step must be a
  bare list of points, as the Andrew snapshot twin produces. A dictionary there
  would be compared by its keys in the source.
- Gjk.SupportIsExtreme, Gjk.Support, Gjk.SupportMinkowski, Gjk.Run, Gjk.Gjk,
  Gjk.GjkCollisionDetection and the lemmas about them: all require both shapes
  to be non-empty, because `support` on a shape with no vertices raises in
  NumPy. One corner is lost:
  with `max_iterations <= 0` the source never calls `support` and returns
  `(False, [])` even for empty shapes. The model does not cover that case.
- Gjk.HandleSegmentSpec: when the triple product is under the tolerance, the
  source falls back to `perpendicular_2d(ab)`. Its side relative to the origin
  depends on the orientation of ab, so the contract does not claim it faces the
  origin.
- Quick.QuickHull: the error result carries no state. The `steps` list is
  local to `quickhull_algorithm` and is lost with the exception. The
  module-level `hull` keeps its partly built value, which the model does not
  expose; nothing in the repository reads it after the error, and the next
  call resets it (`quick.py:150`).
- Update in place: the global `hull`, the `steps` lists and
  `handle_simplex`'s `simplex[:] = …` are values passed in and returned. The
  model does not capture aliasing of those lists by other callers.
