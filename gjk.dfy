/** The Gilbert-Johnson-Keerthi collision test of gjk.py for two convex
    polygons given by their vertices: it searches the Minkowski difference
    A - B for a triangle around the origin with support points, keeping a
    simplex of at most three points, and records one step per iteration.
    numpy's 2-vectors are `Vec`s over the reals. */
module Gjk {
  import opened Base

  /** A numpy vector of two coordinates. */
  datatype Vec = Vec(x: real, y: real)

  function Dot(u: Vec, v: Vec): real
  {
    u.x * v.x + u.y * v.y
  }

  function Sub(u: Vec, v: Vec): Vec
  {
    Vec(u.x - v.x, u.y - v.y)
  }

  function Neg(v: Vec): Vec
  {
    Vec(-v.x, -v.y)
  }

  function Scale(v: Vec, k: real): Vec
  {
    Vec(v.x * k, v.y * k)
  }

  /** The default of `max_iterations`. */
  const DefaultMaxIterations: int := 20

  /** The square of the tolerance `1e-10` under which a direction counts
      as zero; `norm(d) < 1e-10` is `Dot(d, d) < 1e-20` over the reals. */
  const ZeroNormSquared: real := 0.00000000000000000001

  // ---------------------------------------------------------------------
  // Support points
  // ---------------------------------------------------------------------

  /** `np.argmax(np.dot(shape[:n], direction))`: the first index with the
      largest dot product among the first n vertices. */
  function ArgMaxIn(shape: seq<Vec>, d: Vec, n: nat): (k: nat)
    requires 1 <= n <= |shape|
    ensures k < n
    ensures forall j :: 0 <= j < n ==> Dot(shape[j], d) <= Dot(shape[k], d)
    ensures forall j :: 0 <= j < k ==> Dot(shape[j], d) < Dot(shape[k], d)
    decreases n
  {
    if n == 1 then 0
    else
      var k := ArgMaxIn(shape, d, n - 1);
      if Dot(shape[n - 1], d) > Dot(shape[k], d) then n - 1 else k
  }

  /** `support(shape, direction)`: the vertex farthest along `direction`,
      the first one on ties. */
  function Support(shape: seq<Vec>, d: Vec): (p: Vec)
    requires |shape| > 0
    ensures p in shape
  {
    shape[ArgMaxIn(shape, d, |shape|)]
  }

  /** The support point is a vertex, no vertex lies farther along the
      direction, and every vertex before it lies strictly less far. */
  lemma SupportIsExtreme(shape: seq<Vec>, d: Vec)
    requires |shape| > 0
    ensures exists k :: 0 <= k < |shape| && Support(shape, d) == shape[k] &&
              forall j :: 0 <= j < k ==> Dot(shape[j], d) < Dot(shape[k], d)
    ensures forall j :: 0 <= j < |shape| ==> Dot(shape[j], d) <= Dot(Support(shape, d), d)
  {
    var k := ArgMaxIn(shape, d, |shape|);
    assert Support(shape, d) == shape[k];
  }

  /** `support_minkowski(A, B, direction)`. */
  function SupportMinkowski(a: seq<Vec>, b: seq<Vec>, d: Vec): (p: Vec)
    requires |a| > 0 && |b| > 0
  {
    Sub(Support(a, d), Support(b, Neg(d)))
  }

  lemma DotSub(u: Vec, v: Vec, d: Vec)
    ensures Dot(Sub(u, v), d) == Dot(u, d) - Dot(v, d)
    ensures Dot(v, Neg(d)) == -Dot(v, d)
  {
  }

  /** The support point of A - B is a difference of two vertices and lies
      at least as far along the direction as every such difference: it is
      the support point of the Minkowski difference without building it. */
  lemma SupportMinkowskiIsExtreme(a: seq<Vec>, b: seq<Vec>, d: Vec)
    requires |a| > 0 && |b| > 0
    ensures exists i, j :: 0 <= i < |a| && 0 <= j < |b| && SupportMinkowski(a, b, d) == Sub(a[i], b[j])
    ensures forall i, j :: 0 <= i < |a| && 0 <= j < |b| ==>
              Dot(Sub(a[i], b[j]), d) <= Dot(SupportMinkowski(a, b, d), d)
  {
    var sa, sb := Support(a, d), Support(b, Neg(d));
    SupportIsExtreme(a, d);
    SupportIsExtreme(b, Neg(d));
    DotSub(sa, sb, d);
    forall i, j | 0 <= i < |a| && 0 <= j < |b|
      ensures Dot(Sub(a[i], b[j]), d) <= Dot(SupportMinkowski(a, b, d), d)
    {
      DotSub(a[i], b[j], d);
      assert Dot(b[j], Neg(d)) <= Dot(sb, Neg(d));
    }
  }

  // ---------------------------------------------------------------------
  // Vector helpers
  // ---------------------------------------------------------------------

  /** `triple_product(a, b, c)`: b (a . c) - a (b . c). */
  function TripleProduct(a: Vec, b: Vec, c: Vec): (t: Vec)
  {
    Sub(Scale(b, Dot(a, c)), Scale(a, Dot(b, c)))
  }

  /** `perpendicular_2d(v)`: v turned a quarter anticlockwise. */
  function Perpendicular(v: Vec): (p: Vec)
  {
    Vec(-v.y, v.x)
  }

  /** The triple product is orthogonal to its last argument. */
  lemma TripleOrthogonal(a: Vec, b: Vec, c: Vec)
    ensures Dot(TripleProduct(a, b, c), c) == 0.0
  {
    TripleDot(a, b, c, c);
    OrthogonalReal(b.x, b.y, a.x, a.y, c.x, c.y, Dot(a, c), Dot(b, c));
  }

  /** Proof helper (plain algebra): b (a . c) - a (b . c), dotted with c,
      is (a . c)(b . c) - (b . c)(a . c). */
  lemma OrthogonalReal(b1: real, b2: real, a1: real, a2: real, c1: real, c2: real, k1: real, k2: real)
    requires k1 == a1 * c1 + a2 * c2 && k2 == b1 * c1 + b2 * c2
    ensures (b1 * k1 - a1 * k2) * c1 + (b2 * k1 - a2 * k2) * c2 == 0.0
  {
    calc {
      (b1 * k1 - a1 * k2) * c1 + (b2 * k1 - a2 * k2) * c2;
      k1 * (b1 * c1 + b2 * c2) - k2 * (a1 * c1 + a2 * c2);
      k1 * k2 - k2 * k1;
    }
  }

  /** (a x b) x a never points away from b: its dot product with b is the
      square of the cross product of a and b. */
  lemma TripleTowards(a: Vec, b: Vec)
    ensures Dot(TripleProduct(a, b, a), b) == (a.x * b.y - a.y * b.x) * (a.x * b.y - a.y * b.x)
    ensures Dot(TripleProduct(a, b, a), b) >= 0.0
  {
    TripleDot(a, b, a, b);
    TripleTowardsReal(a.x, a.y, b.x, b.y, Dot(a, a), Dot(b, a));
    SquareNonNegative(a.x * b.y - a.y * b.x);
  }

  /** Proof helper: the dot product of a triple product, coordinate by
      coordinate, with its two scalar factors kept whole. */
  lemma TripleDot(a: Vec, b: Vec, c: Vec, d: Vec)
    ensures Dot(TripleProduct(a, b, c), d)
            == (b.x * Dot(a, c) - a.x * Dot(b, c)) * d.x + (b.y * Dot(a, c) - a.y * Dot(b, c)) * d.y
  {
  }

  /** Proof helper (plain algebra): the coordinates of the dot product of
      (a x b) x a with b add up to the square of the cross product. */
  lemma TripleTowardsReal(p: real, q: real, u: real, v: real, k1: real, k2: real)
    requires k1 == p * p + q * q && k2 == u * p + v * q
    ensures (u * k1 - p * k2) * u + (v * k1 - q * k2) * v == (p * v - q * u) * (p * v - q * u)
  {
    Regrouped(u, v, p, q, k1, k2);
    assert k2 == p * u + q * v;
    Lagrange(p, q, u, v);
  }

  /** Proof helper (plain algebra): the dot product of the triple product
      with b, regrouped by its two scalar factors. */
  lemma Regrouped(u: real, v: real, p: real, q: real, k1: real, k2: real)
    ensures (u * k1 - p * k2) * u + (v * k1 - q * k2) * v
            == k1 * (u * u + v * v) - k2 * (p * u + q * v)
  {
  }

  /** Lagrange's identity in the plane. */
  lemma Lagrange(p: real, q: real, r: real, t: real)
    ensures (p * p + q * q) * (r * r + t * t) - (p * r + q * t) * (p * r + q * t)
            == (p * t - q * r) * (p * t - q * r)
  {
    calc {
      (p * p + q * q) * (r * r + t * t) - (p * r + q * t) * (p * r + q * t);
      p * p * r * r + p * p * t * t + q * q * r * r + q * q * t * t
        - (p * p * r * r + 2.0 * p * r * q * t + q * q * t * t);
      p * p * t * t + q * q * r * r - 2.0 * p * t * q * r;
      (p * t - q * r) * (p * t - q * r);
    }
  }

  lemma SquareNonNegative(z: real)
    ensures z * z >= 0.0
  {
    if z < 0.0 {
      assert z * z == (-z) * (-z);
    }
  }

  /** The quarter turn is orthogonal to its argument and as long. */
  lemma PerpendicularOrthogonal(v: Vec)
    ensures Dot(Perpendicular(v), v) == 0.0
    ensures Dot(Perpendicular(v), Perpendicular(v)) == Dot(v, v)
  {
  }

  // ---------------------------------------------------------------------
  // handle_simplex
  // ---------------------------------------------------------------------

  /** What `handle_simplex` returns, with the simplex as it leaves it. */
  datatype Handled = Handled(collision: bool, simplex: seq<Vec>, direction: Option<Vec>)

  /** The segment case: a is the newest point, b the older one. */
  function HandleSegment(a: Vec, b: Vec): (r: Handled)
  {
    var ab, ao := Sub(b, a), Neg(a);
    if Dot(ab, ao) > 0.0 then
      var t := TripleProduct(ab, ao, ab);
      Handled(false, [b, a], Some(if Dot(t, t) < ZeroNormSquared then Perpendicular(ab) else t))
    else
      Handled(false, [a], Some(ao))
  }

  /** The triangle case: a is the newest point, then b, then c. */
  function HandleTriangle(a: Vec, b: Vec, c: Vec): (r: Handled)
  {
    var ab, ac, ao := Sub(b, a), Sub(c, a), Neg(a);
    var abcPerp := TripleProduct(ac, ab, ab);
    var acbPerp := TripleProduct(ab, ac, ac);
    if Dot(abcPerp, ao) > 0.0 then Handled(false, [a, b], Some(abcPerp))
    else if Dot(acbPerp, ao) > 0.0 then Handled(false, [a, c], Some(acbPerp))
    else Handled(true, [c, b, a], None)
  }

  /** `handle_simplex(simplex)`: the simplex it leaves behind (it rewrites
      the list in place), whether the origin is enclosed and the next
      search direction. */
  function HandleSimplex(s: seq<Vec>): (r: Handled)
  {
    if |s| == 1 then Handled(false, s, Some(Neg(s[0])))
    else if |s| == 2 then HandleSegment(s[1], s[0])
    else if |s| == 3 then HandleTriangle(s[2], s[1], s[0])
    else Handled(false, s, Some(Vec(1.0, 0.0)))
  }

  /** The segment case: the newest point alone with the direction to the
      origin when the origin is not beyond it; otherwise the segment kept
      and a direction orthogonal to it, on the origin's side unless the
      triple product is shorter than the tolerance and the quarter turn
      of the segment is taken instead. */
  lemma HandleSegmentSpec(s: seq<Vec>)
    requires |s| == 2
    ensures var r := HandleSimplex(s);
            var a, b := s[1], s[0];
            var ab, ao := Sub(b, a), Neg(a);
            !r.collision && r.direction.Some? &&
            (Dot(ab, ao) <= 0.0 ==> r.simplex == [a] && r.direction.value == ao) &&
            (Dot(ab, ao) > 0.0 ==> r.simplex == s && Dot(r.direction.value, ab) == 0.0 &&
                                   (Dot(TripleProduct(ab, ao, ab), TripleProduct(ab, ao, ab)) >= ZeroNormSquared ==>
                                      Dot(r.direction.value, ao) >= 0.0))
  {
    var a, b := s[1], s[0];
    var ab, ao := Sub(b, a), Neg(a);
    assert s == [b, a];
    if Dot(ab, ao) > 0.0 {
      var t := TripleProduct(ab, ao, ab);
      TripleOrthogonal(ab, ao, ab);
      TripleTowards(ab, ao);
      PerpendicularOrthogonal(ab);
    }
  }

  /** The triangle case: the edge ab with a direction orthogonal to it that
      points to the origin, else the edge ac likewise, else a collision
      with the simplex unchanged and no direction. */
  lemma HandleTriangleSpec(s: seq<Vec>)
    requires |s| == 3
    ensures var r := HandleSimplex(s);
            var a, b, c := s[2], s[1], s[0];
            var ab, ac, ao := Sub(b, a), Sub(c, a), Neg(a);
            (r.collision <==> r.direction.None?) &&
            (r.collision ==> r.simplex == s) &&
            (!r.collision && r.simplex == [a, b] ==>
               Dot(r.direction.value, ab) == 0.0 && Dot(r.direction.value, ao) > 0.0) &&
            (!r.collision && r.simplex != [a, b] ==>
               r.simplex == [a, c] && Dot(r.direction.value, ac) == 0.0 && Dot(r.direction.value, ao) > 0.0)
  {
    var a, b, c := s[2], s[1], s[0];
    var ab, ac := Sub(b, a), Sub(c, a);
    assert s == [c, b, a];
    TripleOrthogonal(ac, ab, ab);
    TripleOrthogonal(ab, ac, ac);
  }

  /** One point gives no collision and the direction back to the origin;
      a collision is reported only for a triangle, and a simplex of one to
      three points leaves at most two behind when there is none. */
  lemma HandleSimplexBounds(s: seq<Vec>)
    ensures |s| == 1 ==> HandleSimplex(s) == Handled(false, s, Some(Neg(s[0])))
    ensures HandleSimplex(s).collision ==> |s| == 3
    ensures HandleSimplex(s).collision <==> HandleSimplex(s).direction.None?
    ensures 1 <= |s| <= 3 && !HandleSimplex(s).collision ==> 1 <= |HandleSimplex(s).simplex| <= 2
    ensures !(1 <= |s| <= 3) ==> HandleSimplex(s) == Handled(false, s, Some(Vec(1.0, 0.0)))
  {
  }

  // ---------------------------------------------------------------------
  // gjk_collision_detection
  // ---------------------------------------------------------------------

  /** The `reason` of a step. */
  datatype Reason =
    | NotPastOrigin          // the support point does not pass the origin
    | Added(size: nat)       // the support point joined a simplex of `size` points
    | ContainsOrigin         // the simplex encloses the origin

  /** One entry of `steps`; `collision` is None while undecided. */
  datatype Step = Step(iteration: nat, direction: Vec, supportPoint: Vec, simplex: seq<Vec>,
                       collision: Option<bool>, reason: Reason)

  /** What `gjk_collision_detection` returns. */
  datatype Detection = Detection(collision: bool, steps: seq<Step>)

  /** The simplex kept for the next iteration: its last three points. */
  function LastThree(s: seq<Vec>): (r: seq<Vec>)
    ensures |r| <= 3
  {
    if |s| > 3 then s[|s| - 3..] else s
  }

  /** The iterations from `it` on, with `simplex` and `direction` as the
      previous ones left them. */
  function Run(a: seq<Vec>, b: seq<Vec>, maxIterations: int, it: nat, simplex: seq<Vec>, direction: Vec): Detection
    requires |a| > 0 && |b| > 0
    decreases maxIterations - it
  {
    if it >= maxIterations then Detection(false, [])
    else
      var sp := SupportMinkowski(a, b, direction);
      if Dot(sp, direction) <= 0.0 then
        Detection(false, [Step(it, direction, sp, simplex, Some(false), NotPastOrigin)])
      else
        var s1 := simplex + [sp];
        var h := HandleSimplex(s1);
        if h.collision then
          Detection(true, [Step(it, direction, sp, s1, Some(true), ContainsOrigin)])
        else
          var rest := Run(a, b, maxIterations, it + 1, LastThree(h.simplex), h.direction.value);
          Detection(rest.collision, [Step(it, direction, sp, s1, None, Added(|s1|))] + rest.steps)
  }

  /** What `gjk_collision_detection(A, B, max_iterations)` returns. */
  function Gjk(a: seq<Vec>, b: seq<Vec>, maxIterations: int): Detection
    requires |a| > 0 && |b| > 0
  {
    Run(a, b, maxIterations, 0, [], Vec(1.0, 0.0))
  }

  /** `gjk_collision_detection(A, B)`, with `max_iterations` left at its
      default. */
  function GjkDefault(a: seq<Vec>, b: seq<Vec>): Detection
    requires |a| > 0 && |b| > 0
  {
    Gjk(a, b, DefaultMaxIterations)
  }

  /** `gjk_collision_detection`: the loop over the iterations, with the
      last step rewritten when the simplex encloses the origin. */
  method GjkCollisionDetection(a: seq<Vec>, b: seq<Vec>, maxIterations: int)
    returns (collision: bool, steps: seq<Step>)
    requires |a| > 0 && |b| > 0
    ensures Detection(collision, steps) == Gjk(a, b, maxIterations)
  {
    var simplex: seq<Vec> := [];
    var direction := Vec(1.0, 0.0);
    steps := [];
    var iteration: nat := 0;
    while iteration < maxIterations
      invariant Gjk(a, b, maxIterations) == After(steps, Run(a, b, maxIterations, iteration, simplex, direction))
      decreases maxIterations - iteration
    {
      ghost var before := steps;
      ghost var it := iteration;
      ghost var rest := Run(a, b, maxIterations, iteration, simplex, direction);
      var supportPoint := SupportMinkowski(a, b, direction);
      if Dot(supportPoint, direction) <= 0.0 {
        steps := steps + [Step(iteration, direction, supportPoint, simplex, Some(false), NotPastOrigin)];
        assert rest == Detection(false, [steps[|steps| - 1]]);
        return false, steps;
      }
      simplex := simplex + [supportPoint];
      ghost var first := Step(iteration, direction, supportPoint, simplex, None, Added(|simplex|));
      steps := steps + [Step(iteration, direction, supportPoint, simplex, None, Added(|simplex|))];
      var h := HandleSimplex(simplex);
      HandleSimplexBounds(simplex);
      if h.collision {
        var last := steps[|steps| - 1];
        assert steps[..|steps| - 1] == before;
        steps := steps[..|steps| - 1] + [last.(collision := Some(true), reason := ContainsOrigin)];
        assert rest == Detection(true, [steps[|steps| - 1]]);
        return true, steps;
      }
      simplex := h.simplex;
      direction := h.direction.value;
      if |simplex| > 3 {
        simplex := simplex[|simplex| - 3..];
      }
      iteration := iteration + 1;
      AfterStep(before, first, Run(a, b, maxIterations, iteration, simplex, direction));
    }
    assert steps + [] == steps;
    collision := false;
  }

  /** The result of a run whose first steps are already recorded. */
  function After(done: seq<Step>, rest: Detection): Detection
  {
    Detection(rest.collision, done + rest.steps)
  }

  lemma AfterStep(done: seq<Step>, first: Step, rest: Detection)
    ensures After(done + [first], rest) == After(done, Detection(rest.collision, [first] + rest.steps))
  {
    assert (done + [first]) + rest.steps == done + ([first] + rest.steps);
  }

  // ---------------------------------------------------------------------
  // What gjk_collision_detection promises
  // ---------------------------------------------------------------------

  /** One step per iteration executed, numbered from `it`, so never more
      steps than iterations allowed. */
  lemma {:induction false} RunIterations(a: seq<Vec>, b: seq<Vec>, m: int, it: nat, simplex: seq<Vec>, direction: Vec)
    requires |a| > 0 && |b| > 0
    ensures var st := Run(a, b, m, it, simplex, direction).steps;
            (it >= m ==> st == []) &&
            (it < m ==> 1 <= |st| <= m - it) &&
            forall k :: 0 <= k < |st| ==> st[k].iteration == it + k
    decreases m - it
  {
    if it < m {
      var sp := SupportMinkowski(a, b, direction);
      var s1 := simplex + [sp];
      var h := HandleSimplex(s1);
      if Dot(sp, direction) > 0.0 && !h.collision {
        RunIterations(a, b, m, it + 1, LastThree(h.simplex), h.direction.value);
      }
    }
  }

  /** Every step but the last is undecided; the result is True exactly when
      the last step is marked as a collision, and False either because the
      last support point did not pass the origin (marked False) or because
      all `remaining` iterations ran with every step undecided. */
  predicate Marked(d: Detection, remaining: nat)
  {
    var st := d.steps;
    (forall k :: 0 <= k < |st| - 1 ==> st[k].collision == None) &&
    (d.collision <==> st != [] && st[|st| - 1].collision == Some(true)) &&
    (st != [] && st[|st| - 1].collision == Some(false) ==>
       Dot(st[|st| - 1].supportPoint, st[|st| - 1].direction) <= 0.0) &&
    (!d.collision && (st == [] || st[|st| - 1].collision == None) ==> |st| == remaining)
  }

  /** An undecided step in front of a marked run keeps it marked. */
  lemma MarkedCons(first: Step, rest: Detection, remaining: nat)
    requires first.collision == None
    requires Marked(rest, remaining)
    ensures Marked(Detection(rest.collision, [first] + rest.steps), remaining + 1)
  {
    var st := [first] + rest.steps;
    assert forall k :: 1 <= k < |st| ==> st[k] == rest.steps[k - 1];
    if rest.steps != [] {
      assert st[|st| - 1] == rest.steps[|rest.steps| - 1];
    }
  }

  lemma {:induction false} RunMarks(a: seq<Vec>, b: seq<Vec>, m: int, it: nat, simplex: seq<Vec>, direction: Vec)
    requires |a| > 0 && |b| > 0
    ensures Marked(Run(a, b, m, it, simplex, direction), if it < m then m - it else 0)
    decreases m - it
  {
    if it < m {
      var sp := SupportMinkowski(a, b, direction);
      var s1 := simplex + [sp];
      var h := HandleSimplex(s1);
      if Dot(sp, direction) > 0.0 && !h.collision {
        var s2, d2 := LastThree(h.simplex), h.direction.value;
        RunMarks(a, b, m, it + 1, s2, d2);
        MarkedCons(Step(it, direction, sp, s1, None, Added(|s1|)), Run(a, b, m, it + 1, s2, d2), m - it - 1);
      }
    }
  }

  /** Every recorded simplex has at most three points. */
  predicate SmallSimplices(st: seq<Step>)
  {
    forall k :: 0 <= k < |st| ==> |st[k].simplex| <= 3
  }

  /** Starting from at most two points, every recorded simplex has at most
      three: `handle_simplex` always leaves at most two behind. */
  lemma {:induction false} RunSimplexSmall(a: seq<Vec>, b: seq<Vec>, m: int, it: nat, simplex: seq<Vec>, direction: Vec)
    requires |a| > 0 && |b| > 0
    requires |simplex| <= 2
    ensures SmallSimplices(Run(a, b, m, it, simplex, direction).steps)
    decreases m - it
  {
    if it < m {
      var sp := SupportMinkowski(a, b, direction);
      var s1 := simplex + [sp];
      var h := HandleSimplex(s1);
      HandleSimplexBounds(s1);
      if Dot(sp, direction) > 0.0 && !h.collision {
        assert LastThree(h.simplex) == h.simplex;
        RunSimplexSmall(a, b, m, it + 1, h.simplex, h.direction.value);
        var rest := Run(a, b, m, it + 1, h.simplex, h.direction.value).steps;
        var first := Step(it, direction, sp, s1, None, Added(|s1|));
        assert |first.simplex| <= 3;
        var st := Run(a, b, m, it, simplex, direction).steps;
        assert st == [first] + rest;
        forall k | 0 <= k < |st|
          ensures |st[k].simplex| <= 3
        {
          if k > 0 {
            assert st[k] == rest[k - 1];
          } else {
            assert st[0] == first;
          }
        }
      }
    }
  }

  /** What a step's mark means: it is marked False exactly when its
      support point does not pass the origin, and marked True only when
      `handle_simplex` found the origin inside a triangle. */
  predicate StepDecided(st: Step)
  {
    (Dot(st.supportPoint, st.direction) <= 0.0 <==> st.collision == Some(false)) &&
    (st.collision == Some(true) ==> |st.simplex| == 3 && HandleSimplex(st.simplex).collision)
  }

  /** Every step's mark means what `StepDecided` says. */
  predicate AllDecided(st: seq<Step>)
  {
    forall k :: 0 <= k < |st| ==> StepDecided(st[k])
  }

  /** Every step of a run is marked as `StepDecided` says: the loop stops
      with False as soon as a support point fails to pass the origin, goes
      on while it passes, and stops with True only on a collision reported
      by `handle_simplex` for three points. */
  lemma {:induction false} RunDecides(a: seq<Vec>, b: seq<Vec>, m: int, it: nat, simplex: seq<Vec>, direction: Vec)
    requires |a| > 0 && |b| > 0
    ensures AllDecided(Run(a, b, m, it, simplex, direction).steps)
    decreases m - it
  {
    if it < m {
      var sp := SupportMinkowski(a, b, direction);
      var s1 := simplex + [sp];
      var h := HandleSimplex(s1);
      HandleSimplexBounds(s1);
      if Dot(sp, direction) > 0.0 && !h.collision {
        var s2, d2 := LastThree(h.simplex), h.direction.value;
        RunDecides(a, b, m, it + 1, s2, d2);
        var rest := Run(a, b, m, it + 1, s2, d2).steps;
        var first := Step(it, direction, sp, s1, None, Added(|s1|));
        var st := Run(a, b, m, it, simplex, direction).steps;
        assert st == [first] + rest;
        forall k | 0 <= k < |st|
          ensures StepDecided(st[k])
        {
          if k > 0 {
            assert st[k] == rest[k - 1];
          }
        }
      }
    }
  }

  /** The whole run: at most `max_iterations` steps, numbered 0, 1, ...,
      each simplex of at most three points, True only with the last step
      marked True, a step marked False exactly when its support point did
      not pass the origin (so the run stops there; the clause on the last
      step alone is that case spelled out for the step that ends the run),
      and a step marked True only when `handle_simplex` reported a collision
      for three points. */
  lemma GjkSpec(a: seq<Vec>, b: seq<Vec>, maxIterations: int)
    requires |a| > 0 && |b| > 0
    ensures var d := Gjk(a, b, maxIterations);
            |d.steps| <= (if maxIterations > 0 then maxIterations else 0) &&
            (forall k :: 0 <= k < |d.steps| ==> d.steps[k].iteration == k && |d.steps[k].simplex| <= 3) &&
            (forall k :: 0 <= k < |d.steps| - 1 ==> d.steps[k].collision == None) &&
            (d.collision <==> d.steps != [] && d.steps[|d.steps| - 1].collision == Some(true)) &&
            (d.steps != [] && d.steps[|d.steps| - 1].collision == Some(false) ==>
               Dot(d.steps[|d.steps| - 1].supportPoint, d.steps[|d.steps| - 1].direction) <= 0.0) &&
            (forall k :: 0 <= k < |d.steps| ==>
               (Dot(d.steps[k].supportPoint, d.steps[k].direction) <= 0.0 <==> d.steps[k].collision == Some(false))) &&
            (forall k :: 0 <= k < |d.steps| && d.steps[k].collision == Some(true) ==>
               |d.steps[k].simplex| == 3 && HandleSimplex(d.steps[k].simplex).collision)
  {
    var s0, d0 := [], Vec(1.0, 0.0);
    RunIterations(a, b, maxIterations, 0, s0, d0);
    RunMarks(a, b, maxIterations, 0, s0, d0);
    RunSimplexSmall(a, b, maxIterations, 0, s0, d0);
    RunDecides(a, b, maxIterations, 0, s0, d0);
    var st := Gjk(a, b, maxIterations).steps;
    assert forall k :: 0 <= k < |st| ==> StepDecided(st[k]);
  }

  /** With the default budget the run records at most 20 steps, and a
      run that ends undecided has used all 20. */
  lemma GjkDefaultSteps(a: seq<Vec>, b: seq<Vec>)
    requires |a| > 0 && |b| > 0
    ensures var d := GjkDefault(a, b);
            |d.steps| <= 20 &&
            (d.steps == [] || d.steps[|d.steps| - 1].collision == None ==> |d.steps| == 20)
  {
    RunIterations(a, b, DefaultMaxIterations, 0, [], Vec(1.0, 0.0));
    RunMarks(a, b, DefaultMaxIterations, 0, [], Vec(1.0, 0.0));
  }
}
