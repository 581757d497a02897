/** Shared vocabulary of the hull algorithms: the `Point` alias of
    convex_hull/algorithms/base.py and a few list helpers that mirror
    Python list operations used by every algorithm file. */
module Base {

  /** A point `(x, y)` of the plane. Python tuples of floats are modelled
      with exact real coordinates; equality is value equality, as for tuples. */
  datatype Point = Point(x: real, y: real)

  datatype Option<T> = None | Some(value: T)

  /** Every point of `s` occurs in `t` (compared by value). */
  predicate AllIn(s: seq<Point>, t: seq<Point>)
  {
    forall q :: q in s ==> q in t
  }

  /** Python's `s[:-1]`: everything but the last element; empty stays empty. */
  function DropLast<T>(s: seq<T>): (r: seq<T>)
    ensures |r| == if s == [] then 0 else |s| - 1
    ensures forall k :: 0 <= k < |r| ==> r[k] == s[k]
  {
    if s == [] then [] else s[..|s| - 1]
  }

  /** Python's `list(reversed(s))`. */
  function Reverse<T>(s: seq<T>): (r: seq<T>)
    ensures |r| == |s|
    ensures forall k :: 0 <= k < |s| ==> r[k] == s[|s| - 1 - k]
  {
    if s == [] then [] else Reverse(s[1..]) + [s[0]]
  }

  lemma ReverseSameElements<T>(s: seq<T>)
    ensures multiset(Reverse(s)) == multiset(s)
  {
    if s != [] {
      ReverseSameElements(s[1..]);
      assert s == [s[0]] + s[1..];
    }
  }

  /** Proof helper, not a property of the source: concatenation is
      associative, stated once so that loop proofs over accumulated lists
      can regroup without extensionality reasoning. */
  lemma AppendAssoc<T>(a: seq<T>, b: seq<T>, c: seq<T>)
    ensures a + (b + c) == (a + b) + c
  {
  }

  /** A list whose elements (with multiplicity) all occur in another is no longer than it. */
  lemma {:induction false} SubMultisetLength<T>(a: seq<T>, b: seq<T>)
    requires multiset(a) <= multiset(b)
    ensures |a| <= |b|
    decreases |a|
  {
    if a != [] {
      var x := a[0];
      assert x in multiset(b);
      var i :| 0 <= i < |b| && b[i] == x;
      var rest := b[..i] + b[i + 1..];
      assert b == b[..i] + [x] + b[i + 1..];
      assert multiset(rest) == multiset(b) - multiset{x};
      assert a == [x] + a[1..];
      SubMultisetLength(a[1..], rest);
    }
  }
}
