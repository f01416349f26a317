/** Paths along an arbitrary relation, and the sets no path leaves. */
module Reachability {

  ghost predicate Path<T(!new)>(rel: (T, T) -> bool, p: seq<T>)
  {
    |p| >= 1 && forall i | 0 <= i < |p| - 1 :: rel(p[i], p[i + 1])
  }

  ghost predicate Connected<T(!new)>(rel: (T, T) -> bool, a: T, b: T)
  {
    exists p :: Path(rel, p) && p[0] == a && p[|p| - 1] == b
  }

  ghost predicate Symmetric<T(!new)>(rel: (T, T) -> bool)
  {
    forall x, y | rel(x, y) :: rel(y, x)
  }

  ghost predicate Closed<T(!new)>(rel: (T, T) -> bool, s: set<T>)
  {
    forall u, v | u in s && rel(u, v) :: v in s
  }

  lemma ConnectedSelf<T(!new)>(rel: (T, T) -> bool, a: T)
    ensures Connected(rel, a, a)
  {
    assert Path(rel, [a]);
  }

  lemma ConnectedExtend<T(!new)>(rel: (T, T) -> bool, a: T, b: T, c: T)
    requires Connected(rel, a, b) && rel(b, c)
    ensures Connected(rel, a, c)
  {
    var p :| Path(rel, p) && p[0] == a && p[|p| - 1] == b;
    assert Path(rel, p + [c]);
  }

  lemma ConnectedSymmetric<T(!new)>(rel: (T, T) -> bool, a: T, b: T)
    requires Symmetric(rel) && Connected(rel, a, b)
    ensures Connected(rel, b, a)
  {
    var p :| Path(rel, p) && p[0] == a && p[|p| - 1] == b;
    var q := seq(|p|, i requires 0 <= i < |p| => p[|p| - 1 - i]);
    forall i | 0 <= i < |q| - 1 ensures rel(q[i], q[i + 1]) {
      assert rel(p[|p| - 2 - i], p[|p| - 2 - i + 1]);
    }
    assert Path(rel, q);
  }

  lemma ConnectedTransitive<T(!new)>(rel: (T, T) -> bool, a: T, b: T, c: T)
    requires Connected(rel, a, b) && Connected(rel, b, c)
    ensures Connected(rel, a, c)
  {
    var p :| Path(rel, p) && p[0] == a && p[|p| - 1] == b;
    var q :| Path(rel, q) && q[0] == b && q[|q| - 1] == c;
    var r := p + q[1..];
    forall i | 0 <= i < |r| - 1 ensures rel(r[i], r[i + 1]) {
      if i >= |p| - 1 {
        assert rel(q[i - (|p| - 1)], q[i - (|p| - 1) + 1]);
      }
    }
    assert Path(rel, r);
  }

  lemma {:induction false} ClosedPath<T(!new)>(rel: (T, T) -> bool, s: set<T>, p: seq<T>)
    requires Closed(rel, s) && Path(rel, p) && p[0] in s
    ensures p[|p| - 1] in s
    decreases |p|
  {
    if |p| > 1 {
      assert rel(p[0], p[1]);
      ClosedPath(rel, s, p[1..]);
    }
  }

  /** A closed set cannot be left along a path. */
  lemma ClosedReach<T(!new)>(rel: (T, T) -> bool, s: set<T>, a: T)
    requires Closed(rel, s) && a in s
    ensures forall b | Connected(rel, a, b) :: b in s
  {
    forall b | Connected(rel, a, b) ensures b in s {
      var p :| Path(rel, p) && p[0] == a && p[|p| - 1] == b;
      ClosedPath(rel, s, p);
    }
  }
}
