/** Counting arguments on finite sets and on sequences without repetition. */
module FiniteSets {
  import opened Sorting

  lemma {:induction false} SubsetSize<T>(a: set<T>, b: set<T>)
    requires a <= b
    ensures |a| <= |b|
  {
    if a != {} {
      var x :| x in a;
      SubsetSize(a - {x}, b - {x});
    }
  }

  lemma ProperSubsetSize<T>(a: set<T>, b: set<T>)
    requires a < b
    ensures |a| < |b|
  {
    var x :| x in b && x !in a;
    SubsetSize(a, b - {x});
  }

  lemma {:induction false} DistinctSize<T>(s: seq<T>)
    requires Distinct(s)
    ensures |set x | x in s| == |s|
  {
    if s != [] {
      DistinctSize(s[1..]);
      assert (set x | x in s) == {s[0]} + set x | x in s[1..];
    }
  }

  /** An arbitrary element. */
  method Any<T>(s: set<T>) returns (x: T)
    requires s != {}
    ensures x in s
  {
    x :| x in s;
  }

  ghost function Range(n: nat): (s: set<nat>)
    ensures |s| == n && forall g: nat :: g in s <==> g < n
  {
    if n == 0 then {} else Range(n - 1) + {n - 1}
  }

  /** `n` distinct numbers below `n` are all of them. */
  lemma Pigeonhole(s: seq<nat>)
    requires Distinct(s) && forall x | x in s :: x < |s|
    ensures forall g: nat | g < |s| :: g in s
  {
    var image := set x | x in s;
    var all := Range(|s|);
    DistinctSize(s);
    forall g: nat | g < |s| ensures g in s {
      if g !in s {
        assert image <= all - {g};
        SubsetSize(image, all - {g});
      }
    }
  }
}
