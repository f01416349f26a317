/**
 Order facts shared by the modules that sort: the library sorts are modelled by insertion sort,
 and the lemmas say everything a client may rely on (sorted, a permutation, and unique when the
 order is antisymmetric).
 */
module Sorting {

  ghost predicate TotalPreorder<T(!new)>(leq: (T, T) -> bool)
  {
    && (forall x, y :: leq(x, y) || leq(y, x))
    && (forall x, y, z :: leq(x, y) && leq(y, z) ==> leq(x, z))
  }

  ghost predicate Antisymmetric<T(!new)>(leq: (T, T) -> bool)
  {
    forall x, y :: leq(x, y) && leq(y, x) ==> x == y
  }

  ghost predicate Sorted<T>(s: seq<T>, leq: (T, T) -> bool)
  {
    forall i, j | 0 <= i < j < |s| :: leq(s[i], s[j])
  }

  ghost predicate Distinct<T>(s: seq<T>)
  {
    forall i, j | 0 <= i < j < |s| :: s[i] != s[j]
  }

  function Insert<T>(x: T, s: seq<T>, leq: (T, T) -> bool): (r: seq<T>)
    ensures multiset(r) == multiset{x} + multiset(s)
  {
    if s == [] then [x]
    else if leq(x, s[0]) then
      [x] + s
    else
      var r := [s[0]] + Insert(x, s[1..], leq);
      assert s == [s[0]] + s[1..];
      r
  }

  function Sort<T>(s: seq<T>, leq: (T, T) -> bool): (r: seq<T>)
    ensures multiset(r) == multiset(s)
    ensures |r| == |s|
  {
    if s == [] then []
    else
      assert s == [s[0]] + s[1..];
      var r := Insert(s[0], Sort(s[1..], leq), leq);
      assert |multiset(r)| == |multiset(s)|;
      r
  }

  lemma {:induction false} InsertSorted<T(!new)>(x: T, s: seq<T>, leq: (T, T) -> bool)
    requires TotalPreorder(leq) && Sorted(s, leq)
    ensures Sorted(Insert(x, s, leq), leq)
  {
    if s != [] && !leq(x, s[0]) {
      InsertSorted(x, s[1..], leq);
      var t := Insert(x, s[1..], leq);
      forall k | 0 <= k < |t| ensures leq(s[0], t[k]) {
        assert t[k] in multiset(t);
        assert t[k] == x || t[k] in s[1..];
      }
    }
  }

  /** The result is sorted; with `Sort`'s own contract it is a sorted permutation. */
  lemma {:induction false} SortSorted<T(!new)>(s: seq<T>, leq: (T, T) -> bool)
    requires TotalPreorder(leq)
    ensures Sorted(Sort(s, leq), leq)
  {
    if s != [] {
      SortSorted(s[1..], leq);
      InsertSorted(s[0], Sort(s[1..], leq), leq);
    }
  }

  /** Under an antisymmetric order a sorted sequence is determined by its multiset. */
  lemma {:induction false} SortedUnique<T(!new)>(a: seq<T>, b: seq<T>, leq: (T, T) -> bool)
    requires TotalPreorder(leq) && Antisymmetric(leq)
    requires Sorted(a, leq) && Sorted(b, leq) && multiset(a) == multiset(b)
    ensures a == b
  {
    assert |a| == |multiset(a)| == |multiset(b)| == |b|;
    if a != [] {
      SameHead(a, b, leq);
      assert a == [] + [a[0]] + a[1..] && b == [] + [b[0]] + b[1..];
      assert [] + a[1..] == a[1..] && [] + b[1..] == b[1..];
      WithoutOne([], a[0], a[1..]);
      WithoutOne([], b[0], b[1..]);
      SameWithout(multiset(a[1..]), multiset(b[1..]), a[0]);
      SortedUnique(a[1..], b[1..], leq);
    }
  }

  lemma SameHead<T(!new)>(a: seq<T>, b: seq<T>, leq: (T, T) -> bool)
    requires TotalPreorder(leq) && Antisymmetric(leq)
    requires Sorted(a, leq) && Sorted(b, leq) && multiset(a) == multiset(b) && a != [] && b != []
    ensures a[0] == b[0]
  {
    HeadBelow(a, b, leq);
    HeadBelow(b, a, leq);
  }

  lemma HeadBelow<T(!new)>(a: seq<T>, b: seq<T>, leq: (T, T) -> bool)
    requires TotalPreorder(leq)
    requires Sorted(a, leq) && multiset(a) == multiset(b) && a != [] && b != []
    ensures leq(a[0], b[0])
  {
    assert b[0] in multiset(b);
    assert b[0] in a;
    var j :| 0 <= j < |a| && a[j] == b[0];
    assert j == 0 || leq(a[0], a[j]);
  }

  lemma SortedCons<T>(x: T, tail: seq<T>, leq: (T, T) -> bool)
    requires Sorted(tail, leq) && forall i | 0 <= i < |tail| :: leq(x, tail[i])
    ensures Sorted([x] + tail, leq)
  {
  }

  lemma TailSorted<T>(s: seq<T>, leq: (T, T) -> bool)
    requires Sorted(s, leq) && s != []
    ensures Sorted(s[1..], leq)
  {
  }

  /** The first element of a permutation, found and removed. */
  lemma TakeOut<T>(s: seq<T>, t: seq<T>) returns (a: seq<T>, b: seq<T>)
    requires multiset(s) == multiset(t) && t != []
    ensures s == a + [t[0]] + b && a <= s && multiset(a + b) == multiset(t[1..])
  {
    var m := t[0];
    assert m in multiset(t);
    assert m in s;
    var k :| 0 <= k < |s| && s[k] == m;
    a, b := s[..k], s[k + 1..];
    assert s == a + [m] + b;
    WithoutOne(a, m, b);
    WithoutOne([], m, t[1..]);
    assert [] + [m] + t[1..] == t && [] + t[1..] == t[1..];
    SameWithout(multiset(a + b), multiset(t[1..]), m);
  }

  lemma WithoutOne<T>(a: seq<T>, m: T, b: seq<T>)
    ensures multiset(a + [m] + b) == multiset(a + b) + multiset{m}
  {
  }

  lemma SameWithout<T>(a: multiset<T>, b: multiset<T>, m: T)
    requires a + multiset{m} == b + multiset{m}
    ensures a == b
  {
    forall x ensures a[x] == b[x] {
      assert (a + multiset{m})[x] == (b + multiset{m})[x];
    }
  }

  /** The elements, as a set, and distinctness, survive sorting. */
  lemma SortKeepsElements<T>(s: seq<T>, leq: (T, T) -> bool)
    ensures forall x :: x in Sort(s, leq) <==> x in s
    ensures Distinct(s) ==> Distinct(Sort(s, leq))
  {
    var r := Sort(s, leq);
    forall x ensures x in r <==> x in s {
      assert x in r <==> x in multiset(r);
      assert x in s <==> x in multiset(s);
    }
    if Distinct(s) {
      DistinctCounts(s);
      assert forall x :: multiset(r)[x] <= 1;
      CountedDistinct(r);
    }
  }

  lemma {:induction false} CountedDistinct<T>(s: seq<T>)
    requires forall x :: multiset(s)[x] <= 1
    ensures Distinct(s)
  {
    if s != [] {
      assert s == [s[0]] + s[1..];
      var rest := multiset(s[1..]);
      assert multiset(s) == multiset{s[0]} + rest;
      assert multiset(s)[s[0]] == 1 + rest[s[0]];
      assert forall x :: rest[x] <= multiset(s)[x];
      CountedDistinct(s[1..]);
      assert s[0] !in rest;
    }
  }

  lemma {:induction false} DistinctCounts<T>(s: seq<T>)
    requires Distinct(s)
    ensures forall x :: multiset(s)[x] <= 1
  {
    if s != [] {
      DistinctCounts(s[1..]);
      assert s == [s[0]] + s[1..];
      assert s[0] !in s[1..];
    }
  }
}

/** Strings in the order Rust's `Ord` gives them (code points, which is also the order of UTF-8 bytes). */
module Lexicographic {
  import opened Sorting

  function LexLeq(a: string, b: string): bool
  {
    a == [] || (b != [] && (a[0] < b[0] || (a[0] == b[0] && LexLeq(a[1..], b[1..]))))
  }

  lemma {:induction false} LexTotal(a: string, b: string)
    ensures LexLeq(a, b) || LexLeq(b, a)
    ensures LexLeq(a, b) && LexLeq(b, a) ==> a == b
  {
    if a != [] && b != [] {
      LexTotal(a[1..], b[1..]);
      assert a == [a[0]] + a[1..] && b == [b[0]] + b[1..];
    }
  }

  lemma {:induction false} LexTransitive(a: string, b: string, c: string)
    requires LexLeq(a, b) && LexLeq(b, c)
    ensures LexLeq(a, c)
  {
    if a != [] && a[0] == b[0] == c[0] {
      LexTransitive(a[1..], b[1..], c[1..]);
    }
  }

  lemma LexOrder()
    ensures TotalPreorder(LexLeq) && Antisymmetric(LexLeq)
  {
    forall a, b ensures LexLeq(a, b) || LexLeq(b, a) {
      LexTotal(a, b);
    }
    forall a, b | LexLeq(a, b) && LexLeq(b, a) ensures a == b {
      LexTotal(a, b);
    }
    forall a, b, c | LexLeq(a, b) && LexLeq(b, c) ensures LexLeq(a, c) {
      LexTransitive(a, b, c);
    }
  }

  lemma {:induction false} HasLeast(s: set<string>)
    requires s != {}
    ensures exists x :: x in s && forall y :: y in s ==> LexLeq(x, y)
  {
    hide LexLeq;
    LexOrder();
    var x :| x in s;
    var rest := s - {x};
    if rest == {} {
      assert s == {x};
      assert LexLeq(x, x) && x in s;
    } else {
      HasLeast(rest);
      var m :| m in rest && forall y :: y in rest ==> LexLeq(m, y);
      var least := if LexLeq(x, m) then x else m;
      forall y | y in s ensures LexLeq(least, y) {
        if y != x {
          assert LexLeq(m, y);
        }
      }
    }
  }

  function Least(s: set<string>): (x: string)
    requires s != {}
    ensures x in s && forall y :: y in s ==> LexLeq(x, y)
  {
    HasLeast(s);
    LexOrder();
    var x :| x in s && forall y :: y in s ==> LexLeq(x, y);
    x
  }

  /** The keys of a `BTreeMap`, or the members of a `BTreeSet`, in iteration order. */
  function InOrder(s: set<string>): (r: seq<string>)
    ensures |r| == |s|
    ensures forall x :: x in r <==> x in s
    decreases |s|
  {
    if s == {} then [] else [Least(s)] + InOrder(s - {Least(s)})
  }

  lemma {:induction false} InOrderSorted(s: set<string>)
    ensures Sorted(InOrder(s), LexLeq) && Distinct(InOrder(s))
    decreases |s|
  {
    hide LexLeq;
    if s != {} {
      var x, rest := Least(s), s - {Least(s)};
      InOrderSorted(rest);
      var tail := InOrder(rest);
      hide InOrder, Least;
      forall i | 0 <= i < |tail| ensures LexLeq(x, tail[i]) && tail[i] != x {
        assert tail[i] in tail;
      }
      SortedCons(x, tail, LexLeq);
    }
  }
}
