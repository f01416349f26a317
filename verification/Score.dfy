/**
 A player's points from decayed level contributions (crates/core/src/score.rs), over the reals: the
 sorted order is the best one, and what follows from it.
 */
module Score {
  import opened Sorting

  const GLOBAL_DECAY: real := 0.95

  /** Stands for the smallest positive `f32`, below which a value is stored as nothing. */
  const MIN_PERSISTED: real := 0.00000000000000000000000000000000000000000000140129846432481707

  datatype LevelContribution = LevelContribution(idLevel: int, idRecord: int, levelPosition: int, levelPoints: int,
                                                 levelDecayed: real)
  datatype PlayerContribution = PlayerContribution(level: LevelContribution, contributionRank: nat, playerDecayed: real)
  datatype PlayerPoints = PlayerPoints(contributions: seq<PlayerContribution>, points: int, totalPoints: int)

  function Power(base: real, exponent: nat): real
  {
    if exponent == 0 then 1.0 else base * Power(base, exponent - 1)
  }

  function DecayMultiplier(position: int, factor: real): real
  {
    if position < 1 || factor <= 0.0 then 0.0 else Power(factor, position - 1)
  }

  function DecayedPoints(points: real, position: int, factor: real): real
  {
    if points <= 0.0 then 0.0
    else
      var value := points * DecayMultiplier(position, factor);
      if value < MIN_PERSISTED then 0.0 else value
  }

  lemma {:induction false} PowerBounds(base: real, exponent: nat)
    requires 0.0 < base <= 1.0
    ensures 0.0 < Power(base, exponent) <= 1.0
    ensures Power(base, exponent + 1) <= Power(base, exponent)
  {
    if exponent > 0 {
      PowerBounds(base, exponent - 1);
    }
  }

  /** Decay never gains: non-negative, at most the points, and less in a later position. */
  lemma DecayBounds(points: real, position: int, factor: real)
    requires 0.0 < factor <= 1.0 && position >= 1 && points >= 0.0
    ensures 0.0 <= DecayedPoints(points, position + 1, factor) <= DecayedPoints(points, position, factor) <= points
  {
    PowerBounds(factor, position - 1);
    PowerBounds(factor, position);
    var p, q := Power(factor, position - 1), Power(factor, position);
    hide Power;
    Product(points, 1.0 - p);
    Product(points, p - q);
    Product(points, q);
  }

  /** Positive points in a place keep their decayed value down to the smallest that can be stored; nothing else earns. */
  lemma KeptDownToSmallest(points: real, position: int, factor: real)
    ensures points > 0.0 && position >= 1 && factor > 0.0 ==>
      var exact := points * Power(factor, position - 1);
      DecayedPoints(points, position, factor) == (if exact >= MIN_PERSISTED then exact else 0.0)
    ensures points <= 0.0 || position < 1 || factor <= 0.0 ==> DecayedPoints(points, position, factor) == 0.0
  {
  }

  lemma Product(a: real, b: real)
    requires a >= 0.0 && b >= 0.0
    ensures a * b >= 0.0
  {
  }

  // ---------------------------------------------------------------- the order

  /** Highest first; equal values by level, then by record. */
  predicate Precedes(a: LevelContribution, b: LevelContribution)
  {
    a.levelDecayed > b.levelDecayed || (a.levelDecayed == b.levelDecayed &&
    (a.idLevel < b.idLevel || (a.idLevel == b.idLevel && a.idRecord <= b.idRecord)))
  }

  /** The same order made total on whole values. */
  predicate PrecedesFully(a: LevelContribution, b: LevelContribution)
  {
    Precedes(a, b) && (Precedes(b, a) ==>
    a.levelPosition < b.levelPosition || (a.levelPosition == b.levelPosition && a.levelPoints <= b.levelPoints))
  }

  lemma PrecedesOrder()
    ensures TotalPreorder(Precedes) && TotalPreorder(PrecedesFully) && Antisymmetric(PrecedesFully)
  {
  }

  ghost predicate Counts(c: LevelContribution) { 1 <= c.levelPosition && 1 <= c.levelPoints }

  ghost function Retained(values: seq<LevelContribution>): seq<LevelContribution>
  {
    if values == [] then [] else (if Counts(values[0]) then [values[0]] else []) + Retained(values[1..])
  }

  ghost function Ranked(values: seq<LevelContribution>): seq<LevelContribution> { Sort(Retained(values), Precedes) }

  // ---------------------------------------------------------------- the weighted sum

  /** Each value weighs 0.95 times the weight before it. */
  function Weighted(s: seq<LevelContribution>): real
  {
    if s == [] then 0.0 else s[0].levelDecayed + GLOBAL_DECAY * Weighted(s[1..])
  }

  /** Bringing a value to the front of smaller ones never lowers the sum. */
  lemma {:induction false} MoveToFront(a: seq<LevelContribution>, m: LevelContribution, b: seq<LevelContribution>)
    requires forall x | x in a :: x.levelDecayed <= m.levelDecayed
    ensures Weighted(a + [m] + b) <= Weighted([m] + (a + b))
  {
    if a == [] {
      assert a + [m] + b == [m] + (a + b);
    } else {
      var x, rest := a[0], a[1..];
      assert x in a && forall y | y in rest :: y in a;
      MoveToFront(rest, m, b);
      assert (a + [m] + b)[0] == x && (a + [m] + b)[1..] == rest + [m] + b;
      assert ([m] + (rest + b))[1..] == rest + b;
      assert ([m] + (a + b))[1..] == a + b && (a + b)[1..] == rest + b;
    }
  }

  /** The rearrangement inequality: no permutation beats the sorted one. */
  lemma {:induction false} SortedIsBest(s: seq<LevelContribution>, t: seq<LevelContribution>)
    requires multiset(s) == multiset(t) && Sorted(t, Precedes)
    ensures Weighted(s) <= Weighted(t)
    decreases |t|
  {
    hide Precedes, Weighted, Sorted;
    assert |s| == |multiset(s)| == |multiset(t)| == |t|;
    if t == [] {
      assert s == t;
    } else {
      var m, rest := t[0], t[1..];
      var a, b := TakeOut(s, t);
      TailSorted(t, Precedes);
      SmallerThanFirst(s, t, a);
      MoveToFront(a, m, b);
      SortedIsBest(a + b, rest);
      WeightedFirst(m, a + b);
      WeightedFirst(m, rest);
      assert t == [m] + rest;
    }
  }

  lemma WeightedFirst(m: LevelContribution, rest: seq<LevelContribution>)
    ensures Weighted([m] + rest) == m.levelDecayed + GLOBAL_DECAY * Weighted(rest)
  {
    assert ([m] + rest)[1..] == rest;
  }

  lemma SmallerThanFirst(s: seq<LevelContribution>, t: seq<LevelContribution>, a: seq<LevelContribution>)
    requires multiset(s) == multiset(t) && Sorted(t, Precedes) && t != [] && a <= s
    ensures forall x | x in a :: x.levelDecayed <= t[0].levelDecayed
  {
    forall x | x in a ensures x.levelDecayed <= t[0].levelDecayed {
      assert x in s;
      assert x in multiset(s);
      assert x in multiset(t);
      var j :| 0 <= j < |t| && t[j] == x;
      assert j == 0 || Precedes(t[0], t[j]);
    }
  }

  lemma RankedIsSorted(values: seq<LevelContribution>)
    ensures Sorted(Ranked(values), Precedes) && multiset(Ranked(values)) == multiset(Retained(values))
  {
    PrecedesOrder();
    SortSorted(Retained(values), Precedes);
  }

  /** More first; among equals the smaller level, and among those the smaller record. */
  ghost predicate RankedBefore(a: LevelContribution, b: LevelContribution)
  {
    if a.levelDecayed != b.levelDecayed then a.levelDecayed > b.levelDecayed
    else if a.idLevel != b.idLevel then a.idLevel < b.idLevel
    else a.idRecord <= b.idRecord
  }

  lemma RankedInOrder(values: seq<LevelContribution>)
    ensures forall i, j | 0 <= i < j < |Ranked(values)| :: RankedBefore(Ranked(values)[i], Ranked(values)[j])
  {
    RankedIsSorted(values);
    hide Ranked, Retained;
    forall i, j | 0 <= i < j < |Ranked(values)| ensures RankedBefore(Ranked(values)[i], Ranked(values)[j]) {
      assert Precedes(Ranked(values)[i], Ranked(values)[j]);
    }
  }

  /** The ranking gives the largest weighted sum over all orders of the retained contributions. */
  lemma RankingIsBest(values: seq<LevelContribution>, s: seq<LevelContribution>)
    requires multiset(s) == multiset(Retained(values))
    ensures Weighted(s) <= Weighted(Ranked(values))
  {
    RankedIsSorted(values);
    SortedIsBest(s, Ranked(values));
  }

  /** The order of the input does not matter to the sum. */
  lemma InputOrderIsIrrelevant(values: seq<LevelContribution>, other: seq<LevelContribution>)
    requires multiset(values) == multiset(other)
    ensures Weighted(Ranked(values)) == Weighted(Ranked(other))
  {
    RetainedPermutes(values, other);
    RankedIsSorted(values);
    RankedIsSorted(other);
    RankingIsBest(values, Ranked(other));
    RankingIsBest(other, Ranked(values));
  }

  lemma {:induction false} RetainedAll(values: seq<LevelContribution>, c: LevelContribution)
    ensures multiset(Retained(values))[c] == if Counts(c) then multiset(values)[c] else 0
  {
    hide Counts;
    if values != [] {
      RetainedAll(values[1..], c);
      assert values == [values[0]] + values[1..];
      var head := if Counts(values[0]) then [values[0]] else [];
      assert multiset(Retained(values)) == multiset(head) + multiset(Retained(values[1..]));
    }
  }

  lemma RetainedPermutes(values: seq<LevelContribution>, other: seq<LevelContribution>)
    requires multiset(values) == multiset(other)
    ensures multiset(Retained(values)) == multiset(Retained(other))
  {
    forall c ensures multiset(Retained(values))[c] == multiset(Retained(other))[c] {
      RetainedAll(values, c);
      RetainedAll(other, c);
    }
  }

  predicate DistinctKeys(s: seq<LevelContribution>)
  {
    forall a, b | a in s && b in s && a.idLevel == b.idLevel && a.idRecord == b.idRecord :: a == b
  }

  /** With distinct (level, record) pairs the ranking itself is determined by the set of contributions. */
  lemma RankingIsUnique(values: seq<LevelContribution>, other: seq<LevelContribution>)
    requires multiset(values) == multiset(other) && DistinctKeys(values)
    ensures Ranked(values) == Ranked(other)
  {
    RetainedPermutes(values, other);
    RankedIsSorted(values);
    RankedIsSorted(other);
    RankedElements(values, values);
    RankedElements(values, other);
    hide Retained, Ranked, Counts;
    PrecedesOrder();
    FullySorted(Ranked(values));
    FullySorted(Ranked(other));
    SortedUnique(Ranked(values), Ranked(other), PrecedesFully);
  }

  lemma RankedElements(values: seq<LevelContribution>, other: seq<LevelContribution>)
    requires multiset(values) == multiset(other) && DistinctKeys(values)
    ensures DistinctKeys(Ranked(other))
  {
    RankedIsSorted(other);
    hide Ranked;
    forall c | c in Ranked(other) ensures c in values {
      assert c in multiset(Ranked(other));
      RetainedAll(other, c);
      assert c in multiset(values);
    }
  }

  lemma FullySorted(s: seq<LevelContribution>)
    requires Sorted(s, Precedes) && DistinctKeys(s)
    ensures Sorted(s, PrecedesFully)
  {
    forall i, j | 0 <= i < j < |s| ensures PrecedesFully(s[i], s[j]) {
      assert Precedes(s[i], s[j]) && s[i] in s && s[j] in s;
    }
  }

  lemma {:induction false} WeightedAppend(s: seq<LevelContribution>, c: LevelContribution)
    requires c.levelDecayed >= 0.0
    ensures Weighted(s + [c]) >= Weighted(s)
  {
    if s == [] {
      assert (s + [c])[1..] == [];
    } else {
      assert (s + [c])[1..] == s[1..] + [c];
      WeightedAppend(s[1..], c);
    }
  }

  lemma {:induction false} RetainedAppend(values: seq<LevelContribution>, c: LevelContribution)
    ensures Retained(values + [c]) == Retained(values) + if Counts(c) then [c] else []
  {
    hide Counts;
    if values == [] {
      assert values + [c] == [c] && [c][1..] == [];
    } else {
      assert (values + [c])[1..] == values[1..] + [c];
      RetainedAppend(values[1..], c);
      var first, last := if Counts(values[0]) then [values[0]] else [], if Counts(c) then [c] else [];
      assert first + Retained(values[1..]) + last == first + (Retained(values[1..]) + last);
    }
  }

  /** One more contribution never lowers the sum. */
  lemma AddingNeverLowers(values: seq<LevelContribution>, c: LevelContribution)
    requires c.levelDecayed >= 0.0
    ensures Weighted(Ranked(values)) <= Weighted(Ranked(values + [c]))
  {
    RetainedAppend(values, c);
    RankedIsSorted(values);
    if Counts(c) {
      WeightedAppend(Ranked(values), c);
      RankingIsBest(values + [c], Ranked(values) + [c]);
    } else {
      assert Retained(values) + [] == Retained(values);
    }
  }

  /** However many contributions there are, the sum stays below twenty times the best. */
  lemma {:induction false} BelowTwentyTimes(s: seq<LevelContribution>, best: real)
    requires best > 0.0 && forall c | c in s :: c.levelDecayed <= best
    ensures Weighted(s) < 20.0 * best
  {
    if s != [] {
      assert s[0] in s && forall c | c in s[1..] :: c in s;
      BelowTwentyTimes(s[1..], best);
    }
  }

  lemma SumBelowTwentyTimesBest(values: seq<LevelContribution>)
    requires Ranked(values) != [] && Ranked(values)[0].levelDecayed > 0.0
    ensures Weighted(Ranked(values)) < 20.0 * Ranked(values)[0].levelDecayed
  {
    RankedIsSorted(values);
    var t := Ranked(values);
    SmallerThanFirst(t, t, t);
    BelowTwentyTimes(t, t[0].levelDecayed);
  }

  // ---------------------------------------------------------------- what is returned

  function PlayerSum(s: seq<PlayerContribution>): real
  {
    if s == [] then 0.0 else PlayerSum(s[..|s| - 1]) + s[|s| - 1].playerDecayed
  }

  function LevelSum(s: seq<PlayerContribution>): real
  {
    if s == [] then 0.0 else LevelSum(s[..|s| - 1]) + s[|s| - 1].level.levelDecayed
  }

  /** `f64::round`: half away from zero. */
  function Round(x: real): int
  {
    if x >= 0.0 then (x + 0.5).Floor else -((-x + 0.5).Floor)
  }

  /** The nearest whole number, and the one farther from zero where two are equally near. */
  ghost predicate Nearest(n: int, x: real)
  {
    && -0.5 <= n as real - x <= 0.5
    && (n as real - x == 0.5 ==> x > 0.0)
    && (n as real - x == -0.5 ==> x < 0.0)
  }

  lemma RoundMeans(x: real, n: int)
    ensures n == Round(x) <==> Nearest(n, x)
  {
  }

  /** The weighted sum, term by term from the front. */
  function Terms(s: seq<LevelContribution>): real
  {
    if s == [] then 0.0
    else Terms(s[..|s| - 1]) + s[|s| - 1].levelDecayed * Power(GLOBAL_DECAY, |s| - 1)
  }

  lemma {:induction false} WeightedLast(s: seq<LevelContribution>, c: LevelContribution)
    ensures Weighted(s + [c]) == Weighted(s) + c.levelDecayed * Power(GLOBAL_DECAY, |s|)
  {
    if s == [] {
      assert (s + [c])[1..] == [];
    } else {
      assert (s + [c])[1..] == s[1..] + [c];
      WeightedLast(s[1..], c);
      var p := Power(GLOBAL_DECAY, |s| - 1);
      assert GLOBAL_DECAY * (c.levelDecayed * p) == c.levelDecayed * (GLOBAL_DECAY * p);
    }
  }

  lemma {:induction false} TermsAreWeighted(s: seq<LevelContribution>)
    ensures Terms(s) == Weighted(s)
  {
    if s != [] {
      var k := |s| - 1;
      TermsAreWeighted(s[..k]);
      WeightedLast(s[..k], s[k]);
      assert s == s[..k] + [s[k]];
    }
  }

  /** The flush of tiny values loses less than one smallest value a contribution. */
  ghost predicate NearlyWeighted(sum: real, s: seq<LevelContribution>)
  {
    Weighted(s) - |s| as real * MIN_PERSISTED <= sum <= Weighted(s)
  }

  lemma FlushLoses(points: real, rank: nat)
    requires points >= 0.0 && rank >= 1
    ensures var exact := points * Power(GLOBAL_DECAY, rank - 1);
      exact - MIN_PERSISTED <= DecayedPoints(points, rank, GLOBAL_DECAY) <= exact
  {
    PowerBounds(GLOBAL_DECAY, rank - 1);
    assert points * Power(GLOBAL_DECAY, rank - 1) >= 0.0;
  }

  /** A contribution below zero adds nothing to the points. */
  function Gain(c: LevelContribution): LevelContribution
  {
    if c.levelDecayed < 0.0 then c.(levelDecayed := 0.0) else c
  }

  function Gains(s: seq<LevelContribution>): (r: seq<LevelContribution>)
    ensures |r| == |s|
  {
    if s == [] then [] else Gains(s[..|s| - 1]) + [Gain(s[|s| - 1])]
  }

  /** Where nothing is below zero the gains are the contributions themselves. */
  lemma {:induction false} GainsOfNonNegative(s: seq<LevelContribution>)
    requires forall c | c in s :: c.levelDecayed >= 0.0
    ensures Gains(s) == s
  {
    if s != [] {
      var k := |s| - 1;
      GainsOfNonNegative(s[..k]);
      assert s[k] in s && s == s[..k] + [s[k]];
    }
  }

  lemma GainsNext(s: seq<LevelContribution>, c: LevelContribution)
    ensures Gains(s + [c]) == Gains(s) + [Gain(c)]
  {
    assert (s + [c])[..|s|] == s;
  }

  lemma SameGain(c: LevelContribution)
    ensures forall rank ::
              DecayedPoints(Gain(c).levelDecayed, rank, GLOBAL_DECAY) == DecayedPoints(c.levelDecayed, rank, GLOBAL_DECAY)
    ensures Gain(c).levelDecayed >= 0.0
  {
    hide DecayMultiplier;
  }

  lemma OneMoreSmallest(n: real)
    ensures (n + 1.0) * MIN_PERSISTED == n * MIN_PERSISTED + MIN_PERSISTED
  {
  }

  lemma {:induction false} NearlyTerm(sum: real, s: seq<LevelContribution>, c: LevelContribution)
    requires NearlyWeighted(sum, s) && c.levelDecayed >= 0.0
    ensures NearlyWeighted(sum + DecayedPoints(c.levelDecayed, |s| + 1, GLOBAL_DECAY), s + [c])
  {
    WeightedLast(s, c);
    FlushLoses(c.levelDecayed, |s| + 1);
    hide Weighted, DecayedPoints, Power;
    var exact, n := c.levelDecayed * Power(GLOBAL_DECAY, |s|), |s| as real;
    OneMoreSmallest(n);
    assert Weighted(s + [c]) == Weighted(s) + exact && |s + [c]| as real == n + 1.0;
    assert exact - MIN_PERSISTED <= DecayedPoints(c.levelDecayed, |s| + 1, GLOBAL_DECAY) <= exact;
  }

  lemma {:induction false} NearlyNext(sum: real, s: seq<LevelContribution>, c: LevelContribution)
    requires NearlyWeighted(sum, Gains(s))
    ensures NearlyWeighted(sum + DecayedPoints(c.levelDecayed, |s| + 1, GLOBAL_DECAY), Gains(s + [c]))
  {
    hide *;
    GainsNext(s, c);
    SameGain(c);
    NearlyTerm(sum, Gains(s), Gain(c));
  }

  /** `retain`. */
  method Retain(input: seq<LevelContribution>) returns (values: seq<LevelContribution>)
    ensures values == Retained(input)
  {
    values := [];
    for i := 0 to |input|
      invariant Retained(input) == values + Retained(input[i..])
    {
      assert input[i..][0] == input[i] && input[i..][1..] == input[i + 1..];
      if input[i].levelPosition >= 1 && input[i].levelPoints > 0 {
        assert Counts(input[i]);
        values := values + [input[i]];
      }
    }
    assert input[|input|..] == [] && values + [] == values;
  }

  /**
   Ranks every retained contribution in the best order; `points` is the rounded sum of the flushed
   terms, `totalPoints` that of the contributions as they stand.
   */
  method CalculatePlayerPoints(input: seq<LevelContribution>) returns (r: PlayerPoints)
    ensures |r.contributions| == |Ranked(input)|
    ensures forall i | 0 <= i < |r.contributions| ::
              r.contributions[i] == PlayerContribution(Ranked(input)[i], i + 1,
                DecayedPoints(Ranked(input)[i].levelDecayed, i + 1, GLOBAL_DECAY))
    ensures NearlyWeighted(PlayerSum(r.contributions), Gains(Ranked(input)))
    ensures Nearest(r.points, PlayerSum(r.contributions)) && Nearest(r.totalPoints, LevelSum(r.contributions))
    ensures var exact := Weighted(Gains(Ranked(input)));
      exact - 0.5 - |Ranked(input)| as real * MIN_PERSISTED <= r.points as real <= exact + 0.5
  {
    hide DecayedPoints, Round, Nearest, NearlyWeighted, Retained, Sort, Gains, Weighted;
    var values := Retain(input);
    values := Sort(values, Precedes);
    assert values == Ranked(input);
    var contributions: seq<PlayerContribution>, points, total := [], 0.0, 0.0;
    Nothing();
    for index := 0 to |values|
      invariant |contributions| == index
      invariant forall i | 0 <= i < index ::
        contributions[i] == PlayerContribution(values[i], i + 1, DecayedPoints(values[i].levelDecayed, i + 1, GLOBAL_DECAY))
      invariant points == PlayerSum(contributions) && total == LevelSum(contributions)
      invariant NearlyWeighted(points, Gains(values[..index]))
    {
      var value := values[index];
      var decayed := DecayedPoints(value.levelDecayed, index + 1, GLOBAL_DECAY);
      NearlyNext(points, values[..index], value);
      assert values[..index + 1] == values[..index] + [value];
      var next := contributions + [PlayerContribution(value, index + 1, decayed)];
      assert next[..|next| - 1] == contributions;
      contributions := next;
      points, total := points + decayed, total + value.levelDecayed;
    }
    assert values[..|values|] == values;
    RoundMeans(points, Round(points));
    RoundMeans(total, Round(total));
    assert Nearest(Round(points), points) && NearlyWeighted(points, Gains(values));
    NearlyRounded(points, Gains(values));
    r := PlayerPoints(contributions, Round(points), Round(total));
  }

  lemma NearlyRounded(sum: real, s: seq<LevelContribution>)
    requires NearlyWeighted(sum, s)
    ensures Weighted(s) - 0.5 - |s| as real * MIN_PERSISTED <= Round(sum) as real <= Weighted(s) + 0.5
  {
    RoundMeans(sum, Round(sum));
    hide Round, Weighted;
  }

  lemma Nothing()
    ensures NearlyWeighted(0.0, Gains([]))
  {
  }
}
