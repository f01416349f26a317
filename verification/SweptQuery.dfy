/**
 The swept-sphere query of `validate_prepared` (crates/core/src/ghost_validation.rs): triggers are
 sorted by the low x of their boxes, so each path segment is tested against a prefix only.
 Coordinates are reals; the narrow phase behind the box test is an arbitrary function.
 */
module SweptQuery {
  import opened Wrappers
  import opened Sorting

  const MAX_QUERY_WORK: nat := 2_000_000

  datatype Vec = Vec(x: real, y: real, z: real)

  datatype Sample = Sample(time: real, position: Vec, radius: real)

  /** A convex trigger: its identity, its bounding box, and a name for its hull. */
  datatype Trigger = Trigger(uid: string, shape: string, finish: bool, min: Vec, max: Vec, hull: nat)

  datatype Touch = Hit | Miss | Broken

  /** `intersection_test` followed by `cast_shapes`, on a hull, a segment and a radius. */
  type Narrow = (nat, Vec, Vec, real) -> Touch

  function Min(a: real, b: real): real { if a <= b then a else b }

  function Max(a: real, b: real): real { if a >= b then a else b }

  predicate Apart(a: real, b: real, radius: real, low: real, high: real)
  {
    Min(a, b) - radius > high || Max(a, b) + radius < low
  }

  /** The box test on the three axes, then the narrow phase. */
  function Contact(t: Trigger, a: Vec, b: Vec, radius: real, narrow: Narrow): Touch
  {
    if Apart(a.x, b.x, radius, t.min.x, t.max.x)
       || Apart(a.y, b.y, radius, t.min.y, t.max.y)
       || Apart(a.z, b.z, radius, t.min.z, t.max.z)
    then Miss
    else narrow(t.hull, a, b, radius)
  }

  ghost predicate InRange(x: real, low: real, high: real) { low <= x <= high }

  ghost predicate Spanned(y: real, a: real, b: real) { a <= y <= b || b <= y <= a }

  /** On one axis: the box and what the segment covers come within the radius of each other. */
  ghost predicate Reaches(a: real, b: real, radius: real, low: real, high: real)
  {
    exists x, y :: InRange(x, low, high) && Spanned(y, a, b) && -radius <= x - y <= radius
  }

  ghost predicate BoxReached(t: Trigger, a: Vec, b: Vec, radius: real)
  {
    && Reaches(a.x, b.x, radius, t.min.x, t.max.x)
    && Reaches(a.y, b.y, radius, t.min.y, t.max.y)
    && Reaches(a.z, b.z, radius, t.min.z, t.max.z)
  }

  ghost predicate IsBox(t: Trigger)
  {
    t.min.x <= t.max.x && t.min.y <= t.max.y && t.min.z <= t.max.z
  }

  lemma ApartMeans(a: real, b: real, radius: real, low: real, high: real)
    requires radius >= 0.0 && low <= high
    ensures Apart(a, b, radius, low, high) <==> !Reaches(a, b, radius, low, high)
  {
    if !Apart(a, b, radius, low, high) {
      var left, right := Min(a, b), Max(a, b);
      var y := if right < low then right else if left > high then left else if left >= low then left else low;
      var x := if y < low then low else if y > high then high else y;
      assert InRange(x, low, high) && Spanned(y, a, b) && -radius <= x - y <= radius;
    }
  }

  /** The narrow phase is asked about the whole segment, and exactly when all three axes come that near. */
  lemma ContactMeans(t: Trigger, a: Vec, b: Vec, radius: real, narrow: Narrow)
    requires radius >= 0.0 && IsBox(t)
    ensures Contact(t, a, b, radius, narrow) == if BoxReached(t, a, b, radius) then narrow(t.hull, a, b, radius) else Miss
  {
    ApartMeans(a.x, b.x, radius, t.min.x, t.max.x);
    ApartMeans(a.y, b.y, radius, t.min.y, t.max.y);
    ApartMeans(a.z, b.z, radius, t.min.z, t.max.z);
    hide Apart, Reaches;
  }

  predicate LowXLeq(a: Trigger, b: Trigger) { a.min.x <= b.min.x }

  /** Length of the prefix with low x at most `limit`; on sorted triggers, `partition_point`. */
  function PartitionPoint(triggers: seq<Trigger>, limit: real): (bound: nat)
    ensures bound <= |triggers|
    ensures forall i | 0 <= i < bound :: triggers[i].min.x <= limit
    ensures bound < |triggers| ==> triggers[bound].min.x > limit
  {
    if triggers == [] || triggers[0].min.x > limit then 0 else 1 + PartitionPoint(triggers[1..], limit)
  }

  // ---------------------------------------------------------------- one segment

  function Mix(a: real, b: real, fraction: real): real { a + (b - a) * fraction }

  /** The end of a segment, cut back to the finish time when it runs past it. */
  ghost function Clip(a: Sample, b: Sample, finish: real): Vec
  {
    if b.time > finish && b.time > a.time then
      var fraction := (finish - a.time) / (b.time - a.time);
      Vec(Mix(a.position.x, b.position.x, fraction),
          Mix(a.position.y, b.position.y, fraction),
          Mix(a.position.z, b.position.z, fraction))
    else b.position
  }

  /** Where a body moving evenly from `a` to `b` is at a time. */
  ghost predicate IsAt(a: Sample, b: Sample, time: real, p: Vec)
  {
    && (p.x - a.position.x) * (b.time - a.time) == (b.position.x - a.position.x) * (time - a.time)
    && (p.y - a.position.y) * (b.time - a.time) == (b.position.y - a.position.y) * (time - a.time)
    && (p.z - a.position.z) * (b.time - a.time) == (b.position.z - a.position.z) * (time - a.time)
  }

  /** The segment ends where the body is at the finish time, or at its own end when that comes first. */
  lemma ClipMeans(a: Sample, b: Sample, finish: real)
    requires a.time < b.time
    ensures IsAt(a, b, Min(finish, b.time), Clip(a, b, finish))
  {
    if b.time > finish {
      MixAt(a.position.x, b.position.x, finish - a.time, b.time - a.time);
      MixAt(a.position.y, b.position.y, finish - a.time, b.time - a.time);
      MixAt(a.position.z, b.position.z, finish - a.time, b.time - a.time);
    }
  }

  lemma MixAt(a: real, b: real, p: real, q: real)
    requires q > 0.0
    ensures (Mix(a, b, p / q) - a) * q == (b - a) * p
  {
    var f := p / q;
    assert f * q == p;
    assert (b - a) * f * q == (b - a) * (f * q);
  }

  lemma FractionBetween(p: real, q: real)
    requires 0.0 <= p < q
    ensures 0.0 <= p / q <= 1.0
  {
    var f := p / q;
    assert f * q == p;
    assert f < 0.0 ==> f * q < 0.0;
    assert f > 1.0 ==> f * q > q;
  }

  lemma MixBetween(a: real, b: real, fraction: real)
    requires 0.0 <= fraction <= 1.0
    ensures Mix(a, b, fraction) <= Max(a, b)
  {
    var d, rest := b - a, 1.0 - fraction;
    assert d * rest + d * fraction == d * (rest + fraction) == d;
    assert d >= 0.0 ==> d * rest >= 0.0;
    assert d <= 0.0 ==> d * fraction <= 0.0;
  }

  /** Cutting a segment back never moves its end beyond the x range of the segment. */
  lemma ClipStaysLeft(a: Sample, b: Sample, finish: real)
    requires a.time <= finish
    ensures Clip(a, b, finish).x <= Max(a.position.x, b.position.x)
  {
    if b.time > finish && b.time > a.time {
      FractionBetween(finish - a.time, b.time - a.time);
      MixBetween(a.position.x, b.position.x, (finish - a.time) / (b.time - a.time));
    }
  }

  datatype Segment = Segment(start: Sample, end: Sample, radius: real)

  ghost function Touched(s: Segment, finish: real, t: Trigger, narrow: Narrow): Touch
  {
    Contact(t, s.start.position, Clip(s.start, s.end, finish), s.radius, narrow)
  }

  function Reach(s: Segment): real
  {
    Max(s.start.position.x, s.end.position.x) + s.radius
  }

  /** What the box test alone decides: nothing beyond the reach of a segment is in contact with it. */
  lemma BeyondReachMisses(s: Segment, finish: real, t: Trigger, narrow: Narrow)
    requires s.start.time <= finish && t.min.x > Reach(s)
    ensures Touched(s, finish, t, narrow) == Miss
  {
    ClipStaysLeft(s.start, s.end, finish);
  }

  // ---------------------------------------------------------------- the whole path

  datatype Outcome = Swept(hits: set<string>) | Unsupported | OverBudget

  /** Every trigger against every segment that starts by the finish time, in order. */
  ghost function BruteForce(segments: seq<Segment>, triggers: seq<Trigger>, finish: real, narrow: Narrow): Outcome
  {
    if segments == [] || segments[0].start.time > finish then Swept({})
    else if exists t :: t in triggers && Touched(segments[0], finish, t, narrow) == Broken then Unsupported
    else
      var rest := BruteForce(segments[1..], triggers, finish, narrow);
      if rest.Swept? then Swept(SegmentHits(segments[0], triggers, finish, narrow) + rest.hits) else rest
  }

  ghost function SegmentHits(s: Segment, triggers: seq<Trigger>, finish: real, narrow: Narrow): set<string>
  {
    set t | t in triggers && !t.finish && Touched(s, finish, t, narrow) == Hit :: t.uid
  }

  /** Contact tests the pruned loop makes when nothing stops it. */
  ghost function PrunedWork(segments: seq<Segment>, triggers: seq<Trigger>, finish: real): nat
  {
    if segments == [] || segments[0].start.time > finish then 0
    else PartitionPoint(triggers, Reach(segments[0])) + PrunedWork(segments[1..], triggers, finish)
  }

  /** One segment: the prefix finds what the whole list would, error included. */
  lemma PrefixSuffices(s: Segment, triggers: seq<Trigger>, finish: real, narrow: Narrow)
    requires Sorted(triggers, LowXLeq) && s.start.time <= finish
    ensures var near := triggers[..PartitionPoint(triggers, Reach(s))];
      && SegmentHits(s, near, finish, narrow) == SegmentHits(s, triggers, finish, narrow)
      && forall t | t in triggers && t !in near :: Touched(s, finish, t, narrow) == Miss
  {
    hide Touched, Reach;
    var bound := PartitionPoint(triggers, Reach(s));
    var near := triggers[..bound];
    forall t | t in triggers && t !in near ensures Touched(s, finish, t, narrow) == Miss {
      var i :| 0 <= i < |triggers| && triggers[i] == t;
      assert forall j | 0 <= j < bound :: near[j] == triggers[j];
      assert i >= bound;
      assert LowXLeq(triggers[bound], triggers[i]) || i == bound;
      BeyondReachMisses(s, finish, t, narrow);
    }
    assert forall t | t in near :: t in triggers;
  }

  /**
   The source's double loop.  While the work budget lasts, the pruned query returns what brute
   force returns, on hits and on the narrow-phase error alike; and the budget lasts exactly when the
   prefixes fit it.
   */
  method Sweep(segments: seq<Segment>, triggers: seq<Trigger>, finish: real, narrow: Narrow, workBefore: nat)
      returns (outcome: Outcome, work: nat)
    requires Sorted(triggers, LowXLeq)
    ensures outcome.OverBudget? ==> workBefore + PrunedWork(segments, triggers, finish) > MAX_QUERY_WORK
    ensures !outcome.OverBudget? ==> outcome == BruteForce(segments, triggers, finish, narrow)
    ensures outcome.Swept? ==> work == workBefore + PrunedWork(segments, triggers, finish)
    ensures outcome.Swept? && workBefore <= MAX_QUERY_WORK ==> work <= MAX_QUERY_WORK
  {
    hide PrunedWork, BruteForce, SegmentHits, PartitionPoint;
    work := workBefore;
    var hits: set<string> := {};
    ghost var whole := BruteForce(segments, triggers, finish, narrow);
    var n := 0;
    assert segments[0..] == segments;
    while n < |segments|
      invariant n <= |segments| && (workBefore <= MAX_QUERY_WORK ==> work <= MAX_QUERY_WORK)
      invariant work + PrunedWork(segments[n..], triggers, finish) == workBefore + PrunedWork(segments, triggers, finish)
      invariant whole == Joined(hits, BruteForce(segments[n..], triggers, finish, narrow))
    {
      var s := segments[n];
      SweepStep(segments[n..], triggers, finish, narrow);
      assert segments[n..][0] == s && segments[n..][1..] == segments[n + 1..];
      if s.start.time > finish {
        outcome := Swept(hits);
        return;
      }
      PrefixSuffices(s, triggers, finish, narrow);
      var result, more := SweepSegment(s, triggers, finish, narrow, work);
      if !result.Swept? {
        return result, work;
      }
      hits := hits + result.hits;
      work := more;
      n := n + 1;
    }
    SweepStep(segments[n..], triggers, finish, narrow);
    outcome := Swept(hits);
  }

  ghost function Joined(hits: set<string>, rest: Outcome): Outcome
  {
    if rest.Swept? then Swept(hits + rest.hits) else rest
  }

  lemma SweepStep(segments: seq<Segment>, triggers: seq<Trigger>, finish: real, narrow: Narrow)
    ensures segments == [] || segments[0].start.time > finish ==>
      BruteForce(segments, triggers, finish, narrow) == Swept({}) && PrunedWork(segments, triggers, finish) == 0
    ensures segments != [] && segments[0].start.time <= finish ==>
      && PrunedWork(segments, triggers, finish)
         == PartitionPoint(triggers, Reach(segments[0])) + PrunedWork(segments[1..], triggers, finish)
      && BruteForce(segments, triggers, finish, narrow)
         == (if exists t :: t in triggers && Touched(segments[0], finish, t, narrow) == Broken then Unsupported
             else Joined(SegmentHits(segments[0], triggers, finish, narrow),
                         BruteForce(segments[1..], triggers, finish, narrow)))
  {
    hide Touched, SegmentHits, PartitionPoint, Reach;
  }

  method SweepSegment(s: Segment, triggers: seq<Trigger>, finish: real, narrow: Narrow, workBefore: nat)
      returns (outcome: Outcome, work: nat)
    requires s.start.time <= finish
    ensures var near := triggers[..PartitionPoint(triggers, Reach(s))];
      && (outcome.OverBudget? ==> workBefore + |near| > MAX_QUERY_WORK)
      && (outcome.Unsupported? ==> exists t :: t in near && Touched(s, finish, t, narrow) == Broken)
      && (outcome.Swept? ==>
            && outcome.hits == SegmentHits(s, near, finish, narrow)
            && work == workBefore + |near| && (workBefore <= MAX_QUERY_WORK ==> work <= MAX_QUERY_WORK)
            && forall t | t in near :: Touched(s, finish, t, narrow) != Broken)
  {
    hide PartitionPoint, Contact, Mix;
    work := workBefore;
    var hits: set<string> := {};
    var bound := PartitionPoint(triggers, Reach(s));
    for i := 0 to bound
      invariant work == workBefore + i && (workBefore <= MAX_QUERY_WORK ==> work <= MAX_QUERY_WORK)
      invariant hits == SegmentHits(s, triggers[..i], finish, narrow)
      invariant forall t | t in triggers[..i] :: Touched(s, finish, t, narrow) != Broken
    {
      work := work + 1;
      if work > MAX_QUERY_WORK {
        return OverBudget, work;
      }
      var t := triggers[i];
      assert triggers[..i + 1] == triggers[..i] + [t];
      var end := s.end.position;
      if s.end.time > finish && s.end.time > s.start.time {
        var fraction := (finish - s.start.time) / (s.end.time - s.start.time);
        end := Vec(Mix(s.start.position.x, end.x, fraction), Mix(s.start.position.y, end.y, fraction),
                   Mix(s.start.position.z, end.z, fraction));
      }
      assert end == Clip(s.start, s.end, finish);
      match Contact(t, s.start.position, end, s.radius, narrow)
      case Hit =>
        if !t.finish {
          hits := hits + {t.uid};
        }
      case Miss =>
      case Broken =>
        assert t in triggers[..bound] && Touched(s, finish, t, narrow) == Broken;
        return Unsupported, work;
    }
    outcome := Swept(hits);
  }
}
