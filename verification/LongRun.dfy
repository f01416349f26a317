/**
 A run with nothing wrong that the validator still cannot pass: a hundred seconds beside a block with two
 hundred colliders cost more contact tests than the query budget of crates/core/src/ghost_validation.rs has.
 */
module LongRun {
  import opened Wrappers
  import opened Sorting
  import opened SweptQuery
  import opened PathGeometry
  import opened GhostVerdict
  import opened LevelGeometry
  import C = CheckpointGraph
  import L = Lexicographic

  const STEPS: nat := 10_000
  const COLLIDERS: nat := 200
  const ORIGIN := Vec(0.0, 0.0, 0.0)

  // ---------------------------------------------------------------- the level

  const CORNERS: seq<Vec> := [
    Vec(-1.0, -1.0, -1.0), Vec(-1.0, -1.0, 1.0), Vec(-1.0, 1.0, -1.0), Vec(-1.0, 1.0, 1.0),
    Vec(1.0, -1.0, -1.0), Vec(1.0, -1.0, 1.0), Vec(1.0, 1.0, -1.0), Vec(1.0, 1.0, 1.0)]
  const BOX := Collider("box", true, true, 8, Some(CORNERS), Some(0))
  const START := LevelBlock(C.Block(1, Some("start"), false, C.Absent, map[]), false,
                            Some(Definition(false, [Some(ORIGIN)], [])))
  const GATE := Trigger("gate", "box", true, Vec(-1.0, -1.0, -1.0), Vec(1.0, 1.0, 1.0), 0)

  function Boxes(): (colliders: seq<Collider>)
    ensures |colliders| == COLLIDERS && forall c | c in colliders :: c == BOX
  {
    seq(COLLIDERS, (_: nat) => BOX)
  }

  /** The finish block. */
  function Gate(): LevelBlock
  {
    LevelBlock(C.Block(2, Some("gate"), false, C.Absent, map[]), false, Some(Definition(false, [], Boxes())))
  }

  function Blocks(): seq<LevelBlock> { [START, Gate()] }

  lemma {:induction false} LiveBoxes(b: LevelBlock, colliders: seq<Collider>)
    requires forall c | c in colliders :: c == BOX
    ensures var live := Live(b, colliders);
      |live| == |colliders| && (forall x | x in live :: x == (b, BOX)) && Vertices(live) == 8 * |colliders|
  {
    if colliders != [] {
      var k := |colliders| - 1;
      assert forall c | c in colliders[..k] :: c in colliders;
      LiveBoxes(b, colliders[..k]);
      assert colliders[k] in colliders;
      var live := Live(b, colliders);
      assert live == Live(b, colliders[..k]) + [(b, BOX)];
      assert live[..|live| - 1] == Live(b, colliders[..k]);
    }
  }

  lemma LevelSources()
    ensures Sources(Blocks()) == Live(Gate(), Boxes()) && BlockSources(Gate()) == Live(Gate(), Boxes())
    ensures Spawns(Blocks()) == [ORIGIN]
  {
    hide Live, Boxes;
    var blocks := Blocks();
    assert blocks[..1] == [START] && [START][..0] == [];
    assert BlockSources(START) == [] && BlockSpawns(Gate()) == [];
    assert Sources([START]) == Sources([]) + BlockSources(START) == [];
    assert Present([Some(ORIGIN)]) == [ORIGIN] by { assert [Some(ORIGIN)][..0] == []; }
    assert Spawns([START]) == Spawns([]) + BlockSpawns(START) == [ORIGIN];
  }

  lemma LevelIsClean()
    ensures CleanLevel(Blocks())
  {
    LevelSources();
    LiveBoxes(Gate(), Boxes());
    hide Live, Boxes, Sources, BlockSources, Vertices;
    assert GoodBlock(START) && GoodBlock(Gate());
  }

  /** A box whose extreme corners are among the points is their tight box. */
  lemma OneBox(points: seq<Vec>, low: Vec, high: Vec, min: Vec, max: Vec)
    requires TightBox(points, min, max) && low in points && high in points
    requires forall q | q in points :: low.x <= q.x <= high.x && low.y <= q.y <= high.y && low.z <= q.z <= high.z
    ensures min == low && max == high
  {
  }

  lemma CornersInBox(q: Vec)
    requires q in CORNERS
    ensures -1.0 <= q.x <= 1.0 && -1.0 <= q.y <= 1.0 && -1.0 <= q.z <= 1.0
  {
  }

  /** The tight box of the corners is the gate's. */
  lemma OneTrigger(t: Trigger)
    requires TriggerFrom(Gate(), BOX, t)
    ensures t == GATE
  {
    hide Boxes, TightBox;
    forall q | q in CORNERS ensures -1.0 <= q.x <= 1.0 && -1.0 <= q.y <= 1.0 && -1.0 <= q.z <= 1.0 {
      CornersInBox(q);
    }
    assert CORNERS[0] in CORNERS && CORNERS[7] in CORNERS;
    OneBox(CORNERS, GATE.min, GATE.max, t.min, t.max);
  }

  lemma OnlyGates(triggers: seq<Trigger>, made: seq<Trigger>)
    requires OneEach(Live(Gate(), Boxes()), made) && multiset(made) == multiset(triggers)
    ensures |triggers| == COLLIDERS && forall t | t in triggers :: t == GATE
  {
    LiveBoxes(Gate(), Boxes());
    hide Live, Boxes, TriggerFrom, Vertices;
    assert |multiset(made)| == |made| && |multiset(triggers)| == |triggers|;
    forall t | t in triggers ensures t == GATE {
      assert t in multiset(triggers);
      assert t in made;
      var k :| 0 <= k < |made| && made[k] == t;
      assert Live(Gate(), Boxes())[k] in Live(Gate(), Boxes());
      OneTrigger(t);
    }
  }

  /** Without checkpoints the graph has no groups and no reasons. */
  lemma NoGroups(nodes: map<C.Uid, C.Node>, read: seq<C.Uid>, groups: seq<seq<C.Uid>>, reasons: seq<string>)
    requires C.NodesOf(GraphLevel(Some(Blocks())).blocks, nodes) && C.Components(nodes, read, groups)
    requires read == L.InOrder(nodes.Keys)[..C.ReadNodes(L.InOrder(nodes.Keys), nodes, C.MAX_LINKS)]
    requires forall r :: r in reasons <==> C.Reported(GraphLevel(Some(Blocks())).blocks, nodes, read, r)
    ensures groups == [] && reasons == []
  {
    var blocks := GraphLevel(Some(Blocks())).blocks;
    NothingRelevant(blocks, nodes);
    hide C.ReadNodes, C.Relevant, C.Active, C.InSome, Boxes;
    SomeMember(groups);
    SomeReason(reasons);
  }

  lemma SomeMember(groups: seq<seq<C.Uid>>)
    requires forall g | g in groups :: g != []
    ensures groups == [] || exists u :: C.InSome(groups, u)
  {
    if groups != [] {
      assert groups[0] in groups && groups[0][0] in groups[0];
      assert C.InSome(groups, groups[0][0]);
    }
  }

  lemma SomeReason(reasons: seq<string>)
    ensures reasons == [] || exists r :: r in reasons
  {
    assert reasons == [] || reasons[0] in reasons;
  }

  lemma NothingRelevant(blocks: seq<C.Block>, nodes: map<C.Uid, C.Node>)
    requires blocks == GraphLevel(Some(Blocks())).blocks && C.NodesOf(blocks, nodes)
    ensures nodes == map[] && L.InOrder(nodes.Keys) == []
    ensures forall i | 0 <= i < |blocks| :: !C.Relevant(blocks[i])
  {
    hide Boxes;
    assert |blocks| == 2 && blocks[0] == START.block && blocks[1] == Gate().block;
    assert forall u :: u !in nodes;
    assert nodes.Keys == {};
  }

  /** The level as the queries need it. */
  ghost predicate GateLevel(p: Prepared)
  {
    && p.blockCount == Some(2) && p.groups == [] && p.graphReasons == [] && !p.csvUnknown
    && |p.triggers| == COLLIDERS && (forall t | t in p.triggers :: t == GATE) && p.spawns == [ORIGIN]
    && p.geometryReasons == [] && !p.geometryStop
  }

  method PrepareBlocks() returns (p: Prepared)
    ensures WellPrepared(p) && GateLevel(p)
  {
    hide Boxes, Live, OneEach, CleanLevel, Sources, Spawns, C.NodesOf, C.Components, C.Reported, C.ReadNodes, AllFrom, Gate,
      GraphLevel, Sorted;
    LevelIsClean();
    LevelSources();
    assert |Blocks()| == 2;
    ghost var nodes, read;
    p, nodes, read := PrepareLevel(Some(Blocks()), true, false);
    NoGroups(nodes, read, p.groups, p.graphReasons);
    ghost var made :| OneEach(Sources(Blocks()), made) && multiset(made) == multiset(p.triggers);
    OnlyGates(p.triggers, made);
  }

  // ---------------------------------------------------------------- the run

  const FINISH := Event("gate", "box", true, 100.0, 100.0, 0.0, Sample(100.0, ORIGIN, 1.0))
  const PROFILE := Manifest(1, true, true, 1.0, None, 0.01, 0.1, 0.1)

  /** Standing at the origin. */
  function Path(): (samples: seq<Sample>)
    ensures |samples| == STEPS + 1
    ensures forall i | 0 <= i < |samples| :: samples[i] == Sample(i as real * 0.01, ORIGIN, 1.0)
  {
    seq(STEPS + 1, (i: nat) => Sample(i as real * 0.01, ORIGIN, 1.0))
  }

  function Run(): Evidence { Evidence(4, true, "", 0.0, 0.01, Path(), [FINISH]) }

  function Player(): Ghost { Ghost(8, None, [], Some(Run())) }

  function Submitted(p: Prepared): Submission
  {
    Submission(Player(), Context("", "", 100.0, [], []), Some(p), Some(PROFILE))
  }

  /** All that is asked of the narrow phase: a ball at the centre of the box touches it. */
  predicate TouchesAtCentre(narrow: Narrow) { narrow(0, ORIGIN, ORIGIN, 1.1) == Hit }

  lemma SamplesAreClean(p: Prepared)
    requires GateLevel(p)
    ensures SamplesClean(Player(), Run(), p, PROFILE)
    ensures SamplesOrdered(Path())
  {
    hide Path;
  }

  lemma StartAndFinishAreClean(p: Prepared)
    requires GateLevel(p)
    ensures Finishes([FINISH]) == [FINISH] && Checkpoints([FINISH]) == []
    ensures StartAndFinishClean(Player(), Run(), p, PROFILE, 100.0)
  {
    SquaredSeparates(ORIGIN, ORIGIN);
    hide Path, Squared;
    assert Finishes([FINISH][1..]) == [] && Checkpoints([FINISH][1..]) == [];
    assert ORIGIN in p.spawns;
  }

  predicate Standing(s: Segment)
  {
    s.start.position == ORIGIN && s.end.position == ORIGIN && s.radius == 1.1 && s.start.time <= 100.0
  }

  lemma StandingTouches(s: Segment, narrow: Narrow)
    requires TouchesAtCentre(narrow) && Standing(s)
    ensures Touched(s, 100.0, GATE, narrow) == Hit
  {
    assert Clip(s.start, s.end, 100.0) == ORIGIN;
  }

  lemma {:induction false} NothingBreaks(segments: seq<Segment>, triggers: seq<Trigger>, narrow: Narrow)
    requires TouchesAtCentre(narrow)
    requires (forall s | s in segments :: Standing(s)) && forall t | t in triggers :: t == GATE
    ensures BruteForce(segments, triggers, 100.0, narrow).Swept?
  {
    hide Touched, Standing;
    if segments != [] {
      assert segments[0] in segments;
      StandingTouches(segments[0], narrow);
      NothingBreaks(segments[1..], triggers, narrow);
    }
  }

  lemma {:induction false} AllInReach(triggers: seq<Trigger>, limit: real)
    requires forall t | t in triggers :: t.min.x <= limit
    ensures PartitionPoint(triggers, limit) == |triggers|
  {
    if triggers != [] {
      assert triggers[0] in triggers;
      AllInReach(triggers[1..], limit);
    }
  }

  /** Every collider is within reach of every segment. */
  lemma {:induction false} EveryTestCounts(segments: seq<Segment>, triggers: seq<Trigger>)
    requires (forall s | s in segments :: Standing(s)) && forall t | t in triggers :: t == GATE
    ensures PrunedWork(segments, triggers, 100.0) == |segments| * |triggers|
  {
    hide PartitionPoint;
    if segments != [] {
      EveryTestCounts(segments[1..], triggers);
      assert segments[0] in segments;
      AllInReach(triggers, Reach(segments[0]));
      MoreTests(|segments|, |triggers|);
    }
  }

  lemma MoreTests(n: nat, k: nat)
    ensures k + (n - 1) * k == n * k
  {
  }

  lemma FinishEventIsGood(p: Prepared, narrow: Narrow)
    requires TouchesAtCentre(narrow) && GateLevel(p)
    ensures GoodEvent(Player(), Run(), p, PROFILE, FINISH, narrow, FINISH)
    ensures FinishHit(p.triggers, FINISH, FinishRadius(Player(), PROFILE, FINISH), narrow)
  {
    hide Path;
    var triggers := p.triggers;
    assert triggers[0] in triggers && triggers[|triggers| - 1] in triggers;
    TouchesOwnMeans(triggers, FINISH, EventRadius(Player(), PROFILE, FINISH), narrow);
    LastPairOnPath();
  }

  lemma LastPairOnPath()
    ensures OnPath(Run(), FINISH, PROFILE)
  {
    SquaredSeparates(ORIGIN, ORIGIN);
    BetweenMeans(ORIGIN, ORIGIN, 1.0);
    hide Path, Squared, Between;
    assert Path()[STEPS].time == 100.0;
    assert PathAround(Run(), FINISH, STEPS - 1, 1.0) && PointDistance(Run(), FINISH, STEPS - 1, 1.0) == 0.0;
  }

  lemma PaperworkIsClean(p: Prepared)
    requires GateLevel(p)
    ensures Identified(Submitted(p)) && SnapshotClean(Submitted(p)) && ManifestClean(Submitted(p))
  {
    hide Path;
  }

  lemma ClaimsAreClean(p: Prepared)
    requires GateLevel(p)
    ensures SplitsClean(Run(), Submitted(p).context) && EventsMatchGroups(p.groups, Checkpoints([FINISH]))
  {
    StartAndFinishAreClean(p);
    hide Path, StartAndFinishClean;
  }

  lemma AllStanding()
    ensures forall s | s in Segments(Player(), Run(), PROFILE) :: Standing(s)
    ensures |Segments(Player(), Run(), PROFILE)| == STEPS
  {
    hide Path;
  }

  lemma TooManyTests(p: Prepared, narrow: Narrow)
    requires TouchesAtCentre(narrow) && GateLevel(p)
    ensures var segments := Segments(Player(), Run(), PROFILE);
      && BruteForce(segments, p.triggers, 100.0, narrow).Swept?
      && PrunedWork(segments, p.triggers, 100.0) == STEPS * COLLIDERS
  {
    AllStanding();
    hide Path, BruteForce, PrunedWork, Standing, Segments;
    var segments := Segments(Player(), Run(), PROFILE);
    NothingBreaks(segments, p.triggers, narrow);
    EveryTestCounts(segments, p.triggers);
  }

  lemma RunIsClean(p: Prepared, narrow: Narrow)
    requires TouchesAtCentre(narrow) && GateLevel(p)
    ensures RunClean(Submitted(p), Run(), p, PROFILE, FINISH, narrow)
  {
    ClaimsAreClean(p);
    FinishEventIsGood(p, narrow);
    assert AllGroupsHit(Player(), Run(), p, PROFILE, FINISH, narrow) by {
      TooManyTests(p, narrow);
      hide BruteForce, PrunedWork, Path, Segments, GroupHit;
    }
    hide AllGroupsHit, GoodEvent, FinishHit, Path, FinishRadius, SplitsClean, EventsMatchGroups, Checkpoints;
  }

  /** Nothing about the run is wrong, and its queries do not fit the budget. */
  lemma CleanRunOverBudget(p: Prepared, narrow: Narrow)
    requires TouchesAtCentre(narrow) && GateLevel(p)
    ensures PassMeans(Submitted(p), narrow) && !InBudget(Submitted(p), narrow)
  {
    PaperworkIsClean(p);
    SamplesAreClean(p);
    StartAndFinishAreClean(p);
    RunIsClean(p, narrow);
    TooManyTests(p, narrow);
    hide Identified, SnapshotClean, ManifestClean, SamplesClean, StartAndFinishClean, RunClean, PrunedWork, EventsWork, Path,
      Segments, GateLevel;
  }

  /** From the two blocks to the verdict: the run is as it should be and is not passed. */
  method Judge(narrow: Narrow) returns (p: Prepared, report: Report)
    requires TouchesAtCentre(narrow)
    ensures PassMeans(Submitted(p), narrow) && report.Valid() && report.status != Pass
  {
    p := PrepareBlocks();
    CleanRunOverBudget(p, narrow);
    assert Submitted(p).prepared == Some(p);
    hide PassMeans, InBudget, WellPrepared, Submitted, FatalFor, Cause, Fails;
    report := ValidatePrepared(Submitted(p), narrow);
  }
}
