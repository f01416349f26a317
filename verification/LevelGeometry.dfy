/**
 `prepare_level` (crates/core/src/ghost_validation.rs): collects the triggers and spawns of a level
 under a vertex budget, records why the geometry is incomplete, and sorts the triggers for the query.
 A collider arrives with its transformed vertices and its hull, or without them when the transform
 or the hull construction failed.
 */
module LevelGeometry {
  import opened Wrappers
  import opened Sorting
  import opened SweptQuery
  import opened GhostVerdict
  import C = CheckpointGraph
  import L = Lexicographic

  const VERTEX_BUDGET: nat := 250_000
  const COLLIDER_VERTICES: nat := 4096
  const START_IDS: set<int> := {1, 1363, 2256, 2259}
  const FINISH_IDS: set<int> := {2, 1273, 1274, 1412, 1616}

  datatype Collider = Collider(shape: string, convex: bool, enabled: bool, vertices: nat,
                               points: Option<seq<Vec>>, hull: Option<nat>)

  datatype Definition = Definition(unsupported: bool, spawns: seq<Option<Vec>>, colliders: seq<Collider>)

  /**
   A block as the checkpoint graph reads it, what the manifest knows of it, and whether another id
   than `id0` controls it.
   */
  datatype LevelBlock = LevelBlock(block: C.Block, logic: bool, definition: Option<Definition>)

  ghost predicate Starts(b: LevelBlock) { b.block.id in {1, 1363, 2256, 2259} }

  ghost predicate Ends(b: LevelBlock) { b.block.id in {2, 1273, 1274, 1412, 1616} }

  ghost predicate Concerned(b: LevelBlock)
  {
    (C.Relevant(b.block) && C.Active(b.block)) || Ends(b) || Starts(b)
  }

  function GraphLevel(blocks: Option<seq<LevelBlock>>): C.Level
  {
    match blocks
    case None => C.NotAnArray
    case Some(bs) => C.Blocks(seq(|bs|, (i: nat) requires i < |bs| => bs[i].block))
  }

  /** `min` and `max` bound the points and are attained on every axis. */
  ghost predicate TightBox(points: seq<Vec>, min: Vec, max: Vec)
  {
    && (forall q | q in points :: min.x <= q.x <= max.x && min.y <= q.y <= max.y && min.z <= q.z <= max.z)
    && (exists q :: q in points && q.x == min.x) && (exists q :: q in points && q.x == max.x)
    && (exists q :: q in points && q.y == min.y) && (exists q :: q in points && q.y == max.y)
    && (exists q :: q in points && q.z == min.z) && (exists q :: q in points && q.z == max.z)
  }

  ghost predicate TriggerFrom(b: LevelBlock, c: Collider, t: Trigger)
  {
    && c.convex && c.enabled && c.vertices <= 4096 && c.points.Some? && c.hull.Some?
    && t.uid == b.block.uid.GetOr("") && t.shape == c.shape && t.finish == Ends(b) && t.hull == c.hull.value
    && (c.points.value != [] ==> TightBox(c.points.value, t.min, t.max))
  }

  ghost predicate FromLevelBlocks(blocks: seq<LevelBlock>, t: Trigger)
  {
    exists b, c :: b in blocks && HasCollider(b, c) && TriggerFrom(b, c, t)
  }

  ghost predicate HasCollider(b: LevelBlock, c: Collider)
  {
    Concerned(b) && !Starts(b) && b.definition.Some? && c in b.definition.value.colliders
  }

  // ---------------------------------------------------------------- what a whole level amounts to

  /** The colliders of a block that are to become triggers, in order. */
  ghost function Live(b: LevelBlock, colliders: seq<Collider>): (r: seq<(LevelBlock, Collider)>)
  {
    if colliders == [] then []
    else (var c := colliders[|colliders| - 1];
          Live(b, colliders[..|colliders| - 1]) + if c.convex && c.enabled then [(b, c)] else [])
  }

  ghost function BlockSources(b: LevelBlock): seq<(LevelBlock, Collider)>
  {
    if Concerned(b) && !Starts(b) && b.definition.Some? then Live(b, b.definition.value.colliders) else []
  }

  ghost function Sources(blocks: seq<LevelBlock>): seq<(LevelBlock, Collider)>
  {
    if blocks == [] then [] else Sources(blocks[..|blocks| - 1]) + BlockSources(blocks[|blocks| - 1])
  }

  ghost function Vertices(sources: seq<(LevelBlock, Collider)>): nat
  {
    if sources == [] then 0 else Vertices(sources[..|sources| - 1]) + sources[|sources| - 1].1.vertices
  }

  /** What is wrong with a collider, under the name it is reported by. */
  ghost predicate ColliderCause(c: Collider, r: string)
  {
    || (r == "nonconvex_trigger" && !c.convex)
    || (c.convex && c.enabled &&
        (if c.vertices > 4096 then r == "geometry_budget"
         else if c.points.None? then r == "invalid_transform"
         else r == "unsupported_geometry" && c.hull.None?))
  }

  ghost predicate CollidersCause(colliders: seq<Collider>, r: string)
  {
    exists c :: c in colliders && ColliderCause(c, r)
  }

  /** What is wrong with the definition of a block; a start keeps its colliders to itself. */
  ghost predicate DefinitionCause(b: LevelBlock, r: string)
    requires b.definition.Some?
  {
    || (r == "dynamic_or_unsupported_trigger" && b.definition.value.unsupported)
    || (!Starts(b) && CollidersCause(b.definition.value.colliders, r))
    || (!Starts(b) && r == "unsupported_shape" && BlockSources(b) == [])
  }

  /** What is wrong with a block. */
  ghost predicate BlockCause(b: LevelBlock, r: string)
  {
    || (r == "logic_controlled_trigger" && b.logic)
    || (r == "unsupported_geometry" && Concerned(b) && b.definition.None?)
    || (Concerned(b) && b.definition.Some? && DefinitionCause(b, r))
  }

  ghost predicate LevelCause(blocks: seq<LevelBlock>, r: string)
  {
    exists b :: b in blocks && BlockCause(b, r)
  }

  ghost predicate GoodCollider(c: Collider)
  {
    c.convex && (c.enabled ==> c.vertices <= 4096 && c.points.Some? && c.hull.Some?)
  }

  ghost predicate AllGood(colliders: seq<Collider>) { forall c | c in colliders :: GoodCollider(c) }

  ghost predicate GoodBlock(b: LevelBlock)
  {
    && !b.logic
    && (Concerned(b) ==>
          && b.definition.Some? && !b.definition.value.unsupported
          && (!Starts(b) ==> AllGood(b.definition.value.colliders) && BlockSources(b) != []))
  }

  /** A block is good exactly when nothing is wrong with it. */
  lemma GoodMeans(b: LevelBlock)
    ensures GoodBlock(b) <==> forall r :: !BlockCause(b, r)
  {
    hide BlockSources, Concerned, Starts, AllGood, CollidersCause;
    if b.definition.Some? {
      AllGoodMeans(b.definition.value.colliders);
    }
    if !GoodBlock(b) {
      assert b.logic ==> BlockCause(b, "logic_controlled_trigger");
      assert Concerned(b) && b.definition.None? ==> BlockCause(b, "unsupported_geometry");
      if Concerned(b) && b.definition.Some? {
        assert b.definition.value.unsupported ==> BlockCause(b, "dynamic_or_unsupported_trigger");
        assert !Starts(b) && BlockSources(b) == [] ==> BlockCause(b, "unsupported_shape");
        if !Starts(b) && !AllGood(b.definition.value.colliders) {
          var r :| CollidersCause(b.definition.value.colliders, r);
          assert BlockCause(b, r);
        }
      }
    }
  }

  lemma AllGoodMeans(colliders: seq<Collider>)
    ensures AllGood(colliders) <==> forall r :: !CollidersCause(colliders, r)
  {
    forall c | c in colliders ensures GoodCollider(c) <==> forall r :: !ColliderCause(c, r) {
      GoodColliderMeans(c);
    }
    hide ColliderCause, GoodCollider;
    if !AllGood(colliders) {
      var c :| c in colliders && !GoodCollider(c);
      var r :| ColliderCause(c, r);
      assert CollidersCause(colliders, r);
    }
  }

  lemma GoodColliderMeans(c: Collider)
    ensures GoodCollider(c) <==> forall r :: !ColliderCause(c, r)
  {
    if !GoodCollider(c) {
      var r := if !c.convex then "nonconvex_trigger" else if c.vertices > 4096 then "geometry_budget"
        else if c.points.None? then "invalid_transform" else "unsupported_geometry";
      assert ColliderCause(c, r);
    }
  }

  /** Nothing about the level keeps its geometry from being complete. */
  ghost predicate CleanLevel(blocks: seq<LevelBlock>)
  {
    && |blocks| <= MAX_BLOCKS && (forall b | b in blocks :: GoodBlock(b))
    && Vertices(Sources(blocks)) <= 250_000
  }

  lemma {:induction false} VerticesAppend(a: seq<(LevelBlock, Collider)>, b: seq<(LevelBlock, Collider)>)
    ensures Vertices(a + b) == Vertices(a) + Vertices(b)
  {
    if b == [] {
      assert a + b == a;
    } else {
      var k := |b| - 1;
      assert (a + b)[..|a + b| - 1] == a + b[..k];
      VerticesAppend(a, b[..k]);
    }
  }

  lemma {:induction false} LiveVertices(b: LevelBlock, colliders: seq<Collider>, i: nat)
    requires i <= |colliders|
    ensures Vertices(Live(b, colliders[..i])) <= Vertices(Live(b, colliders))
    decreases |colliders| - i
  {
    if i < |colliders| {
      LiveStep(b, colliders, i);
      var c := colliders[i];
      VerticesAppend(Live(b, colliders[..i]), if c.convex && c.enabled then [(b, c)] else []);
      hide Live;
      LiveVertices(b, colliders, i + 1);
    } else {
      assert colliders[..i] == colliders;
    }
  }

  lemma {:induction false} LevelVertices(blocks: seq<LevelBlock>, i: nat)
    requires i <= |blocks|
    ensures Vertices(Sources(blocks[..i])) <= Vertices(Sources(blocks))
    decreases |blocks| - i
  {
    if i < |blocks| {
      BlockStep(blocks, i);
      VerticesAppend(Sources(blocks[..i]), BlockSources(blocks[i]));
      hide Sources, BlockSources;
      LevelVertices(blocks, i + 1);
    } else {
      assert blocks[..i] == blocks;
    }
  }

  ghost function BlockSpawns(b: LevelBlock): seq<Vec>
  {
    if Starts(b) && b.definition.Some? then Present(b.definition.value.spawns) else []
  }

  ghost function Spawns(blocks: seq<LevelBlock>): seq<Vec>
  {
    if blocks == [] then [] else Spawns(blocks[..|blocks| - 1]) + BlockSpawns(blocks[|blocks| - 1])
  }

  /** One trigger per collider, made from it. */
  ghost predicate OneEach(sources: seq<(LevelBlock, Collider)>, triggers: seq<Trigger>)
  {
    && |triggers| == |sources|
    && forall k | 0 <= k < |sources| :: TriggerFrom(sources[k].0, sources[k].1, triggers[k])
  }

  lemma OneMore(sources: seq<(LevelBlock, Collider)>, triggers: seq<Trigger>, b: LevelBlock, c: Collider, t: Trigger)
    requires OneEach(sources, triggers) && TriggerFrom(b, c, t)
    ensures OneEach(sources + [(b, c)], triggers + [t])
  {
    hide TriggerFrom;
  }

  lemma LiveStep(b: LevelBlock, colliders: seq<Collider>, i: nat)
    requires i < |colliders|
    ensures var c := colliders[i];
      Live(b, colliders[..i + 1]) == Live(b, colliders[..i]) + if c.convex && c.enabled then [(b, c)] else []
  {
    assert colliders[..i + 1][..i] == colliders[..i];
  }

  lemma BlockStep(blocks: seq<LevelBlock>, i: nat)
    requires i < |blocks|
    ensures Sources(blocks[..i + 1]) == Sources(blocks[..i]) + BlockSources(blocks[i])
    ensures Spawns(blocks[..i + 1]) == Spawns(blocks[..i]) + BlockSpawns(blocks[i])
  {
    hide BlockSources, BlockSpawns;
    assert blocks[..i + 1][..i] == blocks[..i];
  }

  // ---------------------------------------------------------------- the preparation

  function Noted(reasons: seq<string>, r: string): (n: seq<string>)
    ensures n != [] && forall x :: x in n <==> x in reasons || x == r
  {
    if r in reasons then reasons else reasons + [r]
  }

  method BoxOf(points: seq<Vec>) returns (min: Vec, max: Vec)
    ensures points != [] ==> TightBox(points, min, max)
  {
    if points == [] {
      return Vec(0.0, 0.0, 0.0), Vec(0.0, 0.0, 0.0);
    }
    min, max := points[0], points[0];
    for i := 1 to |points|
      invariant TightBox(points[..i], min, max)
    {
      var q := points[i];
      assert points[..i + 1] == points[..i] + [q];
      WiderBox(points[..i], min, max, q);
      min := Vec(Min(min.x, q.x), Min(min.y, q.y), Min(min.z, q.z));
      max := Vec(Max(max.x, q.x), Max(max.y, q.y), Max(max.z, q.z));
    }
    assert points[..|points|] == points;
  }

  lemma WiderBox(points: seq<Vec>, min: Vec, max: Vec, q: Vec)
    requires TightBox(points, min, max)
    ensures TightBox(points + [q], Vec(Min(min.x, q.x), Min(min.y, q.y), Min(min.z, q.z)),
                     Vec(Max(max.x, q.x), Max(max.y, q.y), Max(max.z, q.z)))
  {
    assert forall v | v in points :: v in points + [q];
    assert q in points + [q];
  }

  /** What preparation has gathered: `complete` is the source's `geometry_complete`. */
  datatype Progress = Progress(triggers: seq<Trigger>, reasons: seq<string>, complete: bool, budget: nat)

  ghost predicate AllFrom(blocks: seq<LevelBlock>, triggers: seq<Trigger>)
  {
    forall t | t in triggers :: FromLevelBlocks(blocks, t)
  }

  /** A reason always comes with incompleteness; incompleteness may predate the reasons. */
  ghost predicate Consistent(blocks: seq<LevelBlock>, start: bool, g: Progress)
  {
    AllFrom(blocks, g.triggers) && (g.complete <==> start && g.reasons == [])
  }

  function Incomplete(g: Progress, r: string): Progress
  {
    g.(complete := false, reasons := Noted(g.reasons, r))
  }

  /** One collider: a trigger, a reason, or nothing at all when its attributes are off. */
  method AddCollider(ghost blocks: seq<LevelBlock>, ghost start: bool, b: LevelBlock, c: Collider, g: Progress)
      returns (g': Progress, included: bool, stop: bool)
    requires b in blocks && HasCollider(b, c) && Consistent(blocks, start, g)
    ensures included <==> c.convex && c.enabled
    ensures stop <==> included && c.vertices > g.budget
    ensures stop ==> AllFrom(blocks, g'.triggers) && g'.reasons != []
    ensures !stop ==> Consistent(blocks, start, g') && g'.budget == g.budget - if included then c.vertices else 0
    ensures g'.triggers == g.triggers || exists t :: g'.triggers == g.triggers + [t] && TriggerFrom(b, c, t)
    ensures g'.reasons == [] ==> g.reasons == [] && |g'.triggers| == |g.triggers| + if included then 1 else 0
    ensures forall r :: r in g'.reasons <==>
              r in g.reasons || (if stop then r == "geometry_budget" else ColliderCause(c, r))
  {
    hide TightBox;
    g', included, stop := g, false, false;
    if !c.convex {
      g' := Incomplete(g, "nonconvex_trigger");
      return;
    }
    if !c.enabled {
      return;
    }
    included := true;
    if c.vertices > g.budget {
      g' := g.(reasons := Noted(g.reasons, "geometry_budget"));
      stop := true;
      return;
    }
    g' := g.(budget := g.budget - c.vertices);
    if c.vertices > COLLIDER_VERTICES {
      g' := Incomplete(g', "geometry_budget");
    } else if c.points.None? {
      g' := Incomplete(g', "invalid_transform");
    } else if c.hull.None? {
      g' := Incomplete(g', "unsupported_geometry");
    } else {
      var min, max := BoxOf(c.points.value);
      var t := Trigger(b.block.uid.GetOr(""), c.shape, b.block.id in FINISH_IDS, min, max, c.hull.value);
      assert TriggerFrom(b, c, t);
      g' := g'.(triggers := g.triggers + [t]);
    }
  }

  /**
   One block: nothing, its spawns, or the triggers of its colliders; without a reason, one for each live
   one.  A reason is given exactly for a block that is not good or too large.
   */
  method AddBlock(ghost blocks: seq<LevelBlock>, ghost start: bool, b: LevelBlock, g: Progress, spawns: seq<Vec>,
                  ghost sources: seq<(LevelBlock, Collider)>)
      returns (g': Progress, spawns': seq<Vec>, stop: bool)
    requires b in blocks && Consistent(blocks, start, g)
    requires g.reasons == [] ==> OneEach(sources, g.triggers)
    ensures stop ==> AllFrom(blocks, g'.triggers) && g'.reasons != []
    ensures !stop ==> Consistent(blocks, start, g')
    ensures g'.reasons == [] ==> g.reasons == [] && OneEach(sources + BlockSources(b), g'.triggers)
    ensures !stop ==> forall r :: r in g'.reasons <==> r in g.reasons || BlockCause(b, r)
    ensures stop ==> forall r | r in g'.reasons :: r in g.reasons || BlockCause(b, r) || r == "geometry_budget"
    ensures stop ==> "geometry_budget" in g'.reasons
    ensures stop <==> Vertices(BlockSources(b)) > g.budget
    ensures !stop ==> g'.budget == g.budget - Vertices(BlockSources(b))
    ensures spawns' == spawns + BlockSpawns(b)
  {
    hide Consistent, AllFrom, TriggerFrom, OneEach, Live, DefinitionCause, Noted, Present;
    g', spawns', stop := g, spawns, false;
    KeepsConsistent(blocks, start, g);
    if b.logic {
      g' := Incomplete(g', "logic_controlled_trigger");
    }
    assert sources + [] == sources && spawns + [] == spawns && Vertices([]) == 0;
    ConcernedMeans(b);
    hide Concerned, Starts, Ends;
    var active := b.block.id in C.CHECKPOINT_IDS || (b.block.id in C.GATE_IDS && b.block.gateOn);
    if !active && b.block.id !in FINISH_IDS && b.block.id !in START_IDS {
      return;
    }
    KeepsConsistent(blocks, start, g');
    if b.definition.None? {
      g' := Incomplete(g', "unsupported_geometry");
      return;
    }
    g', spawns', stop := AddDefined(blocks, start, b, g', spawns, sources);
  }

  /** What the manifest knows of a concerned block: its spawns, or its triggers. */
  method AddDefined(ghost blocks: seq<LevelBlock>, ghost start: bool, b: LevelBlock, g: Progress, spawns: seq<Vec>,
                    ghost sources: seq<(LevelBlock, Collider)>)
      returns (g': Progress, spawns': seq<Vec>, stop: bool)
    requires b in blocks && Concerned(b) && b.definition.Some? && Consistent(blocks, start, g)
    requires g.reasons == [] ==> OneEach(sources, g.triggers)
    ensures stop ==> AllFrom(blocks, g'.triggers) && g'.reasons != []
    ensures !stop ==> Consistent(blocks, start, g')
    ensures g'.reasons == [] ==> g.reasons == [] && OneEach(sources + BlockSources(b), g'.triggers)
    ensures !stop ==> forall r :: r in g'.reasons <==> r in g.reasons || DefinitionCause(b, r)
    ensures stop ==> forall r | r in g'.reasons :: r in g.reasons || DefinitionCause(b, r) || r == "geometry_budget"
    ensures stop ==> "geometry_budget" in g'.reasons
    ensures stop <==> Vertices(BlockSources(b)) > g.budget
    ensures !stop ==> g'.budget == g.budget - Vertices(BlockSources(b))
    ensures spawns' == spawns + BlockSpawns(b)
  {
    hide Consistent, AllFrom, TriggerFrom, OneEach, Live, CollidersCause, Noted, Present;
    ConcernedMeans(b);
    hide Concerned, Starts, Ends;
    g', spawns', stop := g, spawns, false;
    assert sources + [] == sources && spawns + [] == spawns && Vertices([]) == 0;
    KeepsConsistent(blocks, start, g);
    var d := b.definition.value;
    if d.unsupported {
      g' := Incomplete(g', "dynamic_or_unsupported_trigger");
    }
    if b.block.id in START_IDS {
      spawns' := AddSpawns(spawns, d.spawns);
      return;
    }
    g', stop := AddShapes(blocks, start, b, g', sources);
  }

  lemma ConcernedMeans(b: LevelBlock)
    ensures var id := b.block.id;
      && (Starts(b) <==> id in START_IDS)
      && (Concerned(b) <==> id in C.CHECKPOINT_IDS || (id in C.GATE_IDS && b.block.gateOn)
                            || id in FINISH_IDS || id in START_IDS)
  {
    C.Tables(b.block.id);
  }

  /** The colliders of a block, which is to have a live one. */
  method AddShapes(ghost blocks: seq<LevelBlock>, ghost start: bool, b: LevelBlock, g: Progress,
                   ghost sources: seq<(LevelBlock, Collider)>) returns (g': Progress, stop: bool)
    requires b in blocks && Concerned(b) && !Starts(b) && b.definition.Some? && Consistent(blocks, start, g)
    requires g.reasons == [] ==> OneEach(sources, g.triggers)
    ensures stop ==> AllFrom(blocks, g'.triggers) && g'.reasons != []
    ensures !stop ==> Consistent(blocks, start, g')
    ensures g'.reasons == [] ==> g.reasons == [] && OneEach(sources + BlockSources(b), g'.triggers)
    ensures !stop ==> forall r :: r in g'.reasons <==>
              r in g.reasons || CollidersCause(b.definition.value.colliders, r) ||
              (r == "unsupported_shape" && BlockSources(b) == [])
    ensures stop ==> ("geometry_budget" in g'.reasons && forall r | r in g'.reasons ::
              r in g.reasons || CollidersCause(b.definition.value.colliders, r) || r == "geometry_budget")
    ensures stop <==> Vertices(BlockSources(b)) > g.budget
    ensures !stop ==> g'.budget == g.budget - Vertices(BlockSources(b))
  {
    hide Consistent, AllFrom, OneEach, Live, CollidersCause, Vertices, Concerned, Starts, Noted;
    var any := false;
    g', any, stop := AddColliders(blocks, start, b, g, sources);
    if stop {
      return;
    }
    KeepsConsistent(blocks, start, g');
    if !any {
      g' := Incomplete(g', "unsupported_shape");
    }
  }

  method AddColliders(ghost blocks: seq<LevelBlock>, ghost start: bool, b: LevelBlock, g: Progress,
                      ghost sources: seq<(LevelBlock, Collider)>) returns (g': Progress, any: bool, stop: bool)
    requires b in blocks && Concerned(b) && !Starts(b) && b.definition.Some? && Consistent(blocks, start, g)
    requires g.reasons == [] ==> OneEach(sources, g.triggers)
    ensures stop ==> AllFrom(blocks, g'.triggers) && g'.reasons != []
    ensures !stop ==> Consistent(blocks, start, g') && (any <==> Live(b, b.definition.value.colliders) != [])
    ensures g'.reasons == [] ==> g.reasons == [] && OneEach(sources + Live(b, b.definition.value.colliders), g'.triggers)
    ensures !stop ==> forall r :: r in g'.reasons <==> r in g.reasons || CollidersCause(b.definition.value.colliders, r)
    ensures stop ==> ("geometry_budget" in g'.reasons && forall r | r in g'.reasons ::
              r in g.reasons || CollidersCause(b.definition.value.colliders, r) || r == "geometry_budget")
    ensures stop <==> Vertices(Live(b, b.definition.value.colliders)) > g.budget
    ensures !stop ==> g'.budget == g.budget - Vertices(Live(b, b.definition.value.colliders))
  {
    var colliders := b.definition.value.colliders;
    assert Live(b, colliders[..0]) == [] && sources + [] == sources && Vertices([]) == 0;
    assert Recorded(g.reasons, g.reasons, colliders[..0]);
    hide Consistent, AllFrom, TriggerFrom, OneEach, Concerned, Starts, Live, Vertices, ColliderCause, CollidersCause, Recorded;
    g', any, stop := g, false, false;
    for i := 0 to |colliders|
      invariant Consistent(blocks, start, g')
      invariant Recorded(g.reasons, g'.reasons, colliders[..i])
      invariant g'.budget == g.budget - Vertices(Live(b, colliders[..i]))
      invariant any <==> Live(b, colliders[..i]) != []
      invariant g'.reasons == [] ==> g.reasons == [] && OneEach(sources + Live(b, colliders[..i]), g'.triggers)
    {
      assert HasCollider(b, colliders[i]);
      var included;
      ghost var before := g';
      g', included, stop := AddCollider(blocks, start, b, colliders[i], g');
      LiveMore(b, colliders, i);
      RecordedMore(g.reasons, before.reasons, g'.reasons, colliders, i, stop);
      if stop {
        return;
      }
      if g'.reasons == [] {
        MoreTriggers(sources, b, colliders, i, before.triggers, g'.triggers);
      }
      any := any || included;
    }
    assert colliders[..|colliders|] == colliders;
    RecordedMeans(g.reasons, g'.reasons, colliders);
  }

  /** The reasons there were, and those of the colliders. */
  ghost predicate Recorded(was: seq<string>, now: seq<string>, colliders: seq<Collider>)
  {
    forall r :: r in now <==> r in was || CollidersCause(colliders, r)
  }

  lemma RecordedMeans(was: seq<string>, now: seq<string>, colliders: seq<Collider>)
    requires Recorded(was, now, colliders)
    ensures forall r :: r in now <==> r in was || CollidersCause(colliders, r)
  {
  }

  lemma RecordedMore(was: seq<string>, before: seq<string>, now: seq<string>, colliders: seq<Collider>, i: nat, stop: bool)
    requires i < |colliders| && Recorded(was, before, colliders[..i])
    requires forall r :: r in now <==> r in before || (if stop then r == "geometry_budget" else ColliderCause(colliders[i], r))
    ensures !stop ==> Recorded(was, now, colliders[..i + 1])
    ensures stop ==> ("geometry_budget" in now
              && forall r | r in now :: r in was || CollidersCause(colliders, r) || r == "geometry_budget")
  {
    CausesMore(colliders, i);
    hide ColliderCause, CollidersCause;
  }

  lemma CausesMore(colliders: seq<Collider>, i: nat)
    requires i < |colliders|
    ensures forall r :: CollidersCause(colliders[..i + 1], r) <==>
              CollidersCause(colliders[..i], r) || ColliderCause(colliders[i], r)
    ensures forall r :: CollidersCause(colliders[..i], r) ==> CollidersCause(colliders, r)
  {
    hide ColliderCause;
    assert colliders[..i + 1] == colliders[..i] + [colliders[i]];
  }

  lemma MoreTriggers(sources: seq<(LevelBlock, Collider)>, b: LevelBlock, colliders: seq<Collider>, i: nat,
                     before: seq<Trigger>, after: seq<Trigger>)
    requires i < |colliders| && OneEach(sources + Live(b, colliders[..i]), before)
    requires after == before || exists t :: after == before + [t] && TriggerFrom(b, colliders[i], t)
    requires |after| == |before| + if colliders[i].convex && colliders[i].enabled then 1 else 0
    ensures OneEach(sources + Live(b, colliders[..i + 1]), after)
  {
    LiveStep(b, colliders, i);
    hide Live, OneEach, TriggerFrom;
    var live, c := Live(b, colliders[..i]), colliders[i];
    if c.convex && c.enabled {
      var t :| after == before + [t] && TriggerFrom(b, c, t);
      OneMore(sources + live, before, b, c, t);
      assert sources + live + [(b, c)] == sources + (live + [(b, c)]);
    } else {
      assert live + [] == live;
    }
  }

  lemma LiveMore(b: LevelBlock, colliders: seq<Collider>, i: nat)
    requires i < |colliders|
    ensures var c := colliders[i];
      Vertices(Live(b, colliders[..i])) + (if c.convex && c.enabled then c.vertices else 0)
      == Vertices(Live(b, colliders[..i + 1])) <= Vertices(Live(b, colliders))
    ensures Live(b, colliders[..i + 1]) != [] <==> Live(b, colliders[..i]) != [] || (colliders[i].convex && colliders[i].enabled)
  {
    assert colliders[..i + 1] == colliders[..i] + [colliders[i]];
    LiveStep(b, colliders, i);
    var c := colliders[i];
    VerticesAppend(Live(b, colliders[..i]), if c.convex && c.enabled then [(b, c)] else []);
    assert [(b, c)][..0] == [];
    LiveVertices(b, colliders, i + 1);
    hide Live;
  }

  lemma KeepsConsistent(blocks: seq<LevelBlock>, start: bool, g: Progress)
    requires Consistent(blocks, start, g)
    ensures forall r :: Consistent(blocks, start, Incomplete(g, r))
  {
  }

  ghost function Present(spawns: seq<Option<Vec>>): seq<Vec>
  {
    if spawns == [] then []
    else Present(spawns[..|spawns| - 1]) + if spawns[|spawns| - 1].Some? then [spawns[|spawns| - 1].value] else []
  }

  /** The spawns whose transform succeeds, in order. */
  method AddSpawns(spawns: seq<Vec>, given: seq<Option<Vec>>) returns (all: seq<Vec>)
    ensures all == spawns + Present(given)
  {
    all := spawns;
    for i := 0 to |given|
      invariant all == spawns + Present(given[..i])
    {
      assert given[..i + 1][..i] == given[..i];
      if given[i].Some? {
        all := all + [given[i].value];
      }
    }
    assert given[..|given|] == given;
  }

  /**
   The query may rely on what is prepared, and an early stop always says why.  A level that gives no
   geometry reason has one trigger for each live collider and no other, and those are exactly the clean
   levels; the spawns are those of the start blocks; the groups and their reasons are those of the
   checkpoint graph.
   */
  method PrepareLevel(blocks: Option<seq<LevelBlock>>, withManifest: bool, csvUnknown: bool)
      returns (p: Prepared, ghost nodes: map<C.Uid, C.Node>, ghost read: seq<C.Uid>)
    ensures WellPrepared(p) && p.csvUnknown == csvUnknown
    ensures p.blockCount == if blocks.Some? then Some(|blocks.value|) else None
    ensures blocks.Some? ==> AllFrom(blocks.value, p.triggers)
    ensures withManifest ==> (p.geometryComplete && !p.geometryStop <==>
                              p.graphReasons == [] && !csvUnknown && p.geometryReasons == [])
    ensures withManifest ==> (p.geometryReasons == [] <==> blocks.Some? && CleanLevel(blocks.value))
    ensures withManifest && !p.geometryStop ==>
      blocks.Some? && forall r :: r in p.geometryReasons <==> LevelCause(blocks.value, r)
    ensures withManifest && p.geometryStop ==>
      (if blocks.None? then p.geometryReasons == ["unsupported_level_format"]
       else "geometry_budget" in p.geometryReasons &&
            forall r | r in p.geometryReasons :: r == "geometry_budget" || LevelCause(blocks.value, r))
    ensures withManifest ==> (p.geometryStop <==>
      blocks.None? || |blocks.value| > MAX_BLOCKS || Vertices(Sources(blocks.value)) > 250_000)
    ensures withManifest && p.geometryReasons == [] ==>
      (blocks.Some? && exists made :: OneEach(Sources(blocks.value), made) && multiset(made) == multiset(p.triggers))
    ensures withManifest && !p.geometryStop ==> blocks.Some? && p.spawns == Spawns(blocks.value)
    ensures blocks.Some? && |blocks.value| <= C.MAX_BLOCKS ==>
      && C.NodesOf(GraphLevel(blocks).blocks, nodes) && C.Components(nodes, read, p.groups)
      && read == L.InOrder(nodes.Keys)[..C.ReadNodes(L.InOrder(nodes.Keys), nodes, C.MAX_LINKS)]
      && forall r :: r in p.graphReasons <==> C.Reported(GraphLevel(blocks).blocks, nodes, read, r)
  {
    hide Consistent, AllFrom, Sort, Sorted, OneEach, BlockSources, BlockSpawns, LevelCause, Vertices,
      C.NodesOf, C.Components, C.Reported, C.ReadNodes;
    var graph;
    graph, nodes, read := C.CheckpointGraph(GraphLevel(blocks));
    var groups, graphReasons := graph.groups, graph.reasons;
    var start := graphReasons == [] && !csvUnknown;
    var count := if blocks.Some? then Some(|blocks.value|) else None;
    NothingYet(blocks, start);
    if !withManifest {
      p := Prepared(count, groups, graphReasons, csvUnknown, [], [], start, [], false);
      return;
    }
    if blocks.None? {
      p := Prepared(count, groups, graphReasons, csvUnknown, [], [], start, ["unsupported_level_format"], true);
      return;
    }
    if |blocks.value| > MAX_BLOCKS {
      p := Prepared(count, groups, graphReasons, csvUnknown, [], [], start, ["geometry_budget"], true);
      return;
    }
    var g, spawns, stop := AddBlocks(blocks.value, start);
    if stop {
      // The triggers stay unsorted: validation returns on the stop before any query.
      p := Prepared(count, groups, graphReasons, csvUnknown, g.triggers, spawns, g.complete, g.reasons, true);
      return;
    }
    FinallyConsistent(blocks.value, start, g);
    SortedTriggers(blocks.value, g.triggers);
    NoCause(blocks.value, g.reasons);
    p := Prepared(count, groups, graphReasons, csvUnknown, Sort(g.triggers, LowXLeq), spawns, g.complete, g.reasons, false);
  }

  method AddBlocks(blocks: seq<LevelBlock>, start: bool) returns (g: Progress, spawns: seq<Vec>, stop: bool)
    ensures stop ==> AllFrom(blocks, g.triggers) && g.reasons != []
    ensures !stop ==> Consistent(blocks, start, g) && spawns == Spawns(blocks)
    ensures g.reasons == [] ==> OneEach(Sources(blocks), g.triggers)
    ensures stop <==> Vertices(Sources(blocks)) > 250_000
    ensures !stop ==> forall r :: r in g.reasons <==> LevelCause(blocks, r)
    ensures stop ==> ("geometry_budget" in g.reasons &&
              forall r | r in g.reasons :: r == "geometry_budget" || LevelCause(blocks, r))
  {
    NothingYet(Some(blocks), start);
    hide Consistent, AllFrom, OneEach, BlockSources, BlockSpawns, BlockCause;
    assert Vertices([]) == 0;
    g, spawns, stop := Progress([], [], start, VERTEX_BUDGET), [], false;
    for i := 0 to |blocks|
      invariant Consistent(blocks, start, g) && spawns == Spawns(blocks[..i])
      invariant g.reasons == [] ==> OneEach(Sources(blocks[..i]), g.triggers)
      invariant forall r :: r in g.reasons <==> LevelCause(blocks[..i], r)
      invariant g.budget == VERTEX_BUDGET - Vertices(Sources(blocks[..i])) && !stop
    {
      BlockStep(blocks, i);
      VerticesAppend(Sources(blocks[..i]), BlockSources(blocks[i]));
      LevelVertices(blocks, i + 1);
      assert blocks[..i + 1] == blocks[..i] + [blocks[i]];
      g, spawns, stop := AddBlock(blocks, start, blocks[i], g, spawns, Sources(blocks[..i]));
      if stop {
        return;
      }
    }
    assert blocks[..|blocks|] == blocks;
  }

  lemma NothingYet(blocks: Option<seq<LevelBlock>>, start: bool)
    ensures Sorted<Trigger>([], LowXLeq)
    ensures blocks.Some? ==> AllFrom(blocks.value, []) && Consistent(blocks.value, start, Progress([], [], start, VERTEX_BUDGET))
    ensures OneEach([], [])
  {
  }

  lemma NoCause(blocks: seq<LevelBlock>, reasons: seq<string>)
    requires forall r :: r in reasons <==> LevelCause(blocks, r)
    ensures reasons == [] <==> forall b | b in blocks :: GoodBlock(b)
  {
    hide GoodBlock, BlockCause;
    forall b | b in blocks ensures GoodBlock(b) ==> forall r :: !BlockCause(b, r) {
      GoodMeans(b);
    }
    if reasons != [] {
      assert reasons[0] in reasons;
      assert LevelCause(blocks, reasons[0]);
    }
    forall b | reasons == [] && b in blocks ensures GoodBlock(b) {
      assert forall r :: BlockCause(b, r) ==> LevelCause(blocks, r);
      GoodMeans(b);
    }
  }

  lemma FinallyConsistent(blocks: seq<LevelBlock>, start: bool, g: Progress)
    requires Consistent(blocks, start, g)
    ensures AllFrom(blocks, g.triggers) && (g.complete <==> start && g.reasons == [])
  {
  }

  lemma SortedTriggers(blocks: seq<LevelBlock>, triggers: seq<Trigger>)
    requires AllFrom(blocks, triggers)
    ensures Sorted(Sort(triggers, LowXLeq), LowXLeq) && AllFrom(blocks, Sort(triggers, LowXLeq))
  {
    SortSorted(triggers, LowXLeq);
    SortKeepsElements(triggers, LowXLeq);
  }
}
