/**
 Checkpoint groups of a level (`checkpoint_graph` in crates/core/src/ghost_validation.rs).

 Blocks are the normalised JSON objects reduced to what the function reads.  The declared links are
 read under a budget into an undirected adjacency map, and a worklist search turns the map into
 groups of active nodes.  The graph-theoretic meaning (paths) is stated independently of both loops.
 */
module CheckpointGraph {
  import opened Wrappers
  import opened Decimals
  import opened Sorting
  import opened Lexicographic
  import opened FiniteSets
  import Reachability

  const MAX_BLOCKS: nat := 20_000
  const MAX_LINKS: nat := 100_000

  const CHECKPOINT_IDS: set<int> := {22, 372, 373, 1275, 1276, 1277, 1278, 1279, 1615}
  const GATE_IDS: set<int> := {
    1607, 1608, 1609, 1610, 1611, 1612, 1613, 1614, 1978, 1979, 1980, 1981, 1982, 1983, 1984, 1985,
    1986, 1987, 1988, 1989, 1990, 1991, 1992, 1993
  }

  type Uid = string

  /** A link entry that parsed as JSON: its string target, and whether its channel is 0. */
  datatype Connection = Connection(target: Option<Uid>, channelZero: bool)

  /** `/d/n/id0`: absent, a natural number, or anything else. */
  datatype LinkCount = Absent | Declared(n: nat) | Unreadable

  datatype Block = Block(id: int, uid: Option<Uid>, gateOn: bool, count: LinkCount, entries: map<nat, Connection>)

  datatype Level = NotAnArray | Blocks(blocks: seq<Block>)

  datatype Node = Node(block: Block, active: bool)

  datatype Graph = Graph(groups: seq<seq<Uid>>, reasons: seq<string>)

  // ---------------------------------------------------------------- nodes

  ghost predicate IsCheckpoint(id: int) { id in {22, 372, 373, 1615} || 1275 <= id <= 1279 }

  ghost predicate IsGate(id: int) { 1607 <= id <= 1614 || 1978 <= id <= 1993 }

  ghost predicate Relevant(b: Block) { IsCheckpoint(b.id) || IsGate(b.id) }

  /** A checkpoint always, a gate while it is on. */
  ghost predicate Active(b: Block) { IsCheckpoint(b.id) || (IsGate(b.id) && b.gateOn) }

  ghost function UidOf(blocks: seq<Block>, index: nat): Uid
    requires index < |blocks|
  {
    if blocks[index].uid.Some? then blocks[index].uid.value else "missing:" + Decimal(index)
  }

  /** The node map: the last relevant block with a uid wins. */
  ghost predicate NodesOf(blocks: seq<Block>, nodes: map<Uid, Node>)
  {
    && (forall i | 0 <= i < |blocks| && Relevant(blocks[i]) :: UidOf(blocks, i) in nodes)
    && forall u | u in nodes :: exists i :: LastWith(blocks, i, u) && nodes[u] == Node(blocks[i], Active(blocks[i]))
  }

  ghost predicate LastWith(blocks: seq<Block>, i: int, u: Uid)
  {
    && 0 <= i < |blocks| && Relevant(blocks[i]) && UidOf(blocks, i) == u
    && forall j | i < j < |blocks| && Relevant(blocks[j]) :: UidOf(blocks, j) != u
  }

  ghost predicate MissingUid(blocks: seq<Block>)
  {
    exists i | 0 <= i < |blocks| :: Relevant(blocks[i]) && blocks[i].uid.None?
  }

  ghost predicate DuplicateUid(blocks: seq<Block>)
  {
    exists i, j | 0 <= i < j < |blocks| ::
      Relevant(blocks[i]) && Relevant(blocks[j]) && UidOf(blocks, i) == UidOf(blocks, j)
  }

  ghost predicate NodeReasons(blocks: seq<Block>, reasons: seq<string>)
  {
    forall r :: r in reasons <==>
                (r == "missing_block_uid" && MissingUid(blocks)) || (r == "duplicate_block_uid" && DuplicateUid(blocks))
  }

  method CollectNodes(blocks: seq<Block>) returns (nodes: map<Uid, Node>, reasons: seq<string>)
    ensures NodesOf(blocks, nodes) && NodeReasons(blocks, reasons)
  {
    hide NodesOf, MissingUid, DuplicateUid;
    nodes, reasons := map[], [];
    NoNodes();
    assert blocks[..0] == [];
    for index := 0 to |blocks|
      invariant NodesOf(blocks[..index], nodes) && NodeReasons(blocks[..index], reasons)
    {
      var block := blocks[index];
      assert blocks[..index] + [block] == blocks[..index + 1];
      OneMoreBlock(blocks[..index], block, nodes);
      SameUid(blocks, index);
      Tables(block.id);
      hide IsCheckpoint, IsGate;
      if block.id !in CHECKPOINT_IDS && block.id !in GATE_IDS {
        continue;
      }
      var active := block.id in CHECKPOINT_IDS || block.gateOn;
      var uid := block.uid.GetOr("missing:" + Decimal(index));
      if block.uid.None? {
        reasons := reasons + ["missing_block_uid"];
      }
      if uid in nodes {
        reasons := reasons + ["duplicate_block_uid"];
      }
      nodes := nodes[uid := Node(block, active)];
    }
    assert blocks[..|blocks|] == blocks;
  }

  lemma Tables(id: int)
    ensures (id in CHECKPOINT_IDS <==> IsCheckpoint(id)) && (id in GATE_IDS <==> IsGate(id))
  {
  }

  lemma NoNodes()
    ensures NodesOf([], map[]) && !MissingUid([]) && !DuplicateUid([])
  {
  }

  lemma SameUid(blocks: seq<Block>, index: nat)
    requires index < |blocks|
    ensures UidOf(blocks[..index] + [blocks[index]], index) == UidOf(blocks, index)
  {
  }

  lemma OneMoreBlock(blocks: seq<Block>, block: Block, nodes: map<Uid, Node>)
    requires NodesOf(blocks, nodes)
    ensures var all := blocks + [block];
      var uid := UidOf(all, |blocks|);
      && NodesOf(all, if Relevant(block) then nodes[uid := Node(block, Active(block))] else nodes)
      && (MissingUid(all) <==> (MissingUid(blocks) || (Relevant(block) && block.uid.None?)))
      && (DuplicateUid(all) <==> (DuplicateUid(blocks) || (Relevant(block) && uid in nodes)))
  {
    hide NodesOf, MissingUid, DuplicateUid, UidOf, Relevant, Active;
    NodesStep(blocks, block, nodes);
    MissingStep(blocks, block);
    DuplicateStep(blocks, block, nodes);
  }

  lemma SameUids(blocks: seq<Block>, block: Block)
    ensures var all := blocks + [block];
      forall i | 0 <= i < |blocks| :: UidOf(all, i) == UidOf(blocks, i) && all[i] == blocks[i]
  {
  }

  lemma StillLast(blocks: seq<Block>, block: Block, i: int, u: Uid)
    requires LastWith(blocks, i, u) && !(Relevant(block) && UidOf(blocks + [block], |blocks|) == u)
    ensures LastWith(blocks + [block], i, u)
  {
    SameUids(blocks, block);
    hide Relevant, UidOf;
  }

  lemma NowLast(blocks: seq<Block>, block: Block)
    requires Relevant(block)
    ensures LastWith(blocks + [block], |blocks|, UidOf(blocks + [block], |blocks|))
  {
    hide Relevant, UidOf;
  }

  lemma NodesStep(blocks: seq<Block>, block: Block, nodes: map<Uid, Node>)
    requires NodesOf(blocks, nodes)
    ensures var all := blocks + [block];
      NodesOf(all, if Relevant(block) then nodes[UidOf(all, |blocks|) := Node(block, Active(block))] else nodes)
  {
    hide Relevant, Active, UidOf;
    var all := blocks + [block];
    var uid := UidOf(all, |blocks|);
    var next := if Relevant(block) then nodes[uid := Node(block, Active(block))] else nodes;
    SameUids(blocks, block);
    assert all[|blocks|] == block;
    forall u | u in next
      ensures exists i :: LastWith(all, i, u) && next[u] == Node(all[i], Active(all[i]))
    {
      if Relevant(block) && u == uid {
        NowLast(blocks, block);
      } else {
        var i :| LastWith(blocks, i, u) && nodes[u] == Node(blocks[i], Active(blocks[i]));
        StillLast(blocks, block, i, u);
      }
    }
  }

  lemma MissingStep(blocks: seq<Block>, block: Block)
    ensures MissingUid(blocks + [block]) <==> (MissingUid(blocks) || (Relevant(block) && block.uid.None?))
  {
    hide Relevant;
    var all := blocks + [block];
    assert all[|blocks|] == block;
    assert forall i | 0 <= i < |blocks| :: all[i] == blocks[i];
  }

  lemma NodeKnown(blocks: seq<Block>, nodes: map<Uid, Node>, uid: Uid)
    requires NodesOf(blocks, nodes)
    ensures uid in nodes <==> exists i :: 0 <= i < |blocks| && Relevant(blocks[i]) && UidOf(blocks, i) == uid
  {
    hide Relevant, Active, UidOf;
  }

  lemma DuplicateStep(blocks: seq<Block>, block: Block, nodes: map<Uid, Node>)
    requires NodesOf(blocks, nodes)
    ensures var uid := UidOf(blocks + [block], |blocks|);
      DuplicateUid(blocks + [block]) <==> (DuplicateUid(blocks) || (Relevant(block) && uid in nodes))
  {
    hide Relevant, Active, NodesOf;
    var all := blocks + [block];
    var uid := UidOf(all, |blocks|);
    forall i | 0 <= i < |blocks| ensures UidOf(all, i) == UidOf(blocks, i) && all[i] == blocks[i] {}
    NodeKnown(blocks, nodes, uid);
    hide UidOf;
    assert all[|blocks|] == block;
  }

  // ---------------------------------------------------------------- declared links

  ghost function CountOf(b: Block): nat
  {
    if b.count.Declared? && b.count.n <= MAX_BLOCKS then b.count.n else 0
  }

  ghost predicate BadCount(b: Block)
  {
    b.count.Unreadable? || (b.count.Declared? && b.count.n > MAX_BLOCKS)
  }

  /** How many of the nodes, in order, are read before the link budget stops the loop. */
  ghost function ReadNodes(order: seq<Uid>, nodes: map<Uid, Node>, budget: nat): (k: nat)
    requires forall u | u in order :: u in nodes
    ensures k <= |order|
  {
    if order == [] || CountOf(nodes[order[0]].block) > budget then 0
    else 1 + ReadNodes(order[1..], nodes, budget - CountOf(nodes[order[0]].block))
  }

  ghost function TotalLinks(uids: seq<Uid>, nodes: map<Uid, Node>): nat
    requires forall u | u in uids :: u in nodes
  {
    if uids == [] then 0 else CountOf(nodes[uids[0]].block) + TotalLinks(uids[1..], nodes)
  }

  /** At most `budget` links are processed; the loop stops only at a node that would exceed it. */
  lemma {:induction false} BudgetKept(order: seq<Uid>, nodes: map<Uid, Node>, budget: nat)
    requires forall u | u in order :: u in nodes
    ensures var k := ReadNodes(order, nodes, budget);
      && TotalLinks(order[..k], nodes) <= budget
      && (k < |order| ==> TotalLinks(order[..k], nodes) + CountOf(nodes[order[k]].block) > budget)
  {
    var k := ReadNodes(order, nodes, budget);
    if k > 0 {
      BudgetKept(order[1..], nodes, budget - CountOf(nodes[order[0]].block));
      assert order[..k][1..] == order[1..][..k - 1];
    }
  }

  datatype Entry = Malformed | Elsewhere | To(target: Uid)

  /** What the reader makes of entry `index` of a block. */
  ghost function EntryAt(b: Block, index: nat, nodes: map<Uid, Node>): Entry
  {
    if index !in b.entries || b.entries[index].target.None? then Malformed
    else if !b.entries[index].channelZero || b.entries[index].target.value !in nodes then Elsewhere
    else To(b.entries[index].target.value)
  }

  /** `u` declares a usable link to `v` and is read before the budget runs out. */
  ghost predicate Accepted(nodes: map<Uid, Node>, read: seq<Uid>, u: Uid, v: Uid)
  {
    u in read && u in nodes && EntryBefore(nodes, nodes[u].block, CountOf(nodes[u].block), To(v))
  }

  ghost predicate Linked(nodes: map<Uid, Node>, read: seq<Uid>, u: Uid, v: Uid)
  {
    Accepted(nodes, read, u, v) || Accepted(nodes, read, v, u)
  }

  ghost predicate MalformedLink(nodes: map<Uid, Node>, read: seq<Uid>)
  {
    exists u | u in read && u in nodes ::
      BadCount(nodes[u].block) || EntryBefore(nodes, nodes[u].block, CountOf(nodes[u].block), Malformed)
  }

  ghost predicate DanglingLink(nodes: map<Uid, Node>, read: seq<Uid>)
  {
    exists u | u in read && u in nodes ::
      EntryBefore(nodes, nodes[u].block, CountOf(nodes[u].block), Elsewhere)
  }

  type Adjacency = map<Uid, set<Uid>>

  function Neighbours(edges: Adjacency, u: Uid): set<Uid>
  {
    if u in edges then edges[u] else {}
  }

  function AddEdge(edges: Adjacency, u: Uid, v: Uid): (r: Adjacency)
    ensures forall a, b :: b in Neighbours(r, a) <==>
      b in Neighbours(edges, a) || (a == u && b == v) || (a == v && b == u)
  {
    var once := edges[u := Neighbours(edges, u) + {v}];
    once[v := Neighbours(once, v) + {u}]
  }

  ghost predicate LinkReasons(nodes: map<Uid, Node>, read: seq<Uid>, reasons: seq<string>)
  {
    forall r :: r in reasons <==>
                || (r == "malformed_links" && MalformedLink(nodes, read))
                || (r == "missing_link_target" && DanglingLink(nodes, read))
  }

  ghost predicate LinkMap(nodes: map<Uid, Node>, read: seq<Uid>, edges: Adjacency)
  {
    forall u, v :: v in Neighbours(edges, u) <==> Linked(nodes, read, u, v)
  }

  method ReadLinks(nodes: map<Uid, Node>, order: seq<Uid>) returns (edges: Adjacency, reasons: seq<string>)
    requires forall u | u in order :: u in nodes
    ensures var read := order[..ReadNodes(order, nodes, MAX_LINKS)];
      && LinkMap(nodes, read, edges)
      && ("geometry_budget" in reasons <==> read != order)
      && LinkReasons(nodes, read, if read != order then reasons[..|reasons| - 1] else reasons)
      && (read != order ==> reasons[|reasons| - 1] == "geometry_budget")
  {
    hide LinkMap, MalformedLink, DanglingLink, CountOf, BadCount, ReadNodes;
    edges, reasons := map[], [];
    var remaining := MAX_LINKS;
    ghost var k := ReadNodes(order, nodes, MAX_LINKS);
    var n := 0;
    assert order[0..] == order && order[..0] == [];
    NothingRead(nodes);
    while n < |order|
      invariant n <= |order| && k == n + ReadNodes(order[n..], nodes, remaining)
      invariant LinkMap(nodes, order[..n], edges) && LinkReasons(nodes, order[..n], reasons)
    {
      var uid := order[n];
      var count, malformed := DeclaredLinks(nodes[uid].block);
      ReadStep(order[n..], nodes, remaining);
      assert order[n..][1..] == order[n + 1..] && order[n..][0] == uid;
      if count > remaining {
        assert k == n && order[..n] != order;
        reasons := reasons + ["geometry_budget"];
        assert reasons[..|reasons| - 1] + ["geometry_budget"] == reasons;
        return;
      }
      remaining := remaining - count;
      edges, reasons := ReadNodeLinks(nodes, order[..n], uid, count, malformed, edges, reasons);
      assert order[..n + 1] == order[..n] + [uid];
      n := n + 1;
    }
    ReadStep(order[n..], nodes, remaining);
    assert order[..|order|] == order;
  }

  /** A count above the block budget, or one that is no number, declares nothing. */
  method DeclaredLinks(block: Block) returns (count: nat, malformed: bool)
    ensures count == CountOf(block) && (malformed <==> BadCount(block)) && (malformed ==> count == 0)
  {
    match block.count
    case Absent => return 0, false;
    case Unreadable => return 0, true;
    case Declared(n) =>
      if n <= MAX_BLOCKS {
        return n, false;
      }
      return 0, true;
  }

  method ReadNodeLinks(nodes: map<Uid, Node>, ghost read: seq<Uid>, uid: Uid, count: nat, malformed: bool,
                       edges: Adjacency, reasons: seq<string>)
      returns (edges': Adjacency, reasons': seq<string>)
    requires uid in nodes && count == CountOf(nodes[uid].block) && (malformed <==> BadCount(nodes[uid].block))
    requires LinkMap(nodes, read, edges) && LinkReasons(nodes, read, reasons)
    ensures LinkMap(nodes, read + [uid], edges') && LinkReasons(nodes, read + [uid], reasons')
  {
    hide EntryAt, BadCount, CountOf, AddEdge, MalformedLink, DanglingLink, Neighbours;
    var block := nodes[uid].block;
    edges', reasons' := edges, reasons;
    if malformed {
      reasons' := reasons' + ["malformed_links"];
    }
    for index := 0 to count
      invariant forall u, v :: v in Neighbours(edges', u) <==>
                               || Linked(nodes, read, u, v)
                               || ToBefore(nodes, uid, index, u, v) || ToBefore(nodes, uid, index, v, u)
      invariant forall r :: r in reasons' <==>
                            (r in reasons
                             || (r == "malformed_links" && (BadCount(block) || EntryBefore(nodes, block, index, Malformed)))
                             || (r == "missing_link_target" && EntryBefore(nodes, block, index, Elsewhere)))
    {
      NextEntry(nodes, uid, index);
      EntryMeans(block, index, nodes);
      if index !in block.entries || block.entries[index].target.None? {
        reasons' := reasons' + ["malformed_links"];
        continue;
      }
      var target := block.entries[index].target.value;
      if !block.entries[index].channelZero || target !in nodes {
        reasons' := reasons' + ["missing_link_target"];
        continue;
      }
      edges' := AddEdge(edges', uid, target);
    }
    OneMoreNode(nodes, read, uid);
  }

  ghost predicate EntryBefore(nodes: map<Uid, Node>, block: Block, index: nat, entry: Entry)
  {
    exists i | 0 <= i < index :: EntryAt(block, i, nodes) == entry
  }

  /** One of the first `index` entries of `uid`, as `u`, links it to `v`. */
  ghost predicate ToBefore(nodes: map<Uid, Node>, uid: Uid, index: nat, u: Uid, v: Uid)
    requires uid in nodes
  {
    u == uid && EntryBefore(nodes, nodes[uid].block, index, To(v))
  }

  lemma NextEntry(nodes: map<Uid, Node>, uid: Uid, index: nat)
    requires uid in nodes
    ensures forall e :: EntryBefore(nodes, nodes[uid].block, index + 1, e) <==>
                        (EntryBefore(nodes, nodes[uid].block, index, e) || e == EntryAt(nodes[uid].block, index, nodes))
  {
    hide EntryAt;
  }

  lemma NothingRead(nodes: map<Uid, Node>)
    ensures LinkMap(nodes, [], map[]) && !MalformedLink(nodes, []) && !DanglingLink(nodes, [])
  {
  }

  lemma EntryMeans(b: Block, index: nat, nodes: map<Uid, Node>)
    ensures EntryAt(b, index, nodes) == Malformed <==> index !in b.entries || b.entries[index].target.None?
    ensures EntryAt(b, index, nodes).To? ==>
              index in b.entries && b.entries[index] == Connection(Some(EntryAt(b, index, nodes).target), true)
    ensures EntryAt(b, index, nodes).To? <==>
            exists v :: v in nodes && index in b.entries && b.entries[index] == Connection(Some(v), true)
  {
  }

  lemma ReadStep(order: seq<Uid>, nodes: map<Uid, Node>, budget: nat)
    requires forall u | u in order :: u in nodes
    ensures ReadNodes(order, nodes, budget) ==
      if order == [] || CountOf(nodes[order[0]].block) > budget then 0
      else 1 + ReadNodes(order[1..], nodes, budget - CountOf(nodes[order[0]].block))
  {
  }

  lemma OneMoreNode(nodes: map<Uid, Node>, read: seq<Uid>, uid: Uid)
    requires uid in nodes
    ensures var count := CountOf(nodes[uid].block);
      && (forall u, v :: Accepted(nodes, read + [uid], u, v) <==>
                         (Accepted(nodes, read, u, v) || ToBefore(nodes, uid, count, u, v)))
      && (MalformedLink(nodes, read + [uid]) <==>
          (MalformedLink(nodes, read) || BadCount(nodes[uid].block) || EntryBefore(nodes, nodes[uid].block, count, Malformed)))
      && (DanglingLink(nodes, read + [uid]) <==>
          (DanglingLink(nodes, read) || EntryBefore(nodes, nodes[uid].block, count, Elsewhere)))
  {
    hide CountOf, EntryAt, BadCount;
    assert forall u :: u in read + [uid] <==> u in read || u == uid;
  }

  // ---------------------------------------------------------------- connectedness

  ghost function Links(nodes: map<Uid, Node>, read: seq<Uid>): (Uid, Uid) -> bool
  {
    (u, v) => Linked(nodes, read, u, v)
  }

  /** A chain of usable links, in either direction, through active and inactive nodes alike. */
  ghost predicate Connected(nodes: map<Uid, Node>, read: seq<Uid>, a: Uid, b: Uid)
  {
    Reachability.Connected(Links(nodes, read), a, b)
  }

  ghost predicate Closed(nodes: map<Uid, Node>, read: seq<Uid>, s: set<Uid>)
  {
    forall u, v | u in s && Linked(nodes, read, u, v) :: v in s
  }

  lemma LinkedInNodes(nodes: map<Uid, Node>, read: seq<Uid>)
    ensures forall u, v | Linked(nodes, read, u, v) :: u in nodes && v in nodes && Linked(nodes, read, v, u)
  {
    hide CountOf;
    assert forall u, v | Accepted(nodes, read, u, v) :: v in nodes;
  }

  lemma ClosedReach(nodes: map<Uid, Node>, read: seq<Uid>, s: set<Uid>, a: Uid)
    requires Closed(nodes, read, s) && a in s
    ensures forall b | Connected(nodes, read, a, b) :: b in s
  {
    hide Linked;
    assert Reachability.Closed(Links(nodes, read), s);
    Reachability.ClosedReach(Links(nodes, read), s, a);
  }

  lemma ConnectedSelf(nodes: map<Uid, Node>, read: seq<Uid>, a: Uid)
    ensures Connected(nodes, read, a, a)
  {
    Reachability.ConnectedSelf(Links(nodes, read), a);
  }

  lemma ConnectedExtend(nodes: map<Uid, Node>, read: seq<Uid>, a: Uid, b: Uid, c: Uid)
    requires Connected(nodes, read, a, b) && Linked(nodes, read, b, c)
    ensures Connected(nodes, read, a, c)
  {
    Reachability.ConnectedExtend(Links(nodes, read), a, b, c);
  }

  lemma ConnectedTransitive(nodes: map<Uid, Node>, read: seq<Uid>, a: Uid, b: Uid, c: Uid)
    requires Connected(nodes, read, a, b) && Connected(nodes, read, b, c)
    ensures Connected(nodes, read, a, c)
  {
    Reachability.ConnectedTransitive(Links(nodes, read), a, b, c);
  }

  lemma ConnectedSymmetric(nodes: map<Uid, Node>, read: seq<Uid>, a: Uid, b: Uid)
    requires Connected(nodes, read, a, b)
    ensures Connected(nodes, read, b, a)
  {
    LinkedInNodes(nodes, read);
    hide Linked;
    Reachability.ConnectedSymmetric(Links(nodes, read), a, b);
  }

  // ---------------------------------------------------------------- the worklist search

  /** The active nodes among those connected to `root`, in order. */
  ghost predicate IsGroup(nodes: map<Uid, Node>, read: seq<Uid>, root: Uid, group: seq<Uid>)
  {
    && Sorted(group, LexLeq) && Distinct(group)
    && forall u :: u in group <==> (u in nodes && nodes[u].active && Connected(nodes, read, root, u))
  }

  /** Where the inner loop stands: `popped` are the nodes taken off the worklist. */
  ghost predicate Searching(nodes: map<Uid, Node>, read: seq<Uid>, root: Uid, start: set<Uid>,
                            visited: set<Uid>, pending: seq<Uid>, popped: set<Uid>)
  {
    && start <= visited <= nodes.Keys
    && root in visited
    && (forall u | u in visited :: u in start || u in popped || u in pending)
    && (forall u | u in popped || u in pending :: u in visited && u !in start && Connected(nodes, read, root, u))
    && (forall u | u in popped :: u !in pending)
    && Distinct(pending)
    && (forall u, v | u in popped && Linked(nodes, read, u, v) :: v in visited)
  }

  method Component(nodes: map<Uid, Node>, ghost read: seq<Uid>, edges: Adjacency, start: set<Uid>, root: Uid)
      returns (group: seq<Uid>, visited: set<Uid>)
    requires LinkMap(nodes, read, edges) && root in nodes && root !in start
    requires start <= nodes.Keys && Closed(nodes, read, start)
    ensures IsGroup(nodes, read, root, group)
    ensures visited <= nodes.Keys && Closed(nodes, read, visited)
    ensures forall u :: u in visited <==> (u in start || Connected(nodes, read, root, u))
  {
    hide Linked, Connected, LexLeq, Neighbours;
    visited := start + {root};
    var pending := [root];
    group := [];
    ghost var popped: set<Uid> := {};
    ConnectedSelf(nodes, read, root);
    while pending != []
      invariant Searching(nodes, read, root, start, visited, pending, popped)
      invariant popped <= nodes.Keys && Distinct(group)
      invariant forall u :: u in group <==> (u in popped && nodes[u].active)
      decreases |nodes.Keys - popped|
    {
      var node := pending[|pending| - 1];
      ghost var before := pending;
      pending := pending[..|pending| - 1];
      assert before == pending + [node];
      if nodes[node].active {
        group := group + [node];
      }
      visited, pending := PushNeighbours(nodes, read, edges, start, root, visited, pending, popped, node);
      assert nodes.Keys - (popped + {node}) < nodes.Keys - popped;
      ProperSubsetSize(nodes.Keys - (popped + {node}), nodes.Keys - popped);
      popped := popped + {node};
    }
    SearchDone(nodes, read, root, start, visited, popped);
    LexOrder();
    SortSorted(group, LexLeq);
    SortKeepsElements(group, LexLeq);
    group := Sort(group, LexLeq);
  }

  method PushNeighbours(nodes: map<Uid, Node>, ghost read: seq<Uid>, edges: Adjacency, ghost start: set<Uid>, ghost root: Uid,
                        visited: set<Uid>, pending: seq<Uid>, ghost popped: set<Uid>, node: Uid)
      returns (visited': set<Uid>, pending': seq<Uid>)
    requires LinkMap(nodes, read, edges) && Closed(nodes, read, start)
    requires Searching(nodes, read, root, start, visited, pending + [node], popped)
    ensures Searching(nodes, read, root, start, visited', pending', popped + {node})
  {
    LinkedInNodes(nodes, read);
    hide Linked, Connected, Neighbours;
    visited', pending' := visited, pending;
    var all := pending + [node];
    assert node == all[|pending|] && forall i | 0 <= i < |pending| :: all[i] == pending[i] && all[i] != node;
    assert forall u :: u in all <==> u in pending || u == node;
    assert node in all && forall i, j | 0 <= i < j < |pending| :: all[i] != all[j];
    var todo := Neighbours(edges, node);
    while todo != {}
      invariant forall v | v in todo :: Linked(nodes, read, node, v)
      invariant forall v | Linked(nodes, read, node, v) :: v in todo || v in visited'
      invariant visited <= visited'
      invariant SearchingBut(nodes, read, root, start, visited', pending', popped, node)
      decreases |todo|
    {
      var next :| next in todo;
      todo := todo - {next};
      if next !in visited' {
        ConnectedExtend(nodes, read, root, node, next);
        OneMorePending(nodes, read, root, start, visited', pending', popped, node, next);
        visited' := visited' + {next};
        pending' := pending' + [next];
      }
    }
  }

  /** `Searching` while the neighbours of `node` are still being pushed. */
  ghost predicate SearchingBut(nodes: map<Uid, Node>, read: seq<Uid>, root: Uid, start: set<Uid>,
                               visited: set<Uid>, pending: seq<Uid>, popped: set<Uid>, node: Uid)
  {
    && start <= visited <= nodes.Keys
    && root in visited && node in visited && node !in start && Connected(nodes, read, root, node)
    && (forall u | u in visited :: u in start || u in popped || u == node || u in pending)
    && (forall u | u in popped || u in pending :: u in visited && u !in start && Connected(nodes, read, root, u))
    && (forall u | u in popped || u == node :: u !in pending)
    && Distinct(pending)
    && (forall u, v | u in popped && Linked(nodes, read, u, v) :: v in visited)
  }

  lemma OneMorePending(nodes: map<Uid, Node>, read: seq<Uid>, root: Uid, start: set<Uid>,
                       visited: set<Uid>, pending: seq<Uid>, popped: set<Uid>, node: Uid, next: Uid)
    requires SearchingBut(nodes, read, root, start, visited, pending, popped, node)
    requires next in nodes && next !in visited && Connected(nodes, read, root, next)
    ensures SearchingBut(nodes, read, root, start, visited + {next}, pending + [next], popped, node)
  {
    hide Linked, Connected;
  }

  lemma SearchDone(nodes: map<Uid, Node>, read: seq<Uid>, root: Uid, start: set<Uid>, visited: set<Uid>, popped: set<Uid>)
    requires Closed(nodes, read, start) && root !in start
    requires Searching(nodes, read, root, start, visited, [], popped)
    ensures Closed(nodes, read, visited)
    ensures forall u :: u in popped <==> Connected(nodes, read, root, u)
    ensures forall u :: u in visited <==> (u in start || Connected(nodes, read, root, u))
  {
    LinkedInNodes(nodes, read);
    hide Linked, Connected;
    assert visited == start + popped;
    assert Closed(nodes, read, popped) by {
      forall u, v | u in popped && Linked(nodes, read, u, v) ensures v in popped {
        assert Linked(nodes, read, v, u);
      }
    }
    ClosedReach(nodes, read, popped, root);
  }

  // ---------------------------------------------------------------- all groups

  /** The groups are exactly the connected components, restricted to active nodes. */
  ghost predicate Components(nodes: map<Uid, Node>, read: seq<Uid>, groups: seq<seq<Uid>>)
  {
    && (forall g | g in groups :: g != [] && Sorted(g, LexLeq) && Distinct(g))
    && (forall u :: (u in nodes && nodes[u].active) <==> InSome(groups, u))
    && (forall i, j, u | 0 <= i < j < |groups| && u in groups[i] :: u !in groups[j])
    && (forall u, v | InSome(groups, u) && InSome(groups, v) ::
          Together(groups, u, v) <==> Connected(nodes, read, u, v))
  }

  ghost predicate InSome(groups: seq<seq<Uid>>, u: Uid)
  {
    exists g :: g in groups && u in g
  }

  ghost predicate Together(groups: seq<seq<Uid>>, u: Uid, v: Uid)
  {
    exists g :: g in groups && u in g && v in g
  }

  /** The outer loop: the groups found so far are the components of the visited part. */
  ghost predicate Found(nodes: map<Uid, Node>, read: seq<Uid>, visited: set<Uid>, groups: seq<seq<Uid>>)
  {
    && visited <= nodes.Keys && Closed(nodes, read, visited)
    && (forall g | g in groups :: g != [] && Sorted(g, LexLeq) && Distinct(g))
    && (forall u :: (u in visited && nodes[u].active) <==> InSome(groups, u))
    && (forall i, j, u | 0 <= i < j < |groups| && u in groups[i] :: u !in groups[j])
    && (forall g, u, v | g in groups && u in g && v in g :: Connected(nodes, read, u, v))
    && (forall g, u, v | g in groups && u in g && v in nodes && nodes[v].active && Connected(nodes, read, u, v) :: v in g)
  }

  method FindGroups(nodes: map<Uid, Node>, ghost read: seq<Uid>, edges: Adjacency, order: seq<Uid>)
      returns (groups: seq<seq<Uid>>)
    requires LinkMap(nodes, read, edges) && forall u :: u in order <==> u in nodes
    ensures Components(nodes, read, groups)
  {
    hide Linked, Connected, LexLeq, Found, IsGroup, LinkMap;
    groups := [];
    var visited: set<Uid> := {};
    NothingFound(nodes, read);
    for n := 0 to |order|
      invariant Found(nodes, read, visited, groups)
      invariant visited <= nodes.Keys && Closed(nodes, read, visited)
      invariant forall i | 0 <= i < n :: order[i] in visited
    {
      if order[n] in visited {
        continue;
      }
      ghost var before := visited;
      ConnectedSelf(nodes, read, order[n]);
      var group;
      group, visited := Component(nodes, read, edges, visited, order[n]);
      OneMoreGroup(nodes, read, before, visited, groups, order[n], group);
      if group != [] {
        groups := groups + [group];
      }
    }
    AllFound(nodes, read, visited, groups);
  }

  lemma NothingFound(nodes: map<Uid, Node>, read: seq<Uid>)
    ensures Found(nodes, read, {}, [])
  {
  }

  lemma AllFound(nodes: map<Uid, Node>, read: seq<Uid>, visited: set<Uid>, groups: seq<seq<Uid>>)
    requires Found(nodes, read, visited, groups) && visited == nodes.Keys
    ensures Components(nodes, read, groups)
  {
    hide Linked, Connected, LexLeq, Closed;
    forall u, v | InSome(groups, u) && InSome(groups, v)
      ensures Together(groups, u, v) <==> Connected(nodes, read, u, v)
    {
      var g :| g in groups && u in g;
      assert Connected(nodes, read, u, v) ==> v in g;
    }
  }

  lemma OneMoreGroup(nodes: map<Uid, Node>, read: seq<Uid>, before: set<Uid>, visited: set<Uid>,
                     groups: seq<seq<Uid>>, root: Uid, group: seq<Uid>)
    requires Found(nodes, read, before, groups) && IsGroup(nodes, read, root, group)
    requires root in nodes && root !in before
    requires visited <= nodes.Keys && Closed(nodes, read, visited)
    requires forall u :: u in visited <==> (u in before || Connected(nodes, read, root, u))
    ensures Found(nodes, read, visited, if group != [] then groups + [group] else groups)
  {
    var next := if group != [] then groups + [group] else groups;
    NewIsDisjoint(nodes, read, before, root);
    GroupRelations(nodes, read, root, group);
    hide Linked, Connected, LexLeq, Closed;
    forall u ensures (u in visited && nodes[u].active) <==> InSome(next, u) {
      if u in visited && nodes[u].active {
        if u in before {
          assert InSome(groups, u);
          var g :| g in groups && u in g;
          assert g in next;
        } else {
          assert u in group && group in next;
        }
      }
      if InSome(next, u) {
        var g :| g in next && u in g;
        if g in groups {
          assert InSome(groups, u);
        }
      }
    }
    forall i, j, u | 0 <= i < j < |next| && u in next[i] ensures u !in next[j] {
      assert InSome(groups, u);
    }
  }

  lemma NewIsDisjoint(nodes: map<Uid, Node>, read: seq<Uid>, before: set<Uid>, root: Uid)
    requires Closed(nodes, read, before) && root !in before
    ensures forall u | Connected(nodes, read, root, u) :: u !in before
  {
    hide Connected, Closed;
    forall u | Connected(nodes, read, root, u) ensures u !in before {
      if u in before {
        ConnectedSymmetric(nodes, read, root, u);
        ClosedReach(nodes, read, before, u);
      }
    }
  }

  lemma GroupRelations(nodes: map<Uid, Node>, read: seq<Uid>, root: Uid, group: seq<Uid>)
    requires IsGroup(nodes, read, root, group)
    ensures forall u, v | u in group && v in group :: Connected(nodes, read, u, v)
    ensures forall u, v | u in group && v in nodes && nodes[v].active && Connected(nodes, read, u, v) :: v in group
  {
    hide Connected, LexLeq;
    forall u, v | u in group && v in group ensures Connected(nodes, read, u, v) {
      ConnectedSymmetric(nodes, read, root, u);
      ConnectedTransitive(nodes, read, u, root, v);
    }
    forall u, v | u in group && v in nodes && nodes[v].active && Connected(nodes, read, u, v) ensures v in group {
      ConnectedTransitive(nodes, read, root, u, v);
    }
  }

  // ---------------------------------------------------------------- the whole function

  /** Exactly when each reason is reported for an array within the block budget. */
  ghost predicate Reported(blocks: seq<Block>, nodes: map<Uid, Node>, read: seq<Uid>, r: string)
  {
    || (r == "missing_block_uid" && MissingUid(blocks))
    || (r == "duplicate_block_uid" && DuplicateUid(blocks))
    || (r == "geometry_budget" && read != InOrder(nodes.Keys))
    || (r == "malformed_links" && MalformedLink(nodes, read))
    || (r == "missing_link_target" && DanglingLink(nodes, read))
  }

  method CheckpointGraph(level: Level) returns (graph: Graph, ghost nodes: map<Uid, Node>, ghost read: seq<Uid>)
    ensures level.NotAnArray? ==> graph == Graph([], ["unsupported_level_format"])
    ensures level.Blocks? && |level.blocks| > MAX_BLOCKS ==> graph == Graph([], ["geometry_budget"])
    ensures level.Blocks? && |level.blocks| <= MAX_BLOCKS ==>
      && NodesOf(level.blocks, nodes)
      && read == InOrder(nodes.Keys)[..ReadNodes(InOrder(nodes.Keys), nodes, MAX_LINKS)]
      && Components(nodes, read, graph.groups)
      && (forall r :: r in graph.reasons <==> Reported(level.blocks, nodes, read, r))
      && Sorted(graph.reasons, LexLeq) && Distinct(graph.reasons)
  {
    hide NodesOf, ReadNodes, Components, Reported, LexLeq, InOrder;
    nodes, read := map[], [];
    if level.NotAnArray? {
      return Graph([], ["unsupported_level_format"]), nodes, read;
    }
    if |level.blocks| > MAX_BLOCKS {
      return Graph([], ["geometry_budget"]), nodes, read;
    }
    graph, nodes, read := GraphOf(level.blocks);
  }

  method GraphOf(blocks: seq<Block>) returns (graph: Graph, ghost nodes: map<Uid, Node>, ghost read: seq<Uid>)
    ensures NodesOf(blocks, nodes)
    ensures read == InOrder(nodes.Keys)[..ReadNodes(InOrder(nodes.Keys), nodes, MAX_LINKS)]
    ensures Components(nodes, read, graph.groups)
    ensures forall r :: r in graph.reasons <==> Reported(blocks, nodes, read, r)
    ensures Sorted(graph.reasons, LexLeq) && Distinct(graph.reasons)
  {
    hide MissingUid, DuplicateUid, MalformedLink, DanglingLink, NodesOf, Components, LinkMap, LexLeq, ReadNodes, LinkReasons,
      InOrder;
    var found, reasons := CollectNodes(blocks);
    var order := InOrder(found.Keys);
    var edges, linkReasons := ReadLinks(found, order);
    nodes := found;
    read := order[..ReadNodes(order, found, MAX_LINKS)];
    var groups := FindGroups(found, read, edges, order);
    ReasonsOf(found, read, linkReasons, order);
    var all := set r | r in reasons + linkReasons;
    InOrderSorted(all);
    graph := Graph(groups, InOrder(all));
  }

  lemma ReasonsOf(nodes: map<Uid, Node>, read: seq<Uid>, reasons: seq<string>, order: seq<Uid>)
    requires "geometry_budget" in reasons <==> read != order
    requires LinkReasons(nodes, read, if read != order then reasons[..|reasons| - 1] else reasons)
    requires read != order ==> reasons[|reasons| - 1] == "geometry_budget"
    ensures forall r :: r in reasons <==>
                        || (r == "geometry_budget" && read != order)
                        || (r == "malformed_links" && MalformedLink(nodes, read))
                        || (r == "missing_link_target" && DanglingLink(nodes, read))
  {
    hide MalformedLink, DanglingLink;
    if read != order {
      assert reasons == reasons[..|reasons| - 1] + ["geometry_budget"];
    }
  }

  /** No reason at all means that every declared link of every node was used. */
  lemma NoReasonsMeansAllUsed(blocks: seq<Block>, nodes: map<Uid, Node>, read: seq<Uid>)
    requires read == InOrder(nodes.Keys)[..ReadNodes(InOrder(nodes.Keys), nodes, MAX_LINKS)]
    ensures (forall r :: !Reported(blocks, nodes, read, r)) <==>
            (&& !MissingUid(blocks) && !DuplicateUid(blocks)
             && read == InOrder(nodes.Keys)
             && forall u | u in nodes ::
               && !BadCount(nodes[u].block)
               && forall i | 0 <= i < CountOf(nodes[u].block) :: EntryAt(nodes[u].block, i, nodes).To?)
  {
    hide MissingUid, DuplicateUid, BadCount, CountOf, EntryAt, InOrder;
    assert Reported(blocks, nodes, read, "missing_block_uid") <==> MissingUid(blocks);
    assert Reported(blocks, nodes, read, "duplicate_block_uid") <==> DuplicateUid(blocks);
    assert Reported(blocks, nodes, read, "geometry_budget") <==> read != InOrder(nodes.Keys);
    assert Reported(blocks, nodes, read, "malformed_links") <==> MalformedLink(nodes, read);
    assert Reported(blocks, nodes, read, "missing_link_target") <==> DanglingLink(nodes, read);
    forall u, i | u in read && u in nodes && 0 <= i < CountOf(nodes[u].block)
      ensures !EntryAt(nodes[u].block, i, nodes).To? ==> MalformedLink(nodes, read) || DanglingLink(nodes, read)
    {
      assert EntryBefore(nodes, nodes[u].block, CountOf(nodes[u].block), EntryAt(nodes[u].block, i, nodes));
    }
  }
}
