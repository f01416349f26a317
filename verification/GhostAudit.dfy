/**
 Auditing recorded ghosts in chained batches (`select_batch` in crates/jobs/src/ghost_audit.rs over the
 window query of crates/database/src/services/ghost_validation.rs).

 A table is its matching rows in (level, record) order.  While the chain runs it may change anywhere
 behind the cursor and above the frozen record bound; `later` is what the next query finds.
 */
module GhostAudit {
  import opened Wrappers

  const WINDOW: nat := 1000
  const MAX_SCANNED: nat := 100_000

  datatype Row = Row(level: nat, id: nat, needsCheck: bool)
  datatype Key = Key(level: nat, id: nat)

  const START := Key(0, 0)

  function KeyOf(r: Row): Key { Key(r.level, r.id) }

  predicate Before(a: Key, b: Key) { a.level < b.level || (a.level == b.level && a.id < b.id) }

  /** By level, and by record within a level. */
  ghost predicate InOrder(table: seq<Row>)
  {
    forall i, j | 0 <= i < j < |table| ::
      table[i].level < table[j].level || (table[i].level == table[j].level && table[i].id < table[j].id)
  }

  /** The rows above the cursor and within the bound. */
  function Ahead(table: seq<Row>, through: nat, cursor: Key): seq<Row>
  {
    if table == [] then []
    else (if table[0].id <= through && Before(cursor, KeyOf(table[0])) then [table[0]] else [])
         + Ahead(table[1..], through, cursor)
  }

  function Window(table: seq<Row>, through: nat, cursor: Key): (rows: seq<Row>)
    ensures |rows| <= WINDOW
  {
    var rest := Ahead(table, through, cursor);
    if |rest| > WINDOW then rest[..WINDOW] else rest
  }

  function Checked(rows: seq<Row>): (ids: seq<nat>)
    ensures |ids| <= |rows|
  {
    if rows == [] then []
    else Checked(rows[..|rows| - 1]) + (if rows[|rows| - 1].needsCheck then [rows[|rows| - 1].id] else [])
  }

  lemma {:induction false} AheadIsFilter(table: seq<Row>, through: nat, cursor: Key)
    requires InOrder(table)
    ensures InOrder(Ahead(table, through, cursor))
    ensures forall r :: r in Ahead(table, through, cursor) <==> r in table && r.id <= through && Before(cursor, KeyOf(r))
  {
    if table != [] {
      AheadIsFilter(table[1..], through, cursor);
      assert forall r :: r in table <==> r == table[0] || r in table[1..];
      var rest := Ahead(table[1..], through, cursor);
      forall i | 0 <= i < |rest| ensures Before(KeyOf(table[0]), KeyOf(rest[i])) {
        assert rest[i] in rest;
        assert rest[i] in table[1..];
      }
    }
  }

  lemma TailInOrder(table: seq<Row>)
    requires InOrder(table)
    ensures table != [] ==> InOrder(table[1..])
  {
  }

  /** Above a row that was read lies exactly what followed it. */
  lemma {:induction false} AheadOfRead(table: seq<Row>, through: nat, cursor: Key, k: nat)
    requires InOrder(table) && 0 < k <= |Ahead(table, through, cursor)|
    ensures Ahead(table, through, KeyOf(Ahead(table, through, cursor)[k - 1])) == Ahead(table, through, cursor)[k..]
    ensures Before(cursor, KeyOf(Ahead(table, through, cursor)[k - 1]))
  {
    TailInOrder(table);
    AheadFirst(table, through, cursor);
    hide Before, InOrder, Ahead;
    var all, rest := Ahead(table, through, cursor), Ahead(table[1..], through, cursor);
    if table[0].id <= through && Before(cursor, KeyOf(table[0])) {
      assert all == [table[0]] + rest;
      if k == 1 {
        AheadOfFirst(table, through, cursor);
        assert all[1..] == rest;
      } else {
        AheadOfRead(table[1..], through, cursor, k - 1);
        Skipped(table, through, cursor, rest[k - 2]);
        assert all[k..] == rest[k - 1..] && all[k - 1] == rest[k - 2];
      }
    } else {
      AheadOfRead(table[1..], through, cursor, k);
      Skipped(table, through, cursor, rest[k - 1]);
    }
  }

  lemma AheadFirst(table: seq<Row>, through: nat, cursor: Key)
    ensures table == [] ==> Ahead(table, through, cursor) == []
    ensures table != [] ==>
      Ahead(table, through, cursor)
      == (if table[0].id <= through && Before(cursor, KeyOf(table[0])) then [table[0]] + Ahead(table[1..], through, cursor)
          else Ahead(table[1..], through, cursor))
  {
    hide Before;
  }

  lemma AheadOfFirst(table: seq<Row>, through: nat, cursor: Key)
    requires InOrder(table) && table != [] && Before(cursor, KeyOf(table[0]))
    ensures Ahead(table, through, KeyOf(table[0])) == Ahead(table[1..], through, cursor)
  {
    var first := KeyOf(table[0]);
    forall r | r in table[1..] ensures Before(first, KeyOf(r)) && Before(cursor, KeyOf(r)) {
      var i :| 0 <= i < |table| - 1 && table[1..][i] == r;
      assert Before(KeyOf(table[0]), KeyOf(table[i + 1]));
    }
    SameAhead(table[1..], through, cursor, first);
  }

  /** The first row is not above one read from the rest. */
  lemma Skipped(table: seq<Row>, through: nat, cursor: Key, read: Row)
    requires InOrder(table) && table != [] && read in Ahead(table[1..], through, cursor)
    ensures Ahead(table, through, KeyOf(read)) == Ahead(table[1..], through, KeyOf(read))
  {
    AheadIsFilter(table[1..], through, cursor);
    hide Ahead;
    var i :| 0 <= i < |table| - 1 && table[1..][i] == read;
    assert Before(KeyOf(table[0]), KeyOf(table[i + 1]));
    AheadUnfold(table, through, KeyOf(read));
  }

  lemma AheadUnfold(table: seq<Row>, through: nat, cursor: Key)
    requires table != [] && !Before(cursor, KeyOf(table[0]))
    ensures Ahead(table, through, cursor) == Ahead(table[1..], through, cursor)
  {
  }

  lemma {:induction false} SameAhead(table: seq<Row>, through: nat, a: Key, b: Key)
    requires forall r | r in table :: Before(a, KeyOf(r)) && Before(b, KeyOf(r))
    ensures Ahead(table, through, a) == Ahead(table, through, b)
  {
    if table != [] {
      assert table[0] in table && forall r | r in table[1..] :: r in table;
      SameAhead(table[1..], through, a, b);
    }
  }

  /** The table changes only behind the cursor, or above the bound. */
  ghost predicate OnlyBehind(later: (seq<Row>, Key) -> seq<Row>, through: nat)
  {
    forall t, c | InOrder(t) :: InOrder(later(t, c)) && Ahead(later(t, c), through, c) == Ahead(t, through, c)
  }

  /** One batch read `n` rows of those ahead, and stopped at a budget or at the end. */
  ghost predicate Batched(ahead: seq<Row>, n: nat, ids: seq<nat>, next: Option<Key>)
  {
    && n <= |ahead| && n <= MAX_SCANNED && ids == Checked(ahead[..n]) && |ids| <= WINDOW
    && (if next.None? then n == |ahead|
        else n > 0 && next.value == KeyOf(ahead[n - 1]) && (|ids| == WINDOW || n == MAX_SCANNED))
  }

  lemma CheckedNext(rows: seq<Row>, n: nat)
    requires n < |rows|
    ensures Checked(rows[..n + 1]) == Checked(rows[..n]) + if rows[n].needsCheck then [rows[n].id] else []
  {
    assert rows[..n + 1][..n] == rows[..n];
  }

  /** Reads one window; stops early when a budget is spent. */
  method Scan(rows: seq<Row>, chosen: seq<nat>, scanned: nat, ghost ahead: seq<Row>)
    returns (ids: seq<nat>, n: nat, cursor: Key, full: bool)
    requires rows != [] && scanned + |rows| <= |ahead| && rows == ahead[scanned..scanned + |rows|]
    requires scanned < MAX_SCANNED && |chosen| < WINDOW && chosen == Checked(ahead[..scanned])
    ensures scanned < n <= scanned + |rows| && n <= MAX_SCANNED && cursor == KeyOf(ahead[n - 1])
    ensures ids == Checked(ahead[..n]) && |ids| <= WINDOW
    ensures full <==> |ids| == WINDOW || n == MAX_SCANNED
    ensures !full ==> n == scanned + |rows|
  {
    hide Checked;
    ids, n, cursor, full := chosen, scanned, KeyOf(rows[0]), false;
    for i := 0 to |rows|
      invariant n == scanned + i && n < MAX_SCANNED
      invariant ids == Checked(ahead[..n]) && |ids| < WINDOW
      invariant i > 0 ==> cursor == KeyOf(ahead[n - 1])
    {
      var row := rows[i];
      assert row == ahead[n];
      CheckedNext(ahead, n);
      n, cursor := n + 1, KeyOf(row);
      if row.needsCheck {
        ids := ids + [row.id];
      }
      if |ids| == WINDOW || n == MAX_SCANNED {
        full := true;
        return;
      }
    }
  }

  method SelectBatch(start: seq<Row>, later: (seq<Row>, Key) -> seq<Row>, through: nat, from: Key)
    returns (ids: seq<nat>, next: Option<Key>, table: seq<Row>, n: nat)
    requires InOrder(start) && OnlyBehind(later, through)
    ensures Batched(Ahead(start, through, from), n, ids, next) && InOrder(table)
    ensures next.Some? ==> Before(from, next.value)
    ensures next.Some? ==> Ahead(table, through, next.value) == Ahead(start, through, from)[n..]
  {
    hide Checked, InOrder, Before, Ahead;
    ghost var ahead := Ahead(start, through, from);
    ids, next, table, n := [], None, start, 0;
    var cursor := from;
    NothingChecked(ahead);
    assert ahead[0..] == ahead;
    while true
      invariant InOrder(table) && n <= |ahead| && n < MAX_SCANNED
      invariant Ahead(table, through, cursor) == ahead[n..]
      invariant ids == Checked(ahead[..n]) && |ids| < WINDOW
      invariant cursor == if n == 0 then from else KeyOf(ahead[n - 1])
      decreases |ahead| - n
    {
      table := later(table, cursor);
      var rows := Window(table, through, cursor);
      ghost var base := n;
      if rows == [] {
        assert ahead[..n] == ahead;
        return;
      }
      assert rows == ahead[n..n + |rows|];
      var full: bool;
      ids, n, cursor, full := Scan(rows, ids, n, ahead);
      Resumes(start, table, through, from, base, n - base);
      if full {
        next := Some(cursor);
        return;
      }
      if |rows| < WINDOW {
        assert ahead[..n] == ahead;
        return;
      }
    }
  }

  lemma NothingChecked(ahead: seq<Row>)
    ensures Checked(ahead[..0]) == []
  {
  }

  /** After reading `k` more rows the next query starts where the reading stopped. */
  lemma Resumes(start: seq<Row>, table: seq<Row>, through: nat, from: Key, base: nat, k: nat)
    requires InOrder(start) && InOrder(table) && 0 < k && base + k <= |Ahead(start, through, from)|
    requires var ahead := Ahead(start, through, from);
      Ahead(table, through, if base == 0 then from else KeyOf(ahead[base - 1])) == ahead[base..]
    ensures var ahead := Ahead(start, through, from);
      && Ahead(table, through, KeyOf(ahead[base + k - 1])) == ahead[base + k..]
      && Before(from, KeyOf(ahead[base + k - 1]))
  {
    hide InOrder, Before, Ahead;
    var ahead := Ahead(start, through, from);
    AheadOfRead(table, through, if base == 0 then from else KeyOf(ahead[base - 1]), k);
    AheadOfRead(start, through, from, base + k);
    assert ahead[base..][k..] == ahead[base + k..];
  }

  // ---------------------------------------------------------------- the chain

  function Flat<T>(batches: seq<seq<T>>): seq<T>
  {
    if batches == [] then [] else Flat(batches[..|batches| - 1]) + batches[|batches| - 1]
  }

  /** Each cursor above the one before. */
  ghost predicate Climbing(cursors: seq<Key>)
  {
    forall i | 0 < i < |cursors| :: Before(cursors[i - 1], cursors[i])
  }

  lemma ClimbingNext(cursors: seq<Key>, next: Key)
    requires Climbing(cursors) && (cursors != [] ==> Before(cursors[|cursors| - 1], next))
    ensures Climbing(cursors + [next])
  {
    hide Before;
  }

  lemma NoBatches()
    ensures Flat<nat>([]) == [] && Climbing([])
  {
  }

  lemma FlatNext<T>(batches: seq<seq<T>>, batch: seq<T>)
    ensures Flat(batches + [batch]) == Flat(batches) + batch
  {
    assert (batches + [batch])[..|batches|] == batches;
  }

  /**
   Following the continuations to the end checks every row that needed it, once, in order.  Each cursor
   is above the one before, so no two continuations share a queue key.
   */
  method AuditChain(start: seq<Row>, later: (seq<Row>, Key) -> seq<Row>, through: nat)
    returns (batches: seq<seq<nat>>, cursors: seq<Key>)
    requires InOrder(start) && OnlyBehind(later, through)
    ensures Flat(batches) == Checked(Ahead(start, through, START))
    ensures forall b | b in batches :: |b| <= WINDOW
    ensures Climbing(cursors)
    ensures |batches| == |cursors| + 1 <= |Ahead(start, through, START)| + 1
  {
    NoBatches();
    hide InOrder, Before, OnlyBehind, Checked, Ahead, Flat, Climbing;
    ghost var ahead := Ahead(start, through, START);
    ghost var done := 0;
    var table, cursor := start, START;
    batches, cursors := [], [];
    NothingChecked(ahead);
    assert ahead[0..] == ahead;
    while true
      invariant InOrder(table) && done <= |ahead| && Ahead(table, through, cursor) == ahead[done..]
      invariant Flat(batches) == Checked(ahead[..done])
      invariant forall b | b in batches :: |b| <= WINDOW
      invariant |batches| == |cursors| <= done
      invariant cursors != [] ==> cursor == cursors[|cursors| - 1]
      invariant Climbing(cursors)
      decreases |ahead| - done
    {
      var ids, next, after, n := SelectBatch(table, later, through, cursor);
      CheckedAppend(ahead[..done], ahead[done..][..n]);
      assert ahead[..done] + ahead[done..][..n] == ahead[..done + n];
      FlatNext(batches, ids);
      batches := batches + [ids];
      if next.None? {
        assert ahead[..done + n] == ahead;
        return;
      }
      ClimbingNext(cursors, next.value);
      assert ahead[done..][n..] == ahead[done + n..];
      done := done + n;
      cursors := cursors + [next.value];
      table, cursor := after, next.value;
    }
  }

  lemma {:induction false} CheckedAppend(a: seq<Row>, b: seq<Row>)
    ensures Checked(a + b) == Checked(a) + Checked(b)
  {
    if b == [] {
      assert a + b == a;
    } else {
      var k := |b| - 1;
      CheckedAppend(a, b[..k]);
      assert (a + b)[..|a + b| - 1] == a + b[..k];
    }
  }

  /** What the chain checks: every matching record up to the bound that needs it, and no other. */
  lemma CheckedMeans(table: seq<Row>, through: nat, id: nat)
    requires InOrder(table) && forall r | r in table :: r.level > 0
    ensures id in Checked(Ahead(table, through, START)) <==>
            exists r :: r in table && r.id == id && r.id <= through && r.needsCheck
  {
    AheadIsFilter(table, through, START);
    CheckedIds(Ahead(table, through, START), id);
    hide Checked, Ahead;
    if r :| r in table && r.id == id && r.id <= through && r.needsCheck {
      assert r in Ahead(table, through, START);
    }
  }

  lemma {:induction false} CheckedIds(rows: seq<Row>, id: nat)
    ensures id in Checked(rows) <==> exists r :: r in rows && r.id == id && r.needsCheck
  {
    if rows != [] {
      var k := |rows| - 1;
      CheckedIds(rows[..k], id);
      assert rows == rows[..k] + [rows[k]];
    }
  }

  predicate DistinctIds(rows: seq<Row>) { forall i, j | 0 <= i < j < |rows| :: rows[i].id != rows[j].id }

  /** Record identifiers are unique, so no record is checked twice. */
  lemma {:induction false} CheckedOnce(rows: seq<Row>)
    requires DistinctIds(rows)
    ensures forall i, j | 0 <= i < j < |Checked(rows)| :: Checked(rows)[i] != Checked(rows)[j]
  {
    if rows != [] {
      var k := |rows| - 1;
      CheckedOnce(rows[..k]);
      var front := Checked(rows[..k]);
      forall i | 0 <= i < |front| ensures front[i] != rows[k].id {
        CheckedIds(rows[..k], front[i]);
        var r :| r in rows[..k] && r.id == front[i];
      }
    }
  }

  // ---------------------------------------------------------------- one geometry a level

  /** `partition_point` from `start` over rows in level order. */
  function SameLevel(rows: seq<Row>, start: nat): (end: nat)
    requires start < |rows|
    ensures start < end <= |rows| && forall i | start <= i < end :: rows[i].level == rows[start].level
    ensures end < |rows| ==> rows[end].level != rows[start].level
    decreases |rows| - start
  {
    if start + 1 < |rows| && rows[start + 1].level == rows[start].level then SameLevel(rows, start + 1) else start + 1
  }

  predicate OneLevel(g: seq<Row>) { g != [] && forall i | 0 <= i < |g| :: g[i].level == g[0].level }

  predicate Rising(groups: seq<seq<Row>>)
  {
    && (forall g | g in groups :: OneLevel(g))
    && (forall i, j | 0 <= i < j < |groups| ::
          OneLevel(groups[i]) && OneLevel(groups[j]) && groups[i][0].level < groups[j][0].level)
  }

  /** The groups of a batch are its rows in order, and each level forms one group. */
  method LevelGroups(rows: seq<Row>) returns (groups: seq<seq<Row>>)
    requires forall i, j | 0 <= i < j < |rows| :: rows[i].level <= rows[j].level
    ensures Flat(groups) == rows && Rising(groups)
  {
    hide Rising, OneLevel;
    groups := [];
    var start := 0;
    NoGroups();
    while start < |rows|
      invariant 0 <= start <= |rows| && Flat(groups) == rows[..start] && Rising(groups)
      invariant groups != [] && start < |rows| ==> LevelOf(groups[|groups| - 1]) < rows[start].level
    {
      var end := SameLevel(rows, start);
      var group := rows[start..end];
      NextGroup(groups, group);
      assert (groups + [group])[..|groups|] == groups;
      assert rows[..start] + group == rows[..end];
      groups := groups + [group];
      start := end;
    }
    assert rows[..start] == rows;
  }

  function LevelOf(g: seq<Row>): nat { if g == [] then 0 else g[0].level }

  lemma NoGroups()
    ensures Rising([])
  {
  }

  lemma NextGroup(groups: seq<seq<Row>>, group: seq<Row>)
    requires Rising(groups) && group != [] && forall i | 0 <= i < |group| :: group[i].level == group[0].level
    requires groups != [] ==> LevelOf(groups[|groups| - 1]) < group[0].level
    ensures Rising(groups + [group])
  {
    var all := groups + [group];
    forall i, j | 0 <= i < j < |all|
      ensures OneLevel(all[i]) && OneLevel(all[j]) && all[i][0].level < all[j][0].level
    {
      assert all[i] in groups && OneLevel(all[i]);
      if j < |groups| {
        assert all[j] in groups;
      } else {
        var last := groups[|groups| - 1];
        assert last in groups && (i < |groups| - 1 ==> groups[i][0].level < last[0].level);
      }
    }
  }
}
