/**
 Reconciling a page of users under contention (`reconcile_level_contribution_batch` in
 crates/jobs/src/handlers.rs): a contended batch is halved, up to four batches run at once, and they
 finish in any order with any outcomes.
 */
module Bisection {
  import opened Wrappers
  import opened Sorting

  const CONCURRENCY: nat := 4

  /** `MaintenanceOutcome`, or a failed call; `users` are those whose contribution changed. */
  datatype Outcome = Applied(users: seq<nat>) | Contended | SnapshotChanged | Failed

  function Users(batches: seq<seq<nat>>): multiset<nat>
  {
    if batches == [] then multiset{} else multiset(batches[0]) + Users(batches[1..])
  }

  /** An upper bound on the calls a list of batches can still cost. */
  function Cost(batches: seq<seq<nat>>): nat
  {
    if batches == [] then 0
    else (if |batches[0]| == 0 then 0 else 2 * |batches[0]| - 1) + Cost(batches[1..])
  }

  lemma {:induction false} AppendBatches(a: seq<seq<nat>>, b: seq<seq<nat>>)
    ensures Users(a + b) == Users(a) + Users(b) && Cost(a + b) == Cost(a) + Cost(b)
  {
    if a == [] {
      assert a + b == b;
    } else {
      assert (a + b)[1..] == a[1..] + b;
      AppendBatches(a[1..], b);
    }
  }

  lemma OneBatch(batch: seq<nat>)
    ensures Users([batch]) == multiset(batch)
    ensures Cost([batch]) == if |batch| == 0 then 0 else 2 * |batch| - 1
  {
    assert [batch][1..] == [];
  }

  lemma Halves(batch: seq<nat>, middle: nat)
    requires 0 < middle < |batch|
    ensures Users([batch[..middle], batch[middle..]]) == multiset(batch)
    ensures Cost([batch[..middle], batch[middle..]]) == 2 * |batch| - 2
  {
    var a, b := batch[..middle], batch[middle..];
    assert batch == a + b;
    assert [a, b] == [a] + [b];
    AppendBatches([a], [b]);
    OneBatch(a);
    OneBatch(b);
  }

  lemma TakeOut(tasks: seq<seq<nat>>, i: nat)
    requires i < |tasks|
    ensures Users(tasks) == Users(tasks[..i] + tasks[i + 1..]) + multiset(tasks[i])
    ensures Cost(tasks) == Cost(tasks[..i] + tasks[i + 1..]) + Cost([tasks[i]])
  {
    hide Users, Cost;
    assert tasks == tasks[..i] + ([tasks[i]] + tasks[i + 1..]);
    AppendBatches(tasks[..i], [tasks[i]] + tasks[i + 1..]);
    AppendBatches([tasks[i]], tasks[i + 1..]);
    AppendBatches(tasks[..i], tasks[i + 1..]);
    OneBatch(tasks[i]);
  }

  /** What became of the completed calls, in order. */
  datatype Call = Call(batch: seq<nat>, outcome: Outcome)

  function AppliedBatches(calls: seq<Call>): seq<seq<nat>>
  {
    if calls == [] then []
    else AppliedBatches(calls[..|calls| - 1])
         + (if calls[|calls| - 1].outcome.Applied? then [calls[|calls| - 1].batch] else [])
  }

  function Changed(calls: seq<Call>): seq<nat>
  {
    if calls == [] then []
    else Changed(calls[..|calls| - 1])
         + (if calls[|calls| - 1].outcome.Applied? then calls[|calls| - 1].outcome.users else [])
  }

  ghost predicate Refused(calls: seq<Call>, batch: seq<nat>)
  {
    exists k :: 0 <= k < |calls| && calls[k].batch == batch && !calls[k].outcome.Applied?
  }

  ghost predicate EachRefused(calls: seq<Call>, busy: seq<nat>)
  {
    forall u | u in busy :: Refused(calls, [u])
  }

  lemma RefusedLater(calls: seq<Call>, more: Call, busy: seq<nat>)
    requires EachRefused(calls, busy)
    ensures EachRefused(calls + [more], busy)
  {
    forall u | u in busy ensures Refused(calls + [more], [u]) {
      var k :| 0 <= k < |calls| && calls[k].batch == [u] && !calls[k].outcome.Applied?;
      assert (calls + [more])[k] == calls[k];
    }
  }

  /** `collect_reconciliation_outcome`: applied, busy when alone, halved otherwise. */
  method Collect(batch: seq<nat>, outcome: Outcome, pending: seq<seq<nat>>, applied: seq<nat>, busy: seq<nat>)
    returns (pending': seq<seq<nat>>, applied': seq<nat>, busy': seq<nat>)
    requires batch != [] && !outcome.Failed?
    ensures applied' == applied + if outcome.Applied? then outcome.users else []
    ensures multiset(busy') + Users(pending') + (if outcome.Applied? then multiset(batch) else multiset{})
         == multiset(busy) + Users(pending) + multiset(batch)
    ensures busy' == busy || (!outcome.Applied? && |batch| == 1 && busy' == busy + batch)
    ensures Cost(pending') + 1 <= Cost(pending) + Cost([batch])
    ensures pending' == if outcome.Applied? || |batch| == 1 then pending
                        else pending + [batch[..|batch| / 2], batch[|batch| / 2..]]
  {
    pending', applied', busy' := pending, applied, busy;
    OneBatch(batch);
    match outcome
    case Applied(users) =>
      applied' := applied + users;
    case Contended | SnapshotChanged =>
      if |batch| == 1 {
        busy' := busy + batch;
      } else {
        var middle := |batch| / 2;
        Halves(batch, middle);
        AppendBatches(pending, [batch[..middle], batch[middle..]]);
        pending' := pending + [batch[..middle], batch[middle..]];
      }
  }

  /** Starts queued batches while there is room; an empty one costs nothing. */
  method Spawn(pending: seq<seq<nat>>, tasks: seq<seq<nat>>) returns (pending': seq<seq<nat>>, tasks': seq<seq<nat>>)
    requires |tasks| <= CONCURRENCY && forall b | b in tasks :: b != []
    ensures |tasks'| <= CONCURRENCY && forall b | b in tasks' :: b != []
    ensures Users(pending') + Users(tasks') == Users(pending) + Users(tasks)
    ensures Cost(pending') + Cost(tasks') == Cost(pending) + Cost(tasks)
    ensures tasks' == [] ==> pending' == []
  {
    pending', tasks' := pending, tasks;
    while |tasks'| < CONCURRENCY && pending' != []
      invariant |tasks'| <= CONCURRENCY && forall b | b in tasks' :: b != []
      invariant Users(pending') + Users(tasks') == Users(pending) + Users(tasks)
      invariant Cost(pending') + Cost(tasks') == Cost(pending) + Cost(tasks)
      decreases |pending'|
    {
      var batch := pending'[0];
      pending' := pending'[1..];
      if batch != [] {
        AppendBatches(tasks', [batch]);
        OneBatch(batch);
        tasks' := tasks' + [batch];
      }
    }
  }

  predicate AtMost(a: nat, b: nat) { a <= b }

  lemma AtMostOrder()
    ensures TotalPreorder(AtMost) && Antisymmetric(AtMost)
  {
  }

  lemma Starting(users: seq<nat>)
    ensures Users([users]) == multiset(users) && Users([]) == multiset{} && Cost([]) == 0
    ensures Cost([users]) == if users == [] then 0 else 2 * |users| - 1
    ensures AppliedBatches([]) == [] && Changed([]) == [] && EachRefused([], [])
    ensures Conserved(users, [], [], [users], [])
  {
    OneBatch(users);
  }

  /** What a completed call adds to the record. */
  lemma Recorded(calls: seq<Call>, call: Call)
    ensures Users(AppliedBatches(calls + [call]))
         == Users(AppliedBatches(calls)) + if call.outcome.Applied? then multiset(call.batch) else multiset{}
    ensures Changed(calls + [call]) == Changed(calls) + if call.outcome.Applied? then call.outcome.users else []
    ensures call.batch != [] ==> Cost([call.batch]) >= 1
  {
    assert (calls + [call])[..|calls|] == calls;
    OneBatch(call.batch);
    AppendBatches(AppliedBatches(calls), [call.batch]);
    AppendBatches(AppliedBatches(calls), []);
  }

  /** Every user of the page is in an applied batch, busy, queued or running. */
  ghost predicate Conserved(users: seq<nat>, calls: seq<Call>, busy: seq<nat>, pending: seq<seq<nat>>, tasks: seq<seq<nat>>)
  {
    Users(AppliedBatches(calls)) + multiset(busy) + Users(pending) + Users(tasks) == multiset(users)
  }

  lemma Respawned(users: seq<nat>, calls: seq<Call>, busy: seq<nat>, pending: seq<seq<nat>>, tasks: seq<seq<nat>>,
                  pending': seq<seq<nat>>, tasks': seq<seq<nat>>)
    requires Conserved(users, calls, busy, pending, tasks)
    requires Users(pending') + Users(tasks') == Users(pending) + Users(tasks)
    ensures Conserved(users, calls, busy, pending', tasks')
  {
    hide Users, AppliedBatches;
    var done := Users(AppliedBatches(calls)) + multiset(busy);
    var p, t, p', t' := Users(pending), Users(tasks), Users(pending'), Users(tasks');
    forall u: nat ensures (done + p' + t')[u] == (done + p + t)[u] {
      assert (p' + t')[u] == (p + t)[u];
    }
  }

  /** A completed call moves its batch from the running ones to the applied, the busy or the queued users. */
  lemma Completed(users: seq<nat>, calls: seq<Call>, busy: seq<nat>, pending: seq<seq<nat>>, tasks: seq<seq<nat>>,
                  call: Call, busy': seq<nat>, pending': seq<seq<nat>>, tasks': seq<seq<nat>>)
    requires Conserved(users, calls, busy, pending, tasks)
    requires Users(tasks) == Users(tasks') + multiset(call.batch)
    requires multiset(busy') + Users(pending') + (if call.outcome.Applied? then multiset(call.batch) else multiset{})
          == multiset(busy) + Users(pending) + multiset(call.batch)
    ensures Conserved(users, calls + [call], busy', pending', tasks')
  {
    Recorded(calls, call);
    hide Users, AppliedBatches;
    var a, b, p, t := Users(AppliedBatches(calls)), multiset(busy), Users(pending), Users(tasks);
    var a', b', p', t' := Users(AppliedBatches(calls + [call])), multiset(busy'), Users(pending'), Users(tasks');
    var x, m := if call.outcome.Applied? then multiset(call.batch) else multiset{}, multiset(call.batch);
    forall u: nat ensures (a' + b' + p' + t')[u] == (a + b + p + t)[u] {
      assert (b' + p' + x)[u] == (b + p + m)[u];
    }
  }

  lemma BusyRefused(calls: seq<Call>, call: Call, before: seq<nat>, after: seq<nat>)
    requires EachRefused(calls, before)
    requires after == before || (!call.outcome.Applied? && |call.batch| == 1 && after == before + call.batch)
    ensures EachRefused(calls + [call], after)
  {
    RefusedLater(calls, call, before);
    assert (calls + [call])[|calls|] == call;
    forall u | u in after ensures Refused(calls + [call], [u]) {
      if u !in before {
        assert call.batch == [u];
      }
    }
  }

  /**
   The page's users split between the applied batches and `busy`, and at most 2n - 1 calls are made.
   `pick` chooses which call completes next and `outcome` what it reports.
   */
  method Reconcile(users: seq<nat>, pick: nat -> nat, outcome: (nat, seq<nat>) -> Outcome)
    returns (r: Result<(seq<nat>, seq<nat>), ()>, calls: seq<Call>)
    ensures |calls| <= if users == [] then 0 else 2 * |users| - 1
    ensures forall k | 0 <= k < |calls| :: calls[k].outcome == outcome(k, calls[k].batch)
    ensures r.Err? <==> exists k :: 0 <= k < |calls| && calls[k].outcome.Failed?
    ensures r.Ok? ==>
              var (applied, busy) := r.value;
              && multiset(users) == Users(AppliedBatches(calls)) + multiset(busy)
              && EachRefused(calls, busy)
              && applied == Sort(Changed(calls), AtMost)
              && Sorted(busy, AtMost)
  {
    hide Users, Cost, EachRefused, Sort, Sorted, AppliedBatches, Changed, Conserved;
    var pending, tasks: seq<seq<nat>> := [users], [];
    var applied: seq<nat>, busy: seq<nat> := [], [];
    calls := [];
    Starting(users);
    while true
      invariant |tasks| <= CONCURRENCY && forall b | b in tasks :: b != []
      invariant |calls| + Cost(pending) + Cost(tasks) <= Cost([users])
      invariant Conserved(users, calls, busy, pending, tasks)
      invariant EachRefused(calls, busy) && applied == Changed(calls)
      invariant forall k | 0 <= k < |calls| :: calls[k].outcome == outcome(k, calls[k].batch) && !calls[k].outcome.Failed?
      decreases Cost(pending) + Cost(tasks)
    {
      ghost var waiting, started := pending, tasks;
      pending, tasks := Spawn(pending, tasks);
      Respawned(users, calls, busy, waiting, started, pending, tasks);
      if tasks == [] {
        break;
      }
      var i := pick(|calls|) % |tasks|;
      var batch := tasks[i];
      assert batch in tasks;
      TakeOut(tasks, i);
      ghost var queued, running := pending, tasks;
      tasks := tasks[..i] + tasks[i + 1..];
      assert forall b | b in tasks :: b in running;
      var reported := outcome(|calls|, batch);
      ghost var before, busyBefore := calls, busy;
      Recorded(calls, Call(batch, reported));
      calls := calls + [Call(batch, reported)];
      if reported.Failed? {
        assert calls[|calls| - 1].outcome.Failed?;
        return Err(()), calls;
      }
      pending, applied, busy := Collect(batch, reported, pending, applied, busy);
      BusyRefused(before, Call(batch, reported), busyBefore, busy);
      Completed(users, before, busyBefore, queued, running, Call(batch, reported), busy, pending, tasks);
    }
    AtMostOrder();
    SortSorted(busy, AtMost);
    assert pending == [] && tasks == [];
    AllDone(users, calls, busy);
    SortedRefused(calls, busy);
    return Ok((Sort(applied, AtMost), Sort(busy, AtMost))), calls;
  }

  lemma AllDone(users: seq<nat>, calls: seq<Call>, busy: seq<nat>)
    ensures Conserved(users, calls, busy, [], []) ==> multiset(users) == Users(AppliedBatches(calls)) + multiset(busy)
  {
  }

  lemma SortedRefused(calls: seq<Call>, busy: seq<nat>)
    requires EachRefused(calls, busy)
    ensures EachRefused(calls, Sort(busy, AtMost))
  {
    SortKeepsElements(busy, AtMost);
    hide Sort, Refused;
  }

  // ---------------------------------------------------------------- who is busy

  /** A batch is refused exactly when it holds a locked user. */
  ghost predicate LockedOut(calls: seq<Call>, locked: set<nat>)
  {
    forall k | 0 <= k < |calls| :: calls[k].outcome.Applied? <==> forall u | u in calls[k].batch :: u !in locked
  }

  lemma {:induction false} AppliedAreFree(calls: seq<Call>, locked: set<nat>)
    requires LockedOut(calls, locked)
    ensures forall u | u in Users(AppliedBatches(calls)) :: u !in locked
  {
    if calls != [] {
      var k := |calls| - 1;
      assert calls == calls[..k] + [calls[k]];
      assert forall i | 0 <= i < k :: calls[..k][i] == calls[i];
      AppliedAreFree(calls[..k], locked);
      Recorded(calls[..k], calls[k]);
    }
  }

  /** Then the busy users are the locked ones, and everybody else was reconciled. */
  lemma BusyIsLocked(users: seq<nat>, calls: seq<Call>, busy: seq<nat>, locked: set<nat>)
    requires multiset(users) == Users(AppliedBatches(calls)) + multiset(busy)
    requires EachRefused(calls, busy) && LockedOut(calls, locked)
    ensures forall u :: u in busy <==> u in users && u in locked
    ensures forall u | u in users && u !in locked :: u in Users(AppliedBatches(calls)) && u !in busy
  {
    AppliedAreFree(calls, locked);
    hide Users, AppliedBatches;
    forall u | u in busy ensures u in users && u in locked {
      assert u in multiset(busy);
      assert u in multiset(users);
      var k :| 0 <= k < |calls| && calls[k].batch == [u] && !calls[k].outcome.Applied?;
      assert forall v | v in [u] :: v == u;
    }
    forall u | u in users ensures u in busy || u in Users(AppliedBatches(calls)) {
      assert u in multiset(users);
    }
  }

  /** With distinct users, each ends in exactly one of the two. */
  lemma EachUserOnce(users: seq<nat>, calls: seq<Call>, busy: seq<nat>, u: nat)
    requires multiset(users) == Users(AppliedBatches(calls)) + multiset(busy) && Distinct(users) && u in users
    ensures Users(AppliedBatches(calls))[u] + multiset(busy)[u] == 1
  {
    DistinctCounts(users);
    hide Users, AppliedBatches;
    assert u in multiset(users);
  }
}
