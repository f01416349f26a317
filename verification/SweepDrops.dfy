/**
 When a contribution sweep takes a user's last row away: exactly at archived rows and at superseded
 acknowledgements whose pending row is ahead, and never at the latter under the discipline of `Disciplined`.
 */
module SweepDrops {
  import opened Wrappers
  import opened SweepSteps
  import opened SweepInvariant

  /** A superseded row loses only users between its own cursor and the pending one. */
  lemma DropsAhead(s: State, step: Step, u: nat)
    requires Inv(s) && Loses(s, step, u) && !Archives(s, step)
    ensures Supersedes(s, step) && HasPending(s.rows)
    ensures s.rows[Target(step)].cursor < u <= s.rows[Pending(s.rows)].cursor
  {
    LosesExactly(s, step, u);
    TakenAway(s, step);
    WhoCovers(s, Target(step), u);
    PendingIsAhead(s, step, u);
  }

  lemma WhoCovers(s: State, id: nat, u: nat)
    requires Waiting(s, u) && OnlyCover(s, id, u)
    ensures id in s.rows && Covers(s, id, u)
  {
    hide Passed;
  }

  lemma PendingIsAhead(s: State, step: Step, u: nat)
    requires Inv(s) && Supersedes(s, step) && OnlyCover(s, Target(step), u)
    ensures HasPending(s.rows) && u <= s.rows[Pending(s.rows)].cursor
  {
    hide Tracked, Onward, Passed;
    var p := Pending(s.rows);
    assert p != Target(step) && !s.rows[p].live;
    assert !Covers(s, p, u);
  }

  /**
   A superseded acknowledgement, deferral or failed attempt, takes the last row of a waiting user exactly
   when the pending row is not behind the user and no third row covers them.
   */
  lemma SupersededExactly(s: State, step: Step, u: nat)
    requires Inv(s) && Supersedes(s, step) && u in s.owed && Waiting(s, u)
    ensures HasPending(s.rows)
    ensures Loses(s, step, u) <==>
            (&& s.rows[Pending(s.rows)].cursor >= u
             && forall i | i in s.rows && i != Target(step) && i != Pending(s.rows) :: !Covers(s, i, u))
  {
    LosesExactly(s, step, u);
    hide Loses, Waiting, Tracked, Onward, Passed;
    var p := Pending(s.rows);
    assert p != Target(step) && !s.rows[p].live;
    assert Covers(s, p, u) <==> s.rows[p].cursor < u;
  }

  // ---------------------------------------------------------------- the discipline

  /**
   What rules it out: requests start at 0, a row is claimed only while no other one is running, and the
   continuation is enqueued under a live lease.
   */
  ghost predicate Disciplined(s: State, step: Step)
  {
    match step
    case Asked(after) => after == 0
    case Claimed(id) => forall k | k in s.rows && s.rows[k].running :: k == id
    case Continued(job) => Holds(s.rows, job)
    case _ => true
  }

  ghost predicate AllDisciplined(s: State, steps: seq<Step>)
    decreases |steps|
  {
    steps == [] || (Disciplined(s, steps[0]) && AllDisciplined(Apply(s, steps[0]), steps[1..]))
  }

  ghost predicate OneRunning(s: State)
  {
    forall i, j | i in s.rows && j in s.rows && s.rows[i].running && s.rows[j].running :: i == j
  }

  predicate Reached(rows: map<nat, Row>, u: nat) { exists i :: i in rows && rows[i].cursor < u }

  /** A pending row is behind everybody owed whom some row is behind. */
  ghost predicate Behind(s: State)
  {
    forall p, u | p in s.rows && !s.rows[p].running && u in s.owed && Reached(s.rows, u) :: s.rows[p].cursor < u
  }

  /** Whoever is owed again after the running execution passed them has a pending row. */
  ghost predicate Renewed(s: State)
  {
    forall i, u | i in s.rows && s.rows[i].live && u in s.owed && Passed(s.work, Job(i, s.rows[i].generation), u) ::
      HasPending(s.rows)
  }

  ghost predicate Orderly(s: State) { OneRunning(s) && Behind(s) && Renewed(s) && forall u | u in s.users :: u > 0 }

  /** A request from 0 puts any queue with one running row in order. */
  lemma OrderlyRequest(s: State)
    requires Inv(s) && OneRunning(s) && forall u | u in s.users :: u > 0
    ensures Orderly(Request(s, 0))
  {
    hide Tracked, Onward, Enqueue, HasPending;
    var t := s.(owed := s.owed + Concerned(s.users, 0));
    SameRows(s, t);
    EnqueueShape(t, 0);
    EnqueueUnique(t, 0);
    var after, p := Enqueue(t, 0), EnqueuedId(t);
    assert HasPending(after.rows) by { FindPending(after.rows, p); }
    OwedAreUsers(s);
    assert forall u | u in after.owed :: u > 0;
  }

  lemma FindPending(rows: map<nat, Row>, p: nat)
    requires p in rows && !rows[p].running
    ensures HasPending(rows)
  {
  }

  lemma OwedAreUsers(s: State)
    requires Inv(s)
    ensures forall u | u in s.owed :: u in s.users
  {
    hide PageDone, Ascending;
  }

  lemma OrderlyClaim(s: State, id: nat)
    requires Inv(s) && Orderly(s) && forall k | k in s.rows && s.rows[k].running :: k == id
    ensures Orderly(Claim(s, id))
  {
    hide Tracked, Onward, Reached, HasPending;
    var t := Claim(s, id);
    forall u | Reached(t.rows, u) ensures Reached(s.rows, u) {
      ReachedBefore(s.rows, t.rows, u);
    }
    if id in s.rows && !OtherLive(s.rows, id) && s.rows[id].attempts < MAX_ATTEMPTS {
      assert t.work[Job(id, t.rows[id].generation)] == Work(s.rows[id].cursor, {}, {}, false);
      assert forall i | i in t.rows && t.rows[i].live :: i == id;
    }
  }

  lemma ReachedBefore(rows: map<nat, Row>, rows': map<nat, Row>, u: nat)
    requires forall i | i in rows' :: i in rows && rows[i].cursor == rows'[i].cursor
    requires Reached(rows', u)
    ensures Reached(rows, u)
  {
  }

  lemma OrderlyExpire(s: State, id: nat)
    requires Orderly(s)
    ensures Orderly(Expire(s, id))
  {
    hide Reached;
    var t := Expire(s, id);
    forall u | Reached(t.rows, u) ensures Reached(s.rows, u) {
      ReachedBefore(s.rows, t.rows, u);
    }
    if HasPending(s.rows) {
      var p :| p in s.rows && !s.rows[p].running;
      FindPending(t.rows, p);
    }
  }

  lemma OrderlyPasses(s: State, t: State, job: Job, batch: set<nat>)
    requires Orderly(s) && Passes(s, t, job, batch)
    ensures Orderly(t)
  {
    hide Reached, HasPending;
  }

  lemma OrderlyMarked(s: State, t: State, job: Job)
    requires Orderly(s) && job in s.work && t == s.(work := s.work[job := s.work[job].(continued := true)])
    ensures Orderly(t)
  {
    hide Reached, HasPending;
  }

  /** A continuation keeps the order when everybody its new row could skip is behind it. */
  lemma OrderlyEnqueue(s: State, after: nat)
    requires Unique(s) && Orderly(s)
    requires HasPending(s.rows) || forall u | u in s.owed && Reached(s.rows, u) :: after < u
    ensures Orderly(Enqueue(s, after))
  {
    EnqueueShape(s, after);
    EnqueueUnique(s, after);
    hide Enqueue, HasPending;
    var t, p := Enqueue(s, after), EnqueuedId(s);
    FindPending(t.rows, p);
    forall q, u | q in t.rows && !t.rows[q].running && u in t.owed && Reached(t.rows, u) ensures t.rows[q].cursor < u {
      assert q == p;
      var i :| i in t.rows && t.rows[i].cursor < u;
      if i != p {
        assert Reached(s.rows, u);
      }
    }
  }

  lemma OrderlyContinue(s: State, job: Job)
    requires Inv(s) && Orderly(s) && Holds(s.rows, job)
    ensures Orderly(Continue(s, job))
  {
    hide Onward, Enqueue, Next, Page, HasPending, Orderly;
    if job in s.work && PageDone(s.users, s.work[job]) && !s.work[job].continued {
      var next := Next(s.users, s.work[job].cursor);
      var after := s;
      if next.Some? {
        if !HasPending(s.rows) {
          forall u | u in s.owed && Reached(s.rows, u) ensures next.value < u {
            BeyondThePage(s, job, u);
          }
        }
        OrderlyEnqueue(s, next.value);
        EnqueueShapeWork(s, next.value);
        after := Enqueue(s, next.value);
      }
      OrderlyMarked(after, Continue(s, job), job);
    }
  }

  /** With nothing pending, everybody owed is beyond the page that the one running row completed. */
  lemma BeyondThePage(s: State, job: Job, u: nat)
    requires Inv(s) && Orderly(s) && Holds(s.rows, job) && !HasPending(s.rows)
    requires job in s.work && PageDone(s.users, s.work[job]) && Next(s.users, s.work[job].cursor).Some?
    requires u in s.owed && Reached(s.rows, u)
    ensures Next(s.users, s.work[job].cursor).value < u
  {
    hide Onward, Next, Page;
    OwedAreUsers(s);
    var i :| i in s.rows && s.rows[i].cursor < u;
    assert s.rows[i].running && s.rows[job.id].running;
    assert i == job.id && !Passed(s.work, job, u);
    PageOrBeyond(s.users, s.work[job].cursor, u);
  }

  lemma OrderlyRemove(s: State, t: State, id: nat)
    requires Inv(s) && Orderly(s) && id in s.rows && s.rows[id].live
    requires t.rows == s.rows - {id} && t.owed == s.owed && t.users == s.users
    ensures Orderly(t)
  {
    hide Tracked, Onward, Reached, HasPending;
    forall u | Reached(t.rows, u) ensures Reached(s.rows, u) {
      ReachedBefore(s.rows, t.rows, u);
    }
  }

  lemma OrderlyRelease(s: State, id: nat, row: Row)
    requires Inv(s) && Orderly(s) && id in s.rows && s.rows[id].live && !HasPending(s.rows)
    requires row.cursor == s.rows[id].cursor
    ensures Orderly(Release(s, id, row))
  {
    hide Tracked, Onward, Passed;
    var t := Release(s, id, row);
    forall u | u in t.owed && Reached(t.rows, u) ensures row.cursor < u {
      var i :| i in t.rows && t.rows[i].cursor < u;
      assert s.rows[i].running && s.rows[id].running;
    }
  }

  lemma OrderlyFinish(s: State, job: Job, failed: bool)
    requires Inv(s) && Orderly(s)
    ensures Orderly(Finish(s, job, failed))
  {
    hide Inv, Orderly, HasPending, Release;
    if Finish(s, job, failed) != s {
      if failed && s.rows[job.id].attempts < MAX_ATTEMPTS && !HasPending(s.rows) {
        OrderlyRelease(s, job.id, s.rows[job.id]);
      } else {
        OrderlyRemove(s, Finish(s, job, failed), job.id);
      }
    }
  }

  lemma OrderlyDefer(s: State, job: Job)
    requires Inv(s) && Orderly(s)
    ensures Orderly(Defer(s, job))
  {
    hide Inv, Orderly, HasPending, Release;
    if Holds(s.rows, job) {
      if HasPending(s.rows) {
        OrderlyRemove(s, Defer(s, job), job.id);
      } else {
        var row := s.rows[job.id];
        OrderlyRelease(s, job.id, row.(attempts := if row.attempts == 0 then 0 else row.attempts - 1,
                                       deferCount := Min(MAX_DEFER, row.deferCount + 1)));
      }
    }
  }

  lemma OrderlyParts(s: State)
    requires Orderly(s)
    ensures OneRunning(s) && forall u | u in s.users :: u > 0
  {
  }

  lemma OrderlyStep(s: State, step: Step)
    requires Inv(s) && Orderly(s) && Disciplined(s, step)
    ensures Orderly(Apply(s, step))
  {
    OrderlyParts(s);
    hide Inv, Orderly, OneRunning, Request, Claim, Expire, Continue, Finish, Defer, Page;
    match step
    case Asked(after) => OrderlyRequest(s);
    case Claimed(id) => OrderlyClaim(s, id);
    case Expired(id) => OrderlyExpire(s, id);
    case Settled(job, batch) =>
      if Settle(s, job, batch) != s {
        OrderlyPasses(s, Settle(s, job, batch), job, batch);
      }
    case Handed(job, user) =>
      if Hand(s, job, user) != s {
        OrderlyPasses(s, Hand(s, job, user), job, {user});
      }
    case Continued(job) => OrderlyContinue(s, job);
    case Finished(job, failed) => OrderlyFinish(s, job, failed);
    case Deferred(job) => OrderlyDefer(s, job);
  }

  /** In order, no superseded row takes anybody's last row: only an archived one does. */
  lemma OrderlyLosesByArchive(s: State, step: Step, u: nat)
    requires Inv(s) && Orderly(s) && Loses(s, step, u)
    ensures Archives(s, step)
  {
    hide Inv, Supersedes, Archives, OneRunning, Renewed, Apply, Passed;
    if !Archives(s, step) {
      DropsAhead(s, step, u);
      WaitingIsReached(s, u);
      PendingIsBehind(s, u);
    }
  }

  lemma PendingIsBehind(s: State, u: nat)
    requires Orderly(s) && HasPending(s.rows) && u in s.owed && Reached(s.rows, u)
    ensures s.rows[Pending(s.rows)].cursor < u
  {
    hide Reached, Renewed, OneRunning;
  }

  lemma WaitingIsReached(s: State, u: nat)
    requires Waiting(s, u)
    ensures Reached(s.rows, u)
  {
    hide Passed;
  }

  // ---------------------------------------------------------------- disciplined runs

  lemma {:induction false} OrderlyPrefix(s: State, steps: seq<Step>, k: nat)
    requires Inv(s) && Orderly(s) && AllDisciplined(s, steps) && k <= |steps|
    ensures Inv(Run(s, steps[..k])) && Orderly(Run(s, steps[..k]))
    decreases |steps|
  {
    hide Apply, Disciplined, Inv, Orderly, Archives, Supersedes, Held;
    if k > 0 {
      StepKeeps(s, steps[0]);
      OrderlyStep(s, steps[0]);
      OrderlyPrefix(Apply(s, steps[0]), steps[1..], k - 1);
      assert steps[..k][0] == steps[0] && steps[..k][1..] == steps[1..][..k - 1];
    }
  }

  /** Lost to an archived row, and not requested again since. */
  ghost predicate ExhaustedSince(s: State, steps: seq<Step>, u: nat)
  {
    exists k :: 0 <= k < |steps| && LostAt(s, steps, k, u) && Archives(Run(s, steps[..k]), steps[k])
  }

  /**
   From any state with one running row: after a request every disciplined run serves each user later on,
   or keeps them waiting in a row, unless the row that alone covered them was archived after three failed
   attempts and nobody has asked for them since.  No acknowledgement ever takes away a last row.
   */
  lemma DisciplinedRun(s: State, steps: seq<Step>, u: nat)
    requires Inv(s) && OneRunning(s) && (forall x | x in s.users :: x > 0) && AllDisciplined(Request(s, 0), steps)
    requires u in s.users
    ensures var asked := Request(s, 0);
      var t := Run(asked, steps);
      if u in t.owed then Waiting(t, u) || ExhaustedSince(asked, steps, u) else Served(asked, steps, u)
    ensures forall k, v | 0 <= k < |steps| && Loses(Run(Request(s, 0), steps[..k]), steps[k], v) ::
              Archives(Run(Request(s, 0), steps[..k]), steps[k])
  {
    var asked := Request(s, 0);
    assert u in Concerned(s.users, 0);
    OrderlyRequest(s);
    RequestKeeps(s, 0);
    RequestIsKept(s, 0, steps, u);
    hide Inv, Orderly, Request, AllDisciplined, Loses, Archives, Run, Waiting, Served, Requests;
    forall k, v | 0 <= k < |steps| && Loses(Run(asked, steps[..k]), steps[k], v)
      ensures Archives(Run(asked, steps[..k]), steps[k])
    {
      OrderlyPrefix(asked, steps, k);
      OrderlyLosesByArchive(Run(asked, steps[..k]), steps[k], v);
    }
    if LostSince(asked, steps, u) {
      var k :| 0 <= k < |steps| && LostAt(asked, steps, k, u);
      assert Archives(Run(asked, steps[..k]), steps[k]);
    }
  }

  lemma {:induction false} DisciplinedSplit(s: State, before: seq<Step>, steps: seq<Step>)
    requires AllDisciplined(s, before + steps)
    ensures AllDisciplined(s, before) && AllDisciplined(Run(s, before), steps)
    decreases |before|
  {
    hide Apply, Disciplined;
    if before == [] {
      assert before + steps == steps;
    } else {
      assert (before + steps)[1..] == before[1..] + steps;
      DisciplinedSplit(Apply(s, before[0]), before[1..], steps);
    }
  }

  /** From an empty queue and the users of a level: every request of every disciplined run. */
  lemma NobodyIsDropped(users: seq<nat>, before: seq<Step>, steps: seq<Step>, u: nat)
    requires Ascending(users) && (users != [] ==> users[0] > 0) && u in users
    requires AllDisciplined(Start(users), before + ([Asked(0)] + steps))
    ensures var asked := Request(Run(Start(users), before), 0);
      var t := Run(asked, steps);
      if u in t.owed then Waiting(t, u) || ExhaustedSince(asked, steps, u) else Served(asked, steps, u)
  {
    forall x | x in users ensures x > 0 {
      var i :| 0 <= i < |users| && users[i] == x;
      assert i > 0 ==> users[0] < users[i];
    }
    StartInv(users);
    assert Orderly(Start(users));
    DisciplinedSplit(Start(users), before, [Asked(0)] + steps);
    RunUsers(Start(users), before);
    OrderlyPrefix(Start(users), before, |before|);
    assert before[..|before|] == before;
    var s := Run(Start(users), before);
    assert ([Asked(0)] + steps)[1..] == steps;
    OrderlyParts(s);
    hide Inv, Orderly, OneRunning, Run, Waiting, Served, ExhaustedSince, Request;
    DisciplinedRun(s, steps, u);
  }
}
