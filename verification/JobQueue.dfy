/**
 The queue as the source updates it (crates/jobs/src/queue.rs, handlers.rs, runtime.rs and the zc_jobs
 functions), proved against the steps of a sweep.
 */
module JobQueue {
  import opened Wrappers
  import opened SweepSteps
  import opened SweepInvariant

  /** What an execution came to: the handler's outcome, or its error. */
  datatype Handled = Completed | Postponed | Failed(unavailable: bool)

  class Queue {
    const users: seq<nat>
    var rows: map<nat, Row>
    var nextId: nat
    var archive: seq<Row>
    var work: map<Job, Work>
    ghost var owed: set<nat>

    constructor (users: seq<nat>)
      ensures View() == Start(users)
    {
      this.users := users;
      rows, nextId, archive, work := map[], 0, [], map[];
      owed := {};
    }

    ghost function View(): State
      reads this
    {
      State(users, rows, nextId, archive, work, owed)
    }

    method EnqueueLevelProjection(after: nat) returns (id: nat)
      requires Unique(View())
      modifies this`rows, this`nextId
      ensures View() == Enqueue(old(View()), after) && id == EnqueuedId(old(View()))
    {
      if p :| p in rows && !rows[p].running {
        assert HasPending(rows);
        var cursor := Min(rows[p].cursor, after);
        rows := rows[p := rows[p].(cursor := cursor, deferCount := 0)];
        return p;
      }
      id := nextId;
      rows := rows[id := Row(after, 0, 0, false, false, 0)];
      nextId := nextId + 1;
    }

    /** A request of a level projection, which every caller starts at the first user. */
    method RequestProjection(after: nat)
      requires Unique(View())
      modifies this`rows, this`nextId, this`owed
      ensures View() == Request(old(View()), after)
    {
      owed := owed + Concerned(users, after);
      assert Unique(View()) by { SameRows(old(View()), View()); }
      var _ := EnqueueLevelProjection(after);
    }

    /** One candidate of `zc_jobs.claim`: fenced, exhausted or leased. */
    method ClaimRow(id: nat) returns (claimed: Option<Job>)
      modifies this`rows, this`archive, this`work
      ensures View() == Claim(old(View()), id)
      ensures claimed.Some? ==> claimed.value.id == id && Holds(rows, claimed.value) && claimed.value in work
    {
      if id !in rows || OtherLive(rows, id) {
        return None;
      }
      var row := rows[id];
      if row.attempts >= MAX_ATTEMPTS {
        archive := archive + [row];
        rows := rows - {id};
        return None;
      }
      row := row.(running := true, live := true, attempts := row.attempts + 1, generation := row.generation + 1);
      rows := rows[id := row];
      var job := Job(id, row.generation);
      work := work[job := Work(row.cursor, {}, {}, false)];
      return Some(job);
    }

    method ExpireLease(id: nat)
      modifies this`rows
      ensures View() == Expire(old(View()), id)
    {
      if id in rows {
        rows := rows[id := rows[id].(live := false)];
      }
    }

    method SettleBatch(job: Job, batch: set<nat>)
      modifies this`work, this`owed
      ensures View() == Settle(old(View()), job, batch)
    {
      if job in work && batch <= PageSet(users, work[job].cursor) {
        work := work[job := work[job].(settled := work[job].settled + batch)];
        owed := owed - batch;
      }
    }

    method EnqueueRepair(job: Job, user: nat)
      modifies this`work, this`owed
      ensures View() == Hand(old(View()), job, user)
    {
      if job in work && user in Page(users, work[job].cursor) {
        work := work[job := work[job].(handed := work[job].handed + {user})];
        owed := owed - {user};
      }
    }

    method ContinuePage(job: Job)
      requires Unique(View())
      modifies this`rows, this`nextId, this`work
      ensures View() == Continue(old(View()), job)
    {
      hide PageDone, Next, Unique;
      if job in work && PageDone(users, work[job]) && !work[job].continued {
        var next := Next(users, work[job].cursor);
        if next.Some? {
          var _ := EnqueueLevelProjection(next.value);
        }
        work := work[job := work[job].(continued := true)];
      }
    }

    /** Acknowledges an execution; false when its lease is not its own any more. */
    method FinishJob(job: Job, failed: bool) returns (ok: bool)
      requires job in work && (failed || work[job].continued)
      modifies this`rows, this`archive
      ensures View() == Finish(old(View()), job, failed) && ok == old(Holds(rows, job))
    {
      if !Holds(rows, job) {
        return false;
      }
      var row := rows[job.id];
      if !failed {
        rows := rows - {job.id};
      } else if row.attempts >= MAX_ATTEMPTS {
        archive := archive + [row];
        rows := rows - {job.id};
      } else if HasPending(rows) {
        rows := rows - {job.id};
      } else {
        rows := rows[job.id := row.(running := false, live := false)];
      }
      return true;
    }

    method DeferJob(job: Job) returns (ok: bool)
      modifies this`rows
      ensures View() == Defer(old(View()), job) && ok == old(Holds(rows, job))
    {
      if !Holds(rows, job) {
        return false;
      }
      if HasPending(rows) {
        rows := rows - {job.id};
        return true;
      }
      var row := rows[job.id];
      var attempts := if row.attempts == 0 then 0 else row.attempts - 1;
      rows := rows[job.id := row.(running := false, live := false, attempts := attempts,
                                  deferCount := Min(MAX_DEFER, row.deferCount + 1))];
      return true;
    }

    /** `execute`: an outage of the database defers, any other error is a failed attempt. */
    method Acknowledge(job: Job, handled: Handled) returns (ok: bool)
      requires job in work && (handled.Completed? ==> work[job].continued)
      modifies this`rows, this`archive
      ensures ok == old(Holds(rows, job))
      ensures View() == if handled.Postponed? || (handled.Failed? && handled.unavailable) then Defer(old(View()), job)
                        else Finish(old(View()), job, handled.Failed?)
    {
      hide Finish, Defer;
      match handled
      case Completed => ok := FinishJob(job, false);
      case Postponed => ok := DeferJob(job);
      case Failed(unavailable) =>
        if unavailable {
          ok := DeferJob(job);
        } else {
          ok := FinishJob(job, true);
        }
    }

    /** The handler's page, once its batches committed: repairs for the busy users, then the continuation. */
    method HandlePage(job: Job, busy: seq<nat>)
      requires Inv(View()) && job in work && !work[job].continued
      requires PageSet(users, work[job].cursor) == work[job].settled + set u | u in busy
      modifies this
      ensures Inv(View()) && job in work && work[job].continued && PageDone(users, work[job])
      ensures work[job].settled == old(work[job].settled) && work[job].handed == old(work[job].handed) + set u | u in busy
      ensures owed == old(owed) - set u | u in busy
      ensures var next := Next(users, old(work[job].cursor)); next.Some? ==> PendingUpTo(rows, next.value)
    {
      hide Inv, Page, Unique, Tracked, Onward, Next, PageDone;
      ghost var settled, cursor := work[job].settled, work[job].cursor;
      for i := 0 to |busy|
        invariant Inv(View()) && job in work && work[job] == Work(cursor, settled, work[job].handed, false)
        invariant work[job].handed == old(work[job].handed) + set u | u in busy[..i]
        invariant owed == old(owed) - set u | u in busy[..i]
      {
        HandKeeps(View(), job, busy[i]);
        assert busy[i] in PageSet(users, cursor);
        EnqueueRepair(job, busy[i]);
        assert busy[..i + 1] == busy[..i] + [busy[i]];
      }
      assert busy[..|busy|] == busy;
      PageIsDone(users, work[job], busy);
      ContinueKeeps(View(), job);
      UniqueOf(View());
      ContinueMeans(View(), job);
      ContinuePage(job);
    }
  }

  /** A claim and the deferral of its execution. */
  ghost function Round(s: State, id: nat): State
  {
    if id in s.rows then Defer(Claim(s, id), Job(id, s.rows[id].generation + 1)) else s
  }

  ghost function Rounds(s: State, id: nat, n: nat): State
  {
    if n == 0 then s else Round(Rounds(s, id, n - 1), id)
  }

  /** Nothing waits beside the row and it can be claimed. */
  ghost predicate Alone(s: State, id: nat)
  {
    && id in s.rows && s.rows[id].attempts < MAX_ATTEMPTS
    && forall k | k in s.rows && k != id :: s.rows[k].running && !s.rows[k].live
  }

  /** However often a row is claimed and deferred while nothing waits beside it, it loses no attempt and no user. */
  lemma {:induction false} DeferralsCostNothing(s: State, id: nat, n: nat)
    requires Inv(s) && Alone(s, id)
    ensures var t := Rounds(s, id, n);
      && Inv(t) && Alone(t, id) && t.rows[id].attempts == s.rows[id].attempts && t.rows[id].cursor == s.rows[id].cursor
      && t.archive == s.archive && t.owed == s.owed && (n > 0 ==> !t.rows[id].running)
      && forall u | Waiting(s, u) :: Waiting(t, u)
  {
    hide Inv, Alone, Waiting;
    if n > 0 {
      DeferralsCostNothing(s, id, n - 1);
      RoundCostsNothing(Rounds(s, id, n - 1), id);
    }
  }

  lemma RoundCostsNothing(s: State, id: nat)
    requires Inv(s) && Alone(s, id)
    ensures var t := Round(s, id);
      && Inv(t) && Alone(t, id) && t.rows[id].attempts == s.rows[id].attempts && t.rows[id].cursor == s.rows[id].cursor
      && t.archive == s.archive && t.owed == s.owed && !t.rows[id].running
      && forall u | Waiting(s, u) :: Waiting(t, u)
  {
    var claimed, job := Claim(s, id), Job(id, s.rows[id].generation + 1);
    ClaimKeeps(s, id);
    DeferKeeps(claimed, job);
    hide Inv, Waiting;
    assert !HasPending(claimed.rows);
    forall u | Waiting(s, u) ensures Waiting(Round(s, id), u) {
      RoundWaits(s, id, u);
    }
  }

  lemma RoundWaits(s: State, id: nat, u: nat)
    requires Alone(s, id) && Waiting(s, u)
    ensures Waiting(Round(s, id), u)
  {
    var t := Round(s, id);
    assert !HasPending(Claim(s, id).rows);
    var i :| i in s.rows && Covers(s, i, u);
    assert Covers(t, i, u);
  }

  /** Failed attempts are counted: the third one archives the row instead of retrying it. */
  lemma FailuresAreBounded(s: State, id: nat)
    requires Inv(s) && id in s.rows && !OtherLive(s.rows, id) && s.rows[id].attempts < MAX_ATTEMPTS
    ensures var t := Finish(Claim(s, id), Job(id, s.rows[id].generation + 1), true);
      && (s.rows[id].attempts == MAX_ATTEMPTS - 1 ==> id !in t.rows && t.archive == s.archive + [Claim(s, id).rows[id]])
      && (id in t.rows ==> t.rows[id].attempts == s.rows[id].attempts + 1 && t.rows[id].cursor == s.rows[id].cursor)
  {
    hide Inv;
  }

  lemma UniqueOf(s: State)
    requires Inv(s)
    ensures Unique(s)
  {
  }

  lemma PageIsDone(users: seq<nat>, w: Work, busy: seq<nat>)
    requires PageSet(users, w.cursor) == w.settled + set u | u in busy
    requires forall u | u in busy :: u in w.handed
    ensures PageDone(users, w)
  {
    hide Page;
    forall u | u in Page(users, w.cursor) ensures u in w.settled || u in w.handed {
      assert u in PageSet(users, w.cursor);
    }
  }

  /** Continuing a finished page marks it and leaves its continuation waiting. */
  lemma ContinueMeans(s: State, job: Job)
    requires Inv(s) && job in s.work && PageDone(s.users, s.work[job]) && !s.work[job].continued
    ensures var t, next := Continue(s, job), Next(s.users, s.work[job].cursor);
      && t.owed == s.owed && t.work == s.work[job := s.work[job].(continued := true)] && PageDone(s.users, t.work[job])
      && (next.Some? ==> PendingUpTo(t.rows, next.value))
  {
    hide Tracked, Onward, Next, Enqueue, Page;
    var next := Next(s.users, s.work[job].cursor);
    if next.Some? {
      EnqueueUnique(s, next.value);
      EnqueueShapeWork(s, next.value);
    }
  }
}
