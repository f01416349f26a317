/**
 What every step of a contribution sweep keeps: one pending row and one live lease of the key, a waiting
 continuation beside a live row that continued, and a row for every owed user, unless the step takes away
 the last one.
 */
module SweepInvariant {
  import opened Wrappers
  import opened SweepSteps

  ghost predicate Unique(s: State)
  {
    && (forall i, j | i in s.rows && j in s.rows && !s.rows[i].running && !s.rows[j].running :: i == j)
    && (forall i, j | i in s.rows && j in s.rows && s.rows[i].live && s.rows[j].live :: i == j)
    && (forall i | i in s.rows :: i < s.nextId && (s.rows[i].live ==> s.rows[i].running))
  }

  ghost predicate Tracked(s: State)
  {
    && Ascending(s.users) && (forall u | u in s.owed :: u in s.users)
    && (forall j | j in s.work :: j.id < s.nextId && (j.id in s.rows ==> j.generation <= s.rows[j.id].generation))
    && (forall i | i in s.rows && s.rows[i].live ::
          Job(i, s.rows[i].generation) in s.work && s.work[Job(i, s.rows[i].generation)].cursor == s.rows[i].cursor)
    && (forall j | j in s.work && s.work[j].continued :: PageDone(s.users, s.work[j]))
  }

  predicate PendingUpTo(rows: map<nat, Row>, bound: nat)
  {
    exists p :: p in rows && !rows[p].running && rows[p].cursor <= bound
  }

  /** A live row that continued its page has its continuation waiting beside it. */
  ghost predicate Onward(s: State)
  {
    forall i | i in s.rows && s.rows[i].live && Job(i, s.rows[i].generation) in s.work
      && s.work[Job(i, s.rows[i].generation)].continued && Next(s.users, s.rows[i].cursor).Some? ::
      PendingUpTo(s.rows, Next(s.users, s.rows[i].cursor).value)
  }

  ghost predicate Inv(s: State) { Unique(s) && Tracked(s) && Onward(s) }

  // ---------------------------------------------------------------- one step at a time

  lemma EnqueueKeeps(s: State, after: nat)
    requires Unique(s) && Tracked(s) && Onward(s)
    ensures var t := Enqueue(s, after);
      && Unique(t) && Tracked(t) && Onward(t)
      && (forall u: nat | Waiting(s, u) || u > after :: Waiting(t, u))
      && PendingUpTo(t.rows, after)
  {
    EnqueueUnique(s, after);
    EnqueueTracked(s, after);
    EnqueueOnward(s, after);
    forall u: nat | Waiting(s, u) || u > after ensures Waiting(Enqueue(s, after), u) {
      EnqueueWaits(s, after, u);
    }
  }

  ghost function EnqueuedId(s: State): nat { if HasPending(s.rows) then Pending(s.rows) else s.nextId }

  lemma EnqueueShape(s: State, after: nat)
    requires Unique(s)
    ensures var t, p := Enqueue(s, after), EnqueuedId(s);
      && t == s.(rows := t.rows, nextId := t.nextId) && t.nextId >= s.nextId && p < t.nextId
      && t.rows.Keys == s.rows.Keys + {p} && (forall i | i in s.rows && i != p :: t.rows[i] == s.rows[i])
      && !t.rows[p].running && !t.rows[p].live && t.rows[p].cursor <= after
      && (p in s.rows ==> t.rows[p].cursor <= s.rows[p].cursor && t.rows[p].generation == s.rows[p].generation)
      && (p in s.rows ==> !s.rows[p].running)
      && (p !in s.rows ==> !HasPending(s.rows) && p == s.nextId)
  {
  }

  lemma EnqueueUnique(s: State, after: nat)
    requires Unique(s)
    ensures Unique(Enqueue(s, after)) && PendingUpTo(Enqueue(s, after).rows, after)
  {
    EnqueueShape(s, after);
    hide Enqueue;
    var t, p := Enqueue(s, after), EnqueuedId(s);
    assert p in t.rows && !t.rows[p].running && t.rows[p].cursor <= after;
  }

  lemma EnqueueTracked(s: State, after: nat)
    requires Unique(s) && Tracked(s)
    ensures Tracked(Enqueue(s, after))
  {
    EnqueueShape(s, after);
    hide Enqueue, PageDone, Ascending;
  }

  lemma EnqueueOnward(s: State, after: nat)
    requires Unique(s) && Onward(s)
    ensures Onward(Enqueue(s, after))
  {
    EnqueueShape(s, after);
    hide Enqueue, Next;
    var t, p := Enqueue(s, after), EnqueuedId(s);
    forall i | i in t.rows && t.rows[i].live && Job(i, t.rows[i].generation) in t.work
      && t.work[Job(i, t.rows[i].generation)].continued && Next(t.users, t.rows[i].cursor).Some?
      ensures PendingUpTo(t.rows, Next(t.users, t.rows[i].cursor).value)
    {
      var n := Next(t.users, t.rows[i].cursor).value;
      assert PendingUpTo(s.rows, n);
      var q :| q in s.rows && !s.rows[q].running && s.rows[q].cursor <= n;
      assert q == p && t.rows[p].cursor <= n;
    }
  }

  lemma EnqueueWaits(s: State, after: nat, u: nat)
    requires Unique(s) && (Waiting(s, u) || u > after)
    ensures Waiting(Enqueue(s, after), u)
  {
    EnqueueShape(s, after);
    hide Enqueue, Passed;
    var t, p := Enqueue(s, after), EnqueuedId(s);
    if u > after {
      assert Covers(t, p, u);
    } else {
      var i :| i in s.rows && Covers(s, i, u);
      assert Covers(t, i, u);
    }
  }

  lemma RequestKeeps(s: State, after: nat)
    requires Inv(s)
    ensures Inv(Request(s, after))
    ensures forall u: nat | Waiting(s, u) || u > after :: Waiting(Request(s, after), u)
  {
    hide Enqueue, Waiting, Ascending, PageDone, Next, Unique;
    var t := s.(owed := s.owed + Concerned(s.users, after));
    assert Unique(t) by { SameRows(s, t); }
    assert forall u :: Waiting(s, u) == Waiting(t, u) by { WaitingReads(s, t); }
    EnqueueKeeps(t, after);
  }

  lemma SameRows(s: State, t: State)
    requires Unique(s) && s.rows == t.rows && s.nextId == t.nextId
    ensures Unique(t)
  {
  }

  lemma WaitingReads(s: State, t: State)
    requires s.rows == t.rows && s.work == t.work
    ensures forall u :: Waiting(s, u) == Waiting(t, u)
  {
    hide Passed;
    forall u ensures Waiting(s, u) == Waiting(t, u) {
      if i :| i in s.rows && Covers(s, i, u) {
        assert Covers(t, i, u);
      }
      if i :| i in t.rows && Covers(t, i, u) {
        assert Covers(s, i, u);
      }
    }
  }

  /** Removing a row that is not a continuation some live row counts on. */
  lemma RemoveKeeps(s: State, id: nat)
    requires Unique(s) && Tracked(s) && Onward(s)
    requires id in s.rows && (s.rows[id].running || !OtherLive(s.rows, id))
    ensures var t := Delete(s, id); Unique(t) && Tracked(t) && Onward(t)
  {
    hide Ascending, PageDone, Next;
    var t := s.(rows := s.rows - {id});
    forall i | i in t.rows && t.rows[i].live && Job(i, t.rows[i].generation) in t.work
      && t.work[Job(i, t.rows[i].generation)].continued && Next(t.users, t.rows[i].cursor).Some?
      ensures PendingUpTo(t.rows, Next(t.users, t.rows[i].cursor).value)
    {
      var n := Next(t.users, t.rows[i].cursor).value;
      assert PendingUpTo(s.rows, n);
      var q :| q in s.rows && !s.rows[q].running && s.rows[q].cursor <= n;
      assert q in t.rows;
    }
  }

  lemma ArchiveKeeps(s: State, id: nat)
    requires Inv(s) && id in s.rows && (s.rows[id].running || !OtherLive(s.rows, id))
    ensures Inv(Archive(s, id))
  {
    RemoveKeeps(s, id);
    SameParts(Delete(s, id), Archive(s, id));
    hide Unique, Tracked, Onward;
  }

  lemma SameParts(s: State, t: State)
    requires t == s.(archive := t.archive) && Unique(s) && Tracked(s) && Onward(s)
    ensures Unique(t) && Tracked(t) && Onward(t)
  {
    hide Ascending, PageDone, Next, PendingUpTo;
  }

  /** Taking a row away leaves a user waiting exactly when another row covers them. */
  lemma RemovedWaits(s: State, t: State, id: nat, u: nat)
    requires t.rows == s.rows - {id} && t.work == s.work
    ensures Waiting(t, u) <==> exists i :: i in s.rows && i != id && Covers(s, i, u)
  {
    hide Passed;
    if i :| i in s.rows && i != id && Covers(s, i, u) {
      assert i in t.rows && Covers(t, i, u);
    }
    if i :| i in t.rows && Covers(t, i, u) {
      assert i in s.rows && Covers(s, i, u);
    }
  }

  // ---------------------------------------------------------------- what a step does to those who wait

  /** Whoever waits and is owed afterwards still waits. */
  ghost predicate Held(s: State, t: State)
  {
    forall u | u in t.owed && Waiting(s, u) :: Waiting(t, u)
  }

  /** The step archives a row whose attempts are exhausted. */
  predicate Archives(s: State, step: Step)
  {
    match step
    case Claimed(id) => id in s.rows && !OtherLive(s.rows, id) && s.rows[id].attempts >= MAX_ATTEMPTS
    case Finished(job, failed) => failed && Holds(s.rows, job) && s.rows[job.id].attempts >= MAX_ATTEMPTS
    case _ => false
  }

  /** The step deletes an unfinished row in favour of the pending one. */
  predicate Supersedes(s: State, step: Step)
  {
    match step
    case Finished(job, failed) =>
      failed && Holds(s.rows, job) && s.rows[job.id].attempts < MAX_ATTEMPTS && HasPending(s.rows)
    case Deferred(job) => Holds(s.rows, job) && HasPending(s.rows)
    case _ => false
  }

  /** The row a step acts on. */
  function Target(step: Step): nat
  {
    match step
    case Claimed(id) => id
    case Expired(id) => id
    case Asked(_) => 0
    case Settled(job, _) => job.id
    case Handed(job, _) => job.id
    case Continued(job) => job.id
    case Finished(job, _) => job.id
    case Deferred(job) => job.id
  }

  ghost predicate OnlyCover(s: State, id: nat, u: nat)
  {
    forall i | i in s.rows && i != id :: !Covers(s, i, u)
  }

  // ---------------------------------------------------------------- the other steps

  lemma ClaimKeeps(s: State, id: nat)
    requires Inv(s)
    ensures Inv(Claim(s, id)) && (!Archives(s, Claimed(id)) ==> Held(s, Claim(s, id)))
  {
    hide Unique, Tracked, Onward, Waiting;
    if id in s.rows && !OtherLive(s.rows, id) {
      if s.rows[id].attempts >= MAX_ATTEMPTS {
        ArchiveKeeps(s, id);
      } else {
        ClaimTracks(s, id);
        forall u | Waiting(s, u) ensures Waiting(Claim(s, id), u) {
          ClaimWaits(s, id, u);
        }
      }
    }
  }

  lemma ClaimTracks(s: State, id: nat)
    requires Unique(s) && Tracked(s)
    requires id in s.rows && !OtherLive(s.rows, id) && s.rows[id].attempts < MAX_ATTEMPTS
    ensures Unique(Claim(s, id)) && Tracked(Claim(s, id)) && Onward(Claim(s, id))
  {
    hide Ascending, PageDone, Next, PendingUpTo;
    assert forall i | i in s.rows && i != id :: !s.rows[i].live;
  }

  lemma ClaimWaits(s: State, id: nat, u: nat)
    requires Unique(s) && Tracked(s) && Waiting(s, u)
    requires id in s.rows && !OtherLive(s.rows, id) && s.rows[id].attempts < MAX_ATTEMPTS
    ensures Waiting(Claim(s, id), u)
  {
    hide Ascending, PageDone, Next;
    var t := Claim(s, id);
    var i :| i in s.rows && Covers(s, i, u);
    assert Covers(t, i, u);
  }

  lemma ExpireKeeps(s: State, id: nat)
    requires Inv(s)
    ensures Inv(Expire(s, id)) && Held(s, Expire(s, id))
  {
    var t := Expire(s, id);
    if id in s.rows {
      LooserKeeps(s, t, id);
      hide Unique, Tracked, Onward, Waiting;
      forall u | Waiting(s, u) ensures Waiting(t, u) {
        LooserWaits(s, t, id, u);
      }
    }
  }

  /** A row that stops being live, and stays or becomes free where no other row waits. */
  ghost predicate Looser(s: State, t: State, id: nat)
  {
    && id in s.rows && id in t.rows && t == s.(rows := s.rows[id := t.rows[id]])
    && !t.rows[id].live && t.rows[id].generation == s.rows[id].generation && t.rows[id].cursor == s.rows[id].cursor
    && (t.rows[id].running == s.rows[id].running || (!t.rows[id].running && !HasPending(s.rows)))
  }

  lemma LooserKeeps(s: State, t: State, id: nat)
    requires Inv(s) && Looser(s, t, id)
    ensures Unique(t) && Tracked(t) && Onward(t)
  {
    hide Ascending, PageDone, Next;
    forall i | i in t.rows && t.rows[i].live && Job(i, t.rows[i].generation) in t.work
      && t.work[Job(i, t.rows[i].generation)].continued && Next(t.users, t.rows[i].cursor).Some?
      ensures PendingUpTo(t.rows, Next(t.users, t.rows[i].cursor).value)
    {
      var n := Next(t.users, t.rows[i].cursor).value;
      assert PendingUpTo(s.rows, n);
      var q :| q in s.rows && !s.rows[q].running && s.rows[q].cursor <= n;
      assert q in t.rows && !t.rows[q].running && t.rows[q].cursor <= n;
    }
  }

  lemma LooserWaits(s: State, t: State, id: nat, u: nat)
    requires Looser(s, t, id) && Waiting(s, u)
    ensures Waiting(t, u)
  {
    hide Passed;
    var i :| i in s.rows && Covers(s, i, u);
    assert Covers(t, i, u);
  }

  /** An execution passes users of its page, who stop being owed. */
  ghost predicate Passes(s: State, t: State, job: Job, batch: set<nat>)
  {
    && job in s.work && job in t.work
    && t == s.(work := s.work[job := t.work[job]], owed := s.owed - batch)
    && t.work[job].cursor == s.work[job].cursor && t.work[job].continued == s.work[job].continued
    && s.work[job].settled <= t.work[job].settled <= s.work[job].settled + batch
    && s.work[job].handed <= t.work[job].handed <= s.work[job].handed + batch
  }

  lemma PassesKeeps(s: State, t: State, job: Job, batch: set<nat>)
    requires Inv(s) && Passes(s, t, job, batch)
    ensures Inv(t) && Held(s, t)
  {
    PassesTracked(s, t, job, batch);
    hide Unique, Tracked, Onward, Waiting;
    forall u | Waiting(s, u) && u !in batch ensures Waiting(t, u) {
      PassesWaits(s, t, job, batch, u);
    }
  }

  lemma PassesTracked(s: State, t: State, job: Job, batch: set<nat>)
    requires Inv(s) && Passes(s, t, job, batch)
    ensures Unique(t) && Tracked(t) && Onward(t)
  {
    hide Ascending, Next, PendingUpTo, Page;
  }

  lemma PassesWaits(s: State, t: State, job: Job, batch: set<nat>, u: nat)
    requires Passes(s, t, job, batch) && Waiting(s, u) && u !in batch
    ensures Waiting(t, u)
  {
    var i :| i in s.rows && Covers(s, i, u);
    assert Covers(t, i, u);
  }

  lemma SettleKeeps(s: State, job: Job, batch: set<nat>)
    requires Inv(s)
    ensures Inv(Settle(s, job, batch)) && Held(s, Settle(s, job, batch))
  {
    hide Inv, Page, Waiting;
    if Settle(s, job, batch) != s {
      PassesKeeps(s, Settle(s, job, batch), job, batch);
    }
  }

  lemma HandKeeps(s: State, job: Job, user: nat)
    requires Inv(s)
    ensures Inv(Hand(s, job, user)) && Held(s, Hand(s, job, user))
  {
    hide Inv, Page, Waiting;
    if Hand(s, job, user) != s {
      PassesKeeps(s, Hand(s, job, user), job, {user});
    }
  }

  lemma ContinueKeeps(s: State, job: Job)
    requires Inv(s)
    ensures Inv(Continue(s, job)) && Held(s, Continue(s, job))
  {
    hide Unique, Tracked, Onward, Waiting, Enqueue, Next, PageDone;
    if job in s.work && PageDone(s.users, s.work[job]) && !s.work[job].continued {
      var next := Next(s.users, s.work[job].cursor);
      var after := s;
      if next.Some? {
        EnqueueKeeps(s, next.value);
        after := Enqueue(s, next.value);
        EnqueueShapeWork(s, next.value);
      }
      Mark(after, job);
    }
  }

  lemma EnqueueShapeWork(s: State, after: nat)
    requires Unique(s)
    ensures var t := Enqueue(s, after); t == s.(rows := t.rows, nextId := t.nextId)
  {
    EnqueueShape(s, after);
  }

  lemma Mark(s: State, job: Job)
    requires Inv(s) && job in s.work && PageDone(s.users, s.work[job])
    requires Next(s.users, s.work[job].cursor).Some? ==> PendingUpTo(s.rows, Next(s.users, s.work[job].cursor).value)
    ensures var t := s.(work := s.work[job := s.work[job].(continued := true)]); Inv(t) && Held(s, t)
  {
    var t := s.(work := s.work[job := s.work[job].(continued := true)]);
    MarkTracked(s, job);
    hide Unique, Tracked, Onward, Waiting;
    forall u | Waiting(s, u) ensures Waiting(t, u) {
      MarkWaits(s, job, u);
    }
  }

  lemma MarkTracked(s: State, job: Job)
    requires Inv(s) && job in s.work && PageDone(s.users, s.work[job])
    requires Next(s.users, s.work[job].cursor).Some? ==> PendingUpTo(s.rows, Next(s.users, s.work[job].cursor).value)
    ensures var t := s.(work := s.work[job := s.work[job].(continued := true)]); Unique(t) && Tracked(t) && Onward(t)
  {
    hide Ascending, Next, PendingUpTo, Page;
  }

  lemma MarkWaits(s: State, job: Job, u: nat)
    requires job in s.work && Waiting(s, u)
    ensures Waiting(s.(work := s.work[job := s.work[job].(continued := true)]), u)
  {
    var t := s.(work := s.work[job := s.work[job].(continued := true)]);
    var i :| i in s.rows && Covers(s, i, u);
    assert Covers(t, i, u);
  }

  /** Deleting a finished row under its lease leaves everybody it covers another row. */
  lemma SuccessDropsNobody(s: State, job: Job, u: nat)
    requires Inv(s) && Holds(s.rows, job) && job in s.work && s.work[job].continued
    requires u in s.owed && Waiting(s, u)
    ensures Waiting(Delete(s, job.id), u)
  {
    hide Page, Next, Onward, Waiting;
    RemovedWaits(s, Delete(s, job.id), job.id, u);
    if Covers(s, job.id, u) {
      PageOrBeyond(s.users, s.rows[job.id].cursor, u);
      var next := Next(s.users, s.rows[job.id].cursor);
      assert next.Some? && next.value < u;
      OnwardAt(s, job);
      var p :| p in s.rows && !s.rows[p].running && s.rows[p].cursor <= next.value;
      assert p != job.id && Covers(s, p, u);
    } else {
      CoveredElsewhere(s, job.id, u);
    }
  }

  lemma CoveredElsewhere(s: State, id: nat, u: nat)
    requires Waiting(s, u) && id in s.rows && !Covers(s, id, u)
    ensures exists i :: i in s.rows && i != id && Covers(s, i, u)
  {
    hide Passed;
    var i :| i in s.rows && Covers(s, i, u);
    assert i != id;
  }

  lemma OnwardAt(s: State, job: Job)
    requires Onward(s) && Holds(s.rows, job) && job in s.work && s.work[job].continued
    requires Next(s.users, s.rows[job.id].cursor).Some?
    ensures PendingUpTo(s.rows, Next(s.users, s.rows[job.id].cursor).value)
  {
    hide Next, PendingUpTo;
  }

  lemma FinishKeeps(s: State, job: Job, failed: bool)
    requires Inv(s)
    ensures Inv(Finish(s, job, failed))
    ensures var step := Finished(job, failed);
      !Archives(s, step) && !Supersedes(s, step) ==> Held(s, Finish(s, job, failed))
  {
    hide Delete, Archive, Release, Unique, Tracked, Onward, Waiting, HasPending;
    if Finish(s, job, failed) != s {
      if failed && s.rows[job.id].attempts >= MAX_ATTEMPTS {
        ArchiveKeeps(s, job.id);
      } else if failed && !HasPending(s.rows) {
        ReleaseKeeps(s, job.id, s.rows[job.id]);
      } else {
        RemoveKeeps(s, job.id);
        if !failed {
          DeleteOwed(s, job.id);
          forall u | u in s.owed && Waiting(s, u) ensures Waiting(Delete(s, job.id), u) {
            SuccessDropsNobody(s, job, u);
          }
        }
      }
    }
  }

  lemma DeleteOwed(s: State, id: nat)
    ensures Delete(s, id).owed == s.owed && (id in s.rows ==> Archive(s, id).owed == s.owed)
  {
  }

  lemma DeferKeeps(s: State, job: Job)
    requires Inv(s)
    ensures Inv(Defer(s, job)) && (!Supersedes(s, Deferred(job)) ==> Held(s, Defer(s, job)))
  {
    hide Delete, Unique, Tracked, Onward, Waiting, HasPending, Release;
    if Holds(s.rows, job) {
      if HasPending(s.rows) {
        RemoveKeeps(s, job.id);
      } else {
        var row := s.rows[job.id];
        ReleaseKeeps(s, job.id, row.(attempts := if row.attempts == 0 then 0 else row.attempts - 1,
                                     deferCount := Min(MAX_DEFER, row.deferCount + 1)));
      }
    }
  }

  lemma ReleaseKeeps(s: State, id: nat, row: Row)
    requires Inv(s) && id in s.rows && s.rows[id].running && !HasPending(s.rows)
    requires row.cursor == s.rows[id].cursor && row.generation == s.rows[id].generation
    ensures Inv(Release(s, id, row)) && Held(s, Release(s, id, row))
  {
    var t := Release(s, id, row);
    LooserKeeps(s, t, id);
    hide Unique, Tracked, Onward, Waiting;
    forall u | Waiting(s, u) ensures Waiting(t, u) {
      LooserWaits(s, t, id, u);
    }
  }

  lemma StepKeeps(s: State, step: Step)
    requires Inv(s)
    ensures Inv(Apply(s, step)) && (!Archives(s, step) && !Supersedes(s, step) ==> Held(s, Apply(s, step)))
  {
    hide Inv, Request, Claim, Expire, Settle, Hand, Continue, Finish, Defer, Waiting;
    match step
    case Asked(after) => RequestKeeps(s, after);
    case Claimed(id) => ClaimKeeps(s, id);
    case Expired(id) => ExpireKeeps(s, id);
    case Settled(job, batch) => SettleKeeps(s, job, batch);
    case Handed(job, user) => HandKeeps(s, job, user);
    case Continued(job) => ContinueKeeps(s, job);
    case Finished(job, failed) => FinishKeeps(s, job, failed);
    case Deferred(job) => DeferKeeps(s, job);
  }

  /** Every run, from any such state. */
  lemma {:induction false} EveryRun(s: State, steps: seq<Step>)
    requires Inv(s)
    ensures Inv(Run(s, steps))
    decreases |steps|
  {
    hide Inv, Apply, Archives, Supersedes, Held;
    if steps != [] {
      StepKeeps(s, steps[0]);
      EveryRun(Apply(s, steps[0]), steps[1..]);
    }
  }

  // ---------------------------------------------------------------- who loses the last row

  /** An owed user who waited is left without any row. */
  ghost predicate Loses(s: State, step: Step, u: nat)
  {
    u in s.owed && Waiting(s, u) && u in Apply(s, step).owed && !Waiting(Apply(s, step), u)
  }

  /** Exactly when a row is archived or superseded that alone covered the user. */
  lemma LosesExactly(s: State, step: Step, u: nat)
    requires Inv(s) && u in s.owed && Waiting(s, u)
    ensures Loses(s, step, u) <==> (Archives(s, step) || Supersedes(s, step)) && OnlyCover(s, Target(step), u)
  {
    StepKeeps(s, step);
    if Archives(s, step) || Supersedes(s, step) {
      TakenAway(s, step);
      RemovedWaits(s, Apply(s, step), Target(step), u);
    }
    hide Inv, Apply, Archives, Supersedes, Waiting, Covers;
  }

  lemma TakenAway(s: State, step: Step)
    requires Archives(s, step) || Supersedes(s, step)
    ensures var t := Apply(s, step);
      t.rows == s.rows - {Target(step)} && t.work == s.work && t.owed == s.owed && Target(step) in s.rows
  {
  }

  /** The step reconciles the user or hands them to a repair job. */
  ghost predicate Serves(s: State, step: Step, u: nat)
  {
    u in s.owed && u !in Apply(s, step).owed
  }

  /** Exactly a committed batch, or a repair job, of an execution whose page has the user. */
  lemma ServesExactly(s: State, step: Step, u: nat)
    requires u in s.owed
    ensures Serves(s, step, u) <==>
      match step
      case Settled(job, batch) => job in s.work && batch <= PageSet(s.users, s.work[job].cursor) && u in batch
      case Handed(job, user) => job in s.work && user in Page(s.users, s.work[job].cursor) && u == user
      case _ => false
  {
    hide Page, PageDone, Next, Waiting, HasPending;
  }

  predicate Requests(step: Step, u: nat) { step.Asked? && step.after < u }

  // ---------------------------------------------------------------- what becomes of a request

  /** Lost at some step, and not requested again since. */
  ghost predicate LostSince(s: State, steps: seq<Step>, u: nat)
  {
    exists k :: 0 <= k < |steps| && LostAt(s, steps, k, u)
  }

  ghost predicate LostAt(s: State, steps: seq<Step>, k: nat, u: nat)
    requires k < |steps|
  {
    Loses(Run(s, steps[..k]), steps[k], u) && forall j | k < j < |steps| :: !Requests(steps[j], u)
  }

  ghost predicate Served(s: State, steps: seq<Step>, u: nat)
  {
    exists k :: 0 <= k < |steps| && Serves(Run(s, steps[..k]), steps[k], u)
  }

  /** From any state in which the user, if owed, waits. */
  lemma {:induction false} StaysCovered(s: State, steps: seq<Step>, u: nat)
    requires Inv(s) && (u in s.owed ==> Waiting(s, u))
    ensures var t := Run(s, steps);
      && (u in t.owed ==> Waiting(t, u) || LostSince(s, steps, u))
      && (u in s.owed && u !in t.owed ==> Served(s, steps, u))
    decreases |steps|
  {
    hide Inv, Apply, Waiting;
    if steps != [] {
      var n := |steps| - 1;
      var front, last := steps[..n], steps[n];
      var before := Run(s, front);
      StaysCovered(s, front, u);
      EveryRun(s, front);
      RunLast(s, steps);
      OneStepOn(before, last, u);
      if u in s.owed && u !in before.owed {
        ServedLater(s, steps, u);
      }
      if LostSince(s, front, u) && !Requests(last, u) {
        LostLater(s, steps, u);
      }
      if Loses(before, last, u) {
        assert LostAt(s, steps, n, u);
      }
      if Serves(before, last, u) {
        assert Serves(Run(s, steps[..n]), steps[n], u);
      }
    }
  }

  lemma OneStepOn(s: State, step: Step, u: nat)
    requires Inv(s)
    ensures var t := Apply(s, step);
      && (u in t.owed && u !in s.owed ==> Requests(step, u))
      && (Requests(step, u) ==> Waiting(t, u))
  {
    OwedOnlyGrowsByRequests(s, step, u);
    if Requests(step, u) {
      RequestKeeps(s, step.after);
    }
    hide Inv, Request, Claim, Expire, Settle, Hand, Continue, Finish, Defer, Waiting;
  }

  lemma OwedOnlyGrowsByRequests(s: State, step: Step, u: nat)
    ensures u in Apply(s, step).owed && u !in s.owed ==> Requests(step, u)
  {
    hide Page, PageDone, Next, Waiting, HasPending;
  }

  lemma ServedLater(s: State, steps: seq<Step>, u: nat)
    requires steps != [] && Served(s, steps[..|steps| - 1], u)
    ensures Served(s, steps, u)
  {
    hide Serves;
    var front := steps[..|steps| - 1];
    var k :| 0 <= k < |front| && Serves(Run(s, front[..k]), front[k], u);
    assert front[..k] == steps[..k] && front[k] == steps[k];
  }

  lemma LostLater(s: State, steps: seq<Step>, u: nat)
    requires steps != [] && LostSince(s, steps[..|steps| - 1], u) && !Requests(steps[|steps| - 1], u)
    ensures LostSince(s, steps, u)
  {
    hide Loses, Requests;
    var front := steps[..|steps| - 1];
    var k :| 0 <= k < |front| && LostAt(s, front, k, u);
    assert front[..k] == steps[..k] && front[k] == steps[k];
    assert forall j | k < j < |front| :: front[j] == steps[j] && !Requests(front[j], u);
    assert LostAt(s, steps, k, u);
  }

  /**
   Every request, whatever came before it and whatever comes after it: a user it concerns is reconciled
   or handed to a repair later on; or waits behind the cursor of a row; or a later step archived or
   superseded the only row that covered the user, and nobody has asked for the user since.
   */
  lemma NobodyIsForgotten(users: seq<nat>, before: seq<Step>, after: nat, steps: seq<Step>, u: nat)
    requires Ascending(users) && u in Concerned(users, after)
    ensures var s := Request(Run(Start(users), before), after);
      var t := Run(s, steps);
      if u in t.owed then Waiting(t, u) || LostSince(s, steps, u) else Served(s, steps, u)
  {
    StartInv(users);
    EveryRun(Start(users), before);
    RunUsers(Start(users), before);
    RequestIsKept(Run(Start(users), before), after, steps, u);
  }

  lemma StartInv(users: seq<nat>)
    requires Ascending(users)
    ensures Inv(Start(users))
  {
  }

  /** The same from every state of the queue that keeps the invariant. */
  lemma RequestIsKept(s: State, after: nat, steps: seq<Step>, u: nat)
    requires Inv(s) && u in Concerned(s.users, after)
    ensures var asked := Request(s, after);
      var t := Run(asked, steps);
      if u in t.owed then Waiting(t, u) || LostSince(asked, steps, u) else Served(asked, steps, u)
  {
    RequestKeeps(s, after);
    RequestOwes(s, after);
    hide Inv, Request, Run, Waiting, LostSince, Served, Concerned;
    assert Waiting(Request(s, after), u) by { ConcernedAbove(s.users, after, u); }
    StaysCovered(Request(s, after), steps, u);
  }

  lemma ConcernedAbove(users: seq<nat>, after: nat, u: nat)
    requires u in Concerned(users, after)
    ensures u > after && u in users
  {
  }

  lemma RequestOwes(s: State, after: nat)
    ensures Request(s, after).users == s.users && Request(s, after).owed == s.owed + Concerned(s.users, after)
    ensures forall u | u in Concerned(s.users, after) :: u in s.users
  {
  }

  lemma SameUsers(s: State, step: Step)
    ensures Apply(s, step).users == s.users
  {
    hide Page, PageDone, Next, Waiting;
  }

  lemma {:induction false} RunUsers(s: State, steps: seq<Step>)
    ensures Run(s, steps).users == s.users
    decreases |steps|
  {
    hide Apply;
    if steps != [] {
      SameUsers(s, steps[0]);
      RunUsers(Apply(s, steps[0]), steps[1..]);
    }
  }
}
