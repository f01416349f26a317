/**
 Level contribution sweeps over the leased job queue (crates/jobs/src/queue.rs, handlers.rs, runtime.rs and
 the zc_jobs functions of packages/database/drizzle/0083_pgmq_queue.sql), for the rows of one level's key.

 A run is any interleaving of requests, claims, lease expiries and the steps of every execution started
 so far, including those whose lease is gone.  Time is replaced by choice: a lease may expire, and a row
 may be claimed, at any moment the functions allow.
 */
module SweepSteps {
  import opened Wrappers

  const PAGE: nat := 50
  const MAX_ATTEMPTS: nat := 3
  const MAX_DEFER: nat := 4

  /** A row of zc_jobs.job; `live` is `lease_until > clock_timestamp()`. */
  datatype Row = Row(cursor: nat, deferCount: nat, attempts: nat, running: bool, live: bool, generation: nat)

  /** What a claim returns: the fence of every later acknowledgement. */
  datatype Job = Job(id: nat, generation: nat)

  /** An execution: users it reconciled, users it handed to per-user repair jobs, page continued. */
  datatype Work = Work(cursor: nat, settled: set<nat>, handed: set<nat>, continued: bool)

  /** `owed` only records: users above the cursor of a request who were since neither reconciled nor handed on. */
  datatype State = State(users: seq<nat>, rows: map<nat, Row>, nextId: nat, archive: seq<Row>,
                         work: map<Job, Work>, owed: set<nat>)

  // ---------------------------------------------------------------- pages

  predicate Ascending(users: seq<nat>) { forall i, j | 0 <= i < j < |users| :: users[i] < users[j] }

  function Above(users: seq<nat>, after: nat): seq<nat>
  {
    if users == [] then []
    else (if users[0] > after then [users[0]] else []) + Above(users[1..], after)
  }

  function Page(users: seq<nat>, after: nat): (page: seq<nat>)
    ensures |page| <= PAGE
  {
    var rest := Above(users, after);
    if |rest| > PAGE then rest[..PAGE] else rest
  }

  function PageSet(users: seq<nat>, after: nat): set<nat> { set u | u in Page(users, after) }

  function Next(users: seq<nat>, after: nat): Option<nat>
  {
    var page := Page(users, after);
    if |page| == PAGE then Some(page[PAGE - 1]) else None
  }

  lemma {:induction false} AboveIsFilter(users: seq<nat>, after: nat)
    requires Ascending(users)
    ensures Ascending(Above(users, after))
    ensures forall u :: u in Above(users, after) <==> u in users && u > after
  {
    if users != [] {
      AboveIsFilter(users[1..], after);
      assert forall u :: u in users <==> u == users[0] || u in users[1..];
      assert forall u | u in users[1..] :: u > users[0];
      var rest := Above(users[1..], after);
      assert forall i | 0 <= i < |rest| :: rest[i] in users[1..];
    }
  }

  /** A user above the cursor is on the page or above the next cursor. */
  lemma PageOrBeyond(users: seq<nat>, after: nat, u: nat)
    requires Ascending(users) && u in users && u > after
    ensures u in Page(users, after) || (Next(users, after).Some? && u > Next(users, after).value)
  {
    AboveIsFilter(users, after);
    var rest := Above(users, after);
    var i :| 0 <= i < |rest| && rest[i] == u;
    if i >= PAGE {
      assert rest[PAGE - 1] < rest[i];
    } else {
      assert u == Page(users, after)[i];
    }
  }

  lemma NextIsAhead(users: seq<nat>, after: nat)
    requires Ascending(users) && Next(users, after).Some?
    ensures Next(users, after).value > after && Next(users, after).value in users
    ensures forall u | u in Page(users, after) :: u <= Next(users, after).value
  {
    AboveIsFilter(users, after);
    var rest := Above(users, after);
    assert rest[PAGE - 1] in rest;
    forall u | u in Page(users, after) ensures u <= rest[PAGE - 1] {
      var i :| 0 <= i < PAGE && rest[i] == u;
      assert i < PAGE - 1 ==> rest[i] < rest[PAGE - 1];
    }
  }

  // ---------------------------------------------------------------- transitions

  function Min(a: nat, b: nat): nat { if a <= b then a else b }

  predicate HasPending(rows: map<nat, Row>) { exists p :: p in rows && !rows[p].running }

  ghost function Pending(rows: map<nat, Row>): (p: nat)
    requires HasPending(rows)
    ensures p in rows && !rows[p].running
  {
    var p :| p in rows && !rows[p].running;
    p
  }

  predicate OtherLive(rows: map<nat, Row>, id: nat) { exists k :: k in rows && k != id && rows[k].live }

  predicate Holds(rows: map<nat, Row>, job: Job)
  {
    job.id in rows && rows[job.id].generation == job.generation && rows[job.id].running && rows[job.id].live
  }

  /** `enqueue_level_projection`: the pending row keeps the smaller cursor. */
  ghost function Enqueue(s: State, after: nat): State
  {
    if HasPending(s.rows) then
      var p := Pending(s.rows);
      s.(rows := s.rows[p := s.rows[p].(cursor := Min(s.rows[p].cursor, after), deferCount := 0)])
    else
      s.(rows := s.rows[s.nextId := Row(after, 0, 0, false, false, 0)], nextId := s.nextId + 1)
  }

  function Concerned(users: seq<nat>, after: nat): set<nat> { set u | u in users && u > after }

  ghost function Request(s: State, after: nat): State
  {
    Enqueue(s.(owed := s.owed + Concerned(s.users, after)), after)
  }

  function Claim(s: State, id: nat): State
  {
    if id !in s.rows || OtherLive(s.rows, id) then s
    else if s.rows[id].attempts >= MAX_ATTEMPTS then
      Archive(s, id)
    else
      var row := s.rows[id];
      var claimed := row.(running := true, live := true, attempts := row.attempts + 1, generation := row.generation + 1);
      s.(rows := s.rows[id := claimed], work := s.work[Job(id, claimed.generation) := Work(row.cursor, {}, {}, false)])
  }

  function Expire(s: State, id: nat): State
  {
    if id in s.rows then s.(rows := s.rows[id := s.rows[id].(live := false)]) else s
  }

  /** A committed batch of the page. */
  function Settle(s: State, job: Job, batch: set<nat>): State
  {
    if job in s.work && batch <= PageSet(s.users, s.work[job].cursor) then
      var w := s.work[job];
      s.(work := s.work[job := w.(settled := w.settled + batch)], owed := s.owed - batch)
    else s
  }

  /** A contended user of the page gets a repair job. */
  function Hand(s: State, job: Job, user: nat): State
  {
    if job in s.work && user in Page(s.users, s.work[job].cursor) then
      var w := s.work[job];
      s.(work := s.work[job := w.(handed := w.handed + {user})], owed := s.owed - {user})
    else s
  }

  predicate PageDone(users: seq<nat>, w: Work)
  {
    forall u | u in Page(users, w.cursor) :: u in w.settled || u in w.handed
  }

  /** The handler's last step; it does not look at its lease. */
  ghost function Continue(s: State, job: Job): State
  {
    if job in s.work && PageDone(s.users, s.work[job]) && !s.work[job].continued then
      var w := s.work[job];
      var next := Next(s.users, w.cursor);
      var after := if next.Some? then Enqueue(s, next.value) else s;
      after.(work := s.work[job := w.(continued := true)])
    else s
  }

  ghost predicate Waiting(s: State, u: nat)
  {
    exists i :: i in s.rows && Covers(s, i, u)
  }

  ghost predicate Covers(s: State, i: nat, u: nat)
    requires i in s.rows
  {
    var row := s.rows[i];
    row.cursor < u && (row.live ==> !Passed(s.work, Job(i, row.generation), u))
  }

  predicate Passed(work: map<Job, Work>, job: Job, u: nat)
  {
    job in work && (u in work[job].settled || u in work[job].handed)
  }

  function Delete(s: State, id: nat): State { s.(rows := s.rows - {id}) }

  function Archive(s: State, id: nat): State
    requires id in s.rows
  {
    s.(rows := s.rows - {id}, archive := s.archive + [s.rows[id]])
  }

  function Release(s: State, id: nat, row: Row): State
  {
    s.(rows := s.rows[id := row.(running := false, live := false)])
  }

  ghost function Finish(s: State, job: Job, failed: bool): State
  {
    if !Holds(s.rows, job) || (!failed && !(job in s.work && s.work[job].continued)) then s
    else if !failed then Delete(s, job.id)
    else if s.rows[job.id].attempts >= MAX_ATTEMPTS then
      Archive(s, job.id)
    else if HasPending(s.rows) then Delete(s, job.id)
    else Release(s, job.id, s.rows[job.id])
  }

  ghost function Defer(s: State, job: Job): State
  {
    if !Holds(s.rows, job) then s
    else if HasPending(s.rows) then Delete(s, job.id)
    else
      var row := s.rows[job.id];
      Release(s, job.id, row.(attempts := if row.attempts == 0 then 0 else row.attempts - 1,
                              deferCount := Min(MAX_DEFER, row.deferCount + 1)))
  }

  datatype Step =
    | Asked(after: nat)
    | Claimed(id: nat)
    | Expired(id: nat)
    | Settled(job: Job, batch: set<nat>)
    | Handed(job: Job, user: nat)
    | Continued(job: Job)
    | Finished(job: Job, failed: bool)
    | Deferred(job: Job)

  ghost function Apply(s: State, step: Step): State
  {
    match step
    case Asked(after) => Request(s, after)
    case Claimed(id) => Claim(s, id)
    case Expired(id) => Expire(s, id)
    case Settled(job, batch) => Settle(s, job, batch)
    case Handed(job, user) => Hand(s, job, user)
    case Continued(job) => Continue(s, job)
    case Finished(job, failed) => Finish(s, job, failed)
    case Deferred(job) => Defer(s, job)
  }

  ghost function Run(s: State, steps: seq<Step>): State
    decreases |steps|
  {
    if steps == [] then s else Run(Apply(s, steps[0]), steps[1..])
  }

  function Start(users: seq<nat>): State { State(users, map[], 0, [], map[], {}) }

  lemma {:induction false} RunAppend(s: State, a: seq<Step>, b: seq<Step>)
    ensures Run(s, a + b) == Run(Run(s, a), b)
    decreases |a|
  {
    hide Apply;
    if a == [] {
      assert a + b == b;
    } else {
      assert (a + b)[1..] == a[1..] + b;
      RunAppend(Apply(s, a[0]), a[1..], b);
    }
  }

  lemma RunOne(s: State, step: Step)
    ensures Run(s, [step]) == Apply(s, step)
  {
    hide Apply;
    assert [step][1..] == [];
  }

  /** A run, seen from its last step. */
  lemma RunLast(s: State, steps: seq<Step>)
    requires steps != []
    ensures var n := |steps| - 1; Run(s, steps) == Apply(Run(s, steps[..n]), steps[n])
  {
    hide Apply;
    var n := |steps| - 1;
    assert steps == steps[..n] + [steps[n]];
    RunAppend(s, steps[..n], [steps[n]]);
    RunOne(Run(s, steps[..n]), steps[n]);
  }
}
