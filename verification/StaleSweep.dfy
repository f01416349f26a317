/** A run in which a worker that lost its lease continues its page, and users are dropped. */
module StaleSweep {
  import opened Wrappers
  import opened SweepSteps

  /** Up to a second request: a worker loses its lease, another one does the page, and continues it. */
  function FirstSweep(users: seq<nat>): seq<Step>
  {
    [Asked(0), Claimed(0), Settled(Job(0, 1), PageSet(users, 0)), Expired(0),
     Claimed(0), Settled(Job(0, 2), PageSet(users, 0)), Continued(Job(0, 2)), Finished(Job(0, 2), false)]
  }

  /** The first worker wakes up and continues its page; the new sweep is then deferred. */
  function StaleWake(): seq<Step>
  {
    [Asked(0), Claimed(1), Continued(Job(0, 1)), Deferred(Job(1, 1))]
  }

  lemma Perform(s: State, done: seq<Step>, step: Step, all: seq<Step>)
    requires all == done + [step]
    ensures Run(s, all) == Apply(Run(s, done), step)
  {
    hide Apply;
    RunAppend(s, done, [step]);
    RunOne(Run(s, done), step);
  }

  function Fresh(cursor: nat): Row { Row(cursor, 0, 0, false, false, 0) }
  function Leased(cursor: nat, generation: nat): Row { Row(cursor, 0, generation, true, true, generation) }

  /** One row waits for the next page; two executions of the deleted row are still in flight. */
  predicate Swept(s: State, users: seq<nat>, n: nat)
  {
    && s.users == users && s.nextId == 2 && s.archive == [] && s.rows == map[1 := Fresh(n)]
    && s.work == map[Job(0, 1) := PageSettled(users, false), Job(0, 2) := PageSettled(users, true)]
  }

  function PageSettled(users: seq<nat>, continued: bool): Work { Work(0, PageSet(users, 0), {}, continued) }

  lemma FirstSweepEnds(users: seq<nat>, n: nat)
    requires Ascending(users) && Next(users, 0) == Some(n)
    ensures Swept(Run(Start(users), FirstSweep(users)), users, n)
  {
    FirstSweepRuns(users);
    var s4 := SweptOnce(users);
    SweptTwice(users, n, s4);
  }

  lemma SweptOnce(users: seq<nat>) returns (s: State)
    ensures s == Apply(Apply(Apply(Apply(Start(users), Asked(0)), Claimed(0)), Settled(Job(0, 1), PageSet(users, 0))), Expired(0))
    ensures s.users == users && s.nextId == 1 && s.archive == []
    ensures s.rows == map[0 := Leased(0, 1).(live := false)] && s.work == map[Job(0, 1) := PageSettled(users, false)]
  {
    hide PageSet, Concerned;
    var p := PageSet(users, 0);
    var s1 := Apply(Start(users), Asked(0));
    assert s1.rows == map[0 := Fresh(0)];
    var s2 := Apply(s1, Claimed(0));
    assert s2.rows == map[0 := Leased(0, 1)] && s2.work == map[Job(0, 1) := Work(0, {}, {}, false)];
    var s3 := Apply(s2, Settled(Job(0, 1), p));
    assert {} + p == p && s3.rows == s2.rows;
    s := Apply(s3, Expired(0));
  }

  lemma SweptTwice(users: seq<nat>, n: nat, s4: State)
    requires s4.users == users && s4.nextId == 1 && s4.archive == [] && Next(users, 0) == Some(n)
    requires s4.rows == map[0 := Leased(0, 1).(live := false)] && s4.work == map[Job(0, 1) := PageSettled(users, false)]
    ensures Swept(Apply(Apply(Apply(Apply(s4, Claimed(0)), Settled(Job(0, 2), PageSet(users, 0))), Continued(Job(0, 2))),
                        Finished(Job(0, 2), false)), users, n)
  {
    PageSettledDone(users);
    hide PageSet, PageDone, Next;
    var p := PageSet(users, 0);
    var s5 := Apply(s4, Claimed(0));
    assert s5.rows == map[0 := Leased(0, 2)];
    assert s5.work == map[Job(0, 1) := PageSettled(users, false), Job(0, 2) := Work(0, {}, {}, false)];
    var s6 := Apply(s5, Settled(Job(0, 2), p));
    assert {} + p == p && s6.rows == s5.rows && !HasPending(s6.rows);
    var s7 := Apply(s6, Continued(Job(0, 2)));
    assert s7.rows == map[0 := Leased(0, 2), 1 := Fresh(n)];
    var s8 := Apply(s7, Finished(Job(0, 2), false));
    assert s8.rows == map[1 := Fresh(n)];
  }

  lemma PageSettledDone(users: seq<nat>)
    ensures PageDone(users, PageSettled(users, false))
  {
  }

  lemma FirstSweepRuns(users: seq<nat>)
    ensures var p := PageSet(users, 0);
      Run(Start(users), FirstSweep(users)) ==
      Apply(Apply(Apply(Apply(Apply(Apply(Apply(Apply(Start(users), Asked(0)), Claimed(0)), Settled(Job(0, 1), p)),
        Expired(0)), Claimed(0)), Settled(Job(0, 2), p)), Continued(Job(0, 2))), Finished(Job(0, 2), false))
  {
    hide Apply, Page;
    var s, all := Start(users), FirstSweep(users);
    Perform(s, all[..7], all[7], all);
    Perform(s, all[..6], all[6], all[..7]);
    Perform(s, all[..5], all[5], all[..6]);
    Perform(s, all[..4], all[4], all[..5]);
    Perform(s, all[..3], all[3], all[..4]);
    Perform(s, all[..2], all[2], all[..3]);
    RunOne(s, all[0]);
    assert all[..1] == [all[0]];
    Perform(s, all[..1], all[1], all[..2]);
  }

  /**
   Whenever a level has a full page, its first user can end with no row left while still owed, although
   nothing was ever archived and the last request came after everything that reconciled the user.
   */
  lemma StaleContinuationDrops(users: seq<nat>)
    requires Ascending(users) && |users| >= PAGE && users[0] > 0
    ensures var s := Run(Start(users), FirstSweep(users) + StaleWake());
      users[0] in s.owed && !Waiting(s, users[0]) && s.archive == []
  {
    FirstPage(users);
    var n := Next(users, 0).value;
    hide Next, Ascending, Concerned, Run, Waiting;
    FirstSweepEnds(users, n);
    RunAppend(Start(users), FirstSweep(users), StaleWake());
    StaleWakeDrops(Run(Start(users), FirstSweep(users)), users, n, users[0]);
  }

  lemma FirstPage(users: seq<nat>)
    requires Ascending(users) && |users| >= PAGE && users[0] > 0
    ensures Next(users, 0).Some? && users[0] <= Next(users, 0).value
    ensures users[0] in Concerned(users, 0)
  {
    AllAbove(users);
    assert Page(users, 0)[0] == users[0];
    NextIsAhead(users, 0);
  }

  lemma {:induction false} AllAbove(users: seq<nat>)
    requires Ascending(users) && (users != [] ==> users[0] > 0)
    ensures Above(users, 0) == users
  {
    if users != [] {
      AllAbove(users[1..]);
    }
  }

  lemma StaleWakeDrops(s: State, users: seq<nat>, n: nat, u: nat)
    requires Swept(s, users, n) && Next(users, 0) == Some(n) && u in Concerned(users, 0) && u <= n
    ensures var t := Run(s, StaleWake());
      u in t.owed && !Waiting(t, u) && t.archive == []
  {
    StaleWakeRuns(s);
    PageSettledDone(users);
    hide PageSet, PageDone, Next, Concerned;
    assert HasPending(s.rows) by { assert !s.rows[1].running; }
    assert Pending(s.rows) == 1;
    var s1 := Apply(s, Asked(0));
    assert s1.rows == map[1 := Fresh(0)];
    var s2 := Apply(s1, Claimed(1));
    assert s2.rows == map[1 := Leased(0, 1)];
    WakesUp(s2, users, n, u);
  }

  lemma WakesUp(s2: State, users: seq<nat>, n: nat, u: nat)
    requires s2.rows == map[1 := Leased(0, 1)] && s2.users == users && s2.nextId == 2 && s2.archive == []
    requires Job(0, 1) in s2.work && s2.work[Job(0, 1)] == PageSettled(users, false)
    requires Next(users, 0) == Some(n) && u in s2.owed && u <= n
    ensures var t := Apply(Apply(s2, Continued(Job(0, 1))), Deferred(Job(1, 1)));
      u in t.owed && !Waiting(t, u) && t.archive == []
  {
    PageSettledDone(users);
    hide PageSet, PageDone, Next, Concerned;
    assert !HasPending(s2.rows);
    var s3 := Apply(s2, Continued(Job(0, 1)));
    assert s3.rows == map[1 := Leased(0, 1), 2 := Fresh(n)];
    var s4 := Apply(s3, Deferred(Job(1, 1)));
    assert HasPending(s3.rows) by { assert !s3.rows[2].running; }
    assert s4.rows == map[2 := Fresh(n)];
  }

  lemma StaleWakeRuns(s: State)
    ensures Run(s, StaleWake())
         == Apply(Apply(Apply(Apply(s, Asked(0)), Claimed(1)), Continued(Job(0, 1))), Deferred(Job(1, 1)))
  {
    hide Apply;
    var all := StaleWake();
    Perform(s, all[..3], all[3], all);
    Perform(s, all[..2], all[2], all[..3]);
    RunOne(s, all[0]);
    assert all[..1] == [all[0]];
    Perform(s, all[..1], all[1], all[..2]);
  }
}
