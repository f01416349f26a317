/**
 One connection pool shared by three partitions (crates/database/src/pool.rs): a checkout takes a
 permit of its partition, then a physical slot, and gives them back in the opposite order.

 A run interleaves the steps of any number of tasks; `Ordering` is the order in which a finished
 checkout drops its two fields.
 */
module Pool {
  import opened Wrappers
  import opened FiniteSets

  const U32_MAX: nat := 0xFFFF_FFFF

  datatype Partition = Application | Queue | Scheduler

  /** A number for each partition: budgets, free permits, waiting acquisitions. */
  datatype Counts = Counts(application: nat, queue: nat, scheduler: nat) {
    function Of(p: Partition): nat
    {
      match p
      case Application => application
      case Queue => queue
      case Scheduler => scheduler
    }

    function With(p: Partition, n: nat): (c: Counts)
      ensures c.Of(p) == n && forall q | q != p :: c.Of(q) == Of(q)
    {
      match p
      case Application => this.(application := n)
      case Queue => this.(queue := n)
      case Scheduler => this.(scheduler := n)
    }

    function Sum(): nat { application + queue + scheduler }
  }

  datatype BudgetError = NotPositive | Overflow

  /** `PoolBudget::total` on `u32` values: the sum, unless it does not fit or leaves the application nothing. */
  function Total(budget: Counts): (r: Result<nat, BudgetError>)
    ensures r.Ok? <==> budget.application > 0 && budget.Sum() <= U32_MAX
    ensures r.Ok? ==> r.value == budget.Sum() > 0
    ensures r.Err? ==> (r.error == NotPositive <==> budget.application == 0)
  {
    if budget.application == 0 then Err(NotPositive)
    else if budget.application + budget.queue > U32_MAX then Err(Overflow)
    else if budget.application + budget.queue + budget.scheduler > U32_MAX then Err(Overflow)
    else Ok(budget.application + budget.queue + budget.scheduler)
  }

  // ---------------------------------------------------------------- tasks

  /** Where a checkout stands; `Orphaned` has a connection whose permit is already returned. */
  datatype Phase =
    | Waiting(p: Partition) | Permitted(p: Partition) | Connected(p: Partition)
    | Dropping(p: Partition) | Orphaned(p: Partition)

  datatype Ordering = ConnectionFirst | PermitFirst

  datatype State = State(budget: Counts, permits: Counts, waiting: Counts, checkedOut: nat, tasks: map<nat, Phase>)

  function Was(tasks: map<nat, Phase>, t: nat): Option<Phase> { if t in tasks then Some(tasks[t]) else None }

  function Put(tasks: map<nat, Phase>, t: nat, phase: Option<Phase>): map<nat, Phase>
  {
    if phase.Some? then tasks[t := phase.value] else tasks - {t}
  }

  /** What a count is about. */
  datatype Kind = HoldsIn(p: Partition) | AcquiresIn(p: Partition) | HoldsAny | UsesSlot

  predicate Matches(kind: Kind, x: Phase)
  {
    match kind
    case HoldsIn(p) => (x.Permitted? || x.Connected? || x.Dropping?) && x.p == p
    case AcquiresIn(p) => (x.Waiting? || x.Permitted?) && x.p == p
    case HoldsAny => x.Permitted? || x.Connected? || x.Dropping?
    case UsesSlot => x.Connected? || x.Orphaned?
  }

  function Those(tasks: map<nat, Phase>, kind: Kind): set<nat> { set t | t in tasks.Keys && Matches(kind, tasks[t]) }

  function Count(tasks: map<nat, Phase>, kind: Kind): nat { |Those(tasks, kind)| }

  function One(kind: Kind, phase: Option<Phase>): nat { if phase.Some? && Matches(kind, phase.value) then 1 else 0 }

  lemma PutCounts(tasks: map<nat, Phase>, t: nat, phase: Option<Phase>, kind: Kind)
    ensures Count(Put(tasks, t, phase), kind) + One(kind, Was(tasks, t)) == Count(tasks, kind) + One(kind, phase)
  {
    ThoseBut(tasks, t, kind);
    ThoseBut(Put(tasks, t, phase), t, kind);
    assert Put(tasks, t, phase) - {t} == tasks - {t};
    hide Those, Matches;
  }

  lemma ThoseBut(tasks: map<nat, Phase>, t: nat, kind: Kind)
    ensures Count(tasks, kind) == Count(tasks - {t}, kind) + One(kind, Was(tasks, t))
  {
    hide Matches;
    var rest := Those(tasks - {t}, kind);
    assert forall x :: x in rest <==> x in Those(tasks, kind) && x != t;
    if t in tasks && Matches(kind, tasks[t]) {
      assert Those(tasks, kind) == rest + {t};
      assert t !in rest;
    } else {
      assert Those(tasks, kind) == rest;
    }
  }

  // ---------------------------------------------------------------- steps

  datatype Step =
    | Enter(t: nat, p: Partition)
    | TakePermit(t: nat)
    | GiveUp(t: nat)
    | CheckOut(t: nat)
    | Fail(t: nat)
    | DropFirst(t: nat)
    | DropSecond(t: nat)

  function PartitionOf(s: State, t: nat): Partition
    requires t in s.tasks
  {
    s.tasks[t].p
  }

  function Limit(s: State): nat { s.budget.Sum() }

  /** A step that its guard does not allow changes nothing. */
  function Apply(s: State, step: Step, order: Ordering): State
  {
    var t := step.t;
    if step.Enter? then
      if t in s.tasks || s.budget.Of(step.p) == 0 then s
      else s.(tasks := Put(s.tasks, t, Some(Waiting(step.p))), waiting := s.waiting.With(step.p, s.waiting.Of(step.p) + 1))
    else if t !in s.tasks then s
    else
      var p := PartitionOf(s, t);
      match step
      case TakePermit(_) =>
        if !s.tasks[t].Waiting? || s.permits.Of(p) == 0 then s
        else s.(tasks := Put(s.tasks, t, Some(Permitted(p))), permits := s.permits.With(p, s.permits.Of(p) - 1))
      case GiveUp(_) =>
        if !s.tasks[t].Waiting? || s.waiting.Of(p) == 0 then s
        else s.(tasks := Put(s.tasks, t, None), waiting := s.waiting.With(p, s.waiting.Of(p) - 1))
      case CheckOut(_) =>
        if !s.tasks[t].Permitted? || s.checkedOut >= Limit(s) || s.waiting.Of(p) == 0 then s
        else s.(tasks := Put(s.tasks, t, Some(Connected(p))), checkedOut := s.checkedOut + 1,
                waiting := s.waiting.With(p, s.waiting.Of(p) - 1))
      case Fail(_) =>
        if !s.tasks[t].Permitted? || s.waiting.Of(p) == 0 then s
        else s.(tasks := Put(s.tasks, t, None), permits := s.permits.With(p, s.permits.Of(p) + 1),
                waiting := s.waiting.With(p, s.waiting.Of(p) - 1))
      case DropFirst(_) =>
        if !s.tasks[t].Connected? || s.checkedOut == 0 then s
        else if order.ConnectionFirst? then
          s.(tasks := Put(s.tasks, t, Some(Dropping(p))), checkedOut := s.checkedOut - 1)
        else s.(tasks := Put(s.tasks, t, Some(Orphaned(p))), permits := s.permits.With(p, s.permits.Of(p) + 1))
      case DropSecond(_) =>
        if s.tasks[t].Dropping? then
          s.(tasks := Put(s.tasks, t, None), permits := s.permits.With(p, s.permits.Of(p) + 1))
        else if s.tasks[t].Orphaned? && s.checkedOut > 0 then
          s.(tasks := Put(s.tasks, t, None), checkedOut := s.checkedOut - 1)
        else s
  }

  function Run(s: State, steps: seq<Step>, order: Ordering): State
    decreases |steps|
  {
    if steps == [] then s else Run(Apply(s, steps[0], order), steps[1..], order)
  }

  function Start(budget: Counts): State { State(budget, budget, Counts(0, 0, 0), 0, map[]) }

  // ---------------------------------------------------------------- the invariant

  ghost predicate Accounts(s: State, p: Partition)
  {
    && s.permits.Of(p) + Count(s.tasks, HoldsIn(p)) == s.budget.Of(p)
    && s.waiting.Of(p) == Count(s.tasks, AcquiresIn(p))
  }

  /** Every permit, slot and waiting acquisition is some task's. */
  ghost predicate Balanced(s: State)
  {
    && (forall p :: Accounts(s, p))
    && s.checkedOut == Count(s.tasks, UsesSlot)
  }

  ghost predicate Orderly(s: State) { forall t | t in s.tasks :: !s.tasks[t].Orphaned? }

  lemma StartBalanced(budget: Counts)
    ensures Balanced(Start(budget)) && Orderly(Start(budget))
  {
    forall p ensures Accounts(Start(budget), p) {
      Nobody(HoldsIn(p));
      Nobody(AcquiresIn(p));
    }
    Nobody(UsesSlot);
  }

  lemma Nobody(kind: Kind)
    ensures Count(map[], kind) == 0
  {
    assert Those(map[], kind) == {};
  }

  lemma StepAccounts(s: State, step: Step, order: Ordering, p: Partition)
    requires Accounts(s, p)
    ensures Accounts(Apply(s, step, order), p)
  {
    var r := Apply(s, step, order);
    PutCounts(s.tasks, step.t, Was(r.tasks, step.t), HoldsIn(p));
    PutCounts(s.tasks, step.t, Was(r.tasks, step.t), AcquiresIn(p));
    OneTask(s, step, order);
    hide Count;
  }

  /** A step moves no task but its own. */
  lemma OneTask(s: State, step: Step, order: Ordering)
    ensures var r := Apply(s, step, order); r.tasks == Put(s.tasks, step.t, Was(r.tasks, step.t))
    ensures Apply(s, step, order).budget == s.budget
  {
    assert step.t !in s.tasks ==> s.tasks - {step.t} == s.tasks;
    assert step.t in s.tasks ==> s.tasks[step.t := s.tasks[step.t]] == s.tasks;
  }

  lemma StepSlots(s: State, step: Step, order: Ordering)
    requires s.checkedOut == Count(s.tasks, UsesSlot)
    ensures var r := Apply(s, step, order); r.checkedOut == Count(r.tasks, UsesSlot)
  {
    var r := Apply(s, step, order);
    PutCounts(s.tasks, step.t, Was(r.tasks, step.t), UsesSlot);
    OneTask(s, step, order);
    hide Count;
  }

  lemma StepBalanced(s: State, step: Step, order: Ordering)
    requires Balanced(s)
    ensures Balanced(Apply(s, step, order))
    ensures order.ConnectionFirst? && Orderly(s) ==> Orderly(Apply(s, step, order))
  {
    hide Accounts, Count;
    forall p ensures Accounts(Apply(s, step, order), p) {
      StepAccounts(s, step, order, p);
    }
    StepSlots(s, step, order);
  }

  lemma {:induction false} RunBalanced(s: State, steps: seq<Step>, order: Ordering)
    requires Balanced(s)
    ensures Balanced(Run(s, steps, order)) && Run(s, steps, order).budget == s.budget
    ensures order.ConnectionFirst? && Orderly(s) ==> Orderly(Run(s, steps, order))
    decreases |steps|
  {
    hide Apply, Balanced, Orderly;
    if steps != [] {
      StepBalanced(s, steps[0], order);
      OneTask(s, steps[0], order);
      RunBalanced(Apply(s, steps[0], order), steps[1..], order);
    }
  }

  // ---------------------------------------------------------------- capacity

  /** The permits of all partitions together. */
  lemma HoldersSum(tasks: map<nat, Phase>)
    ensures Count(tasks, HoldsAny)
         == Count(tasks, HoldsIn(Application)) + Count(tasks, HoldsIn(Queue)) + Count(tasks, HoldsIn(Scheduler))
  {
    var a, q, c := Those(tasks, HoldsIn(Application)), Those(tasks, HoldsIn(Queue)), Those(tasks, HoldsIn(Scheduler));
    assert Those(tasks, HoldsAny) == a + q + c by { EveryHolder(tasks); }
    assert a !! q && (a + q) !! c;
  }

  lemma EveryHolder(tasks: map<nat, Phase>)
    ensures Those(tasks, HoldsAny)
         == Those(tasks, HoldsIn(Application)) + Those(tasks, HoldsIn(Queue)) + Those(tasks, HoldsIn(Scheduler))
  {
  }

  /**
   In every interleaving, physical checkouts never exceed held permits, held permits never exceed the
   budgets, and a task with a permit but no connection always finds a free slot.
   */
  lemma CapacityHolds(budget: Counts, steps: seq<Step>)
    ensures var s := Run(Start(budget), steps, ConnectionFirst);
      && s.checkedOut <= Count(s.tasks, HoldsAny) <= budget.Sum()
      && (forall t | t in s.tasks && (s.tasks[t].Permitted? || s.tasks[t].Dropping?) :: s.checkedOut < budget.Sum())
  {
    StartBalanced(budget);
    RunBalanced(Start(budget), steps, ConnectionFirst);
    Capacity(Run(Start(budget), steps, ConnectionFirst));
  }

  lemma Capacity(s: State)
    requires Balanced(s) && Orderly(s)
    ensures s.checkedOut <= Count(s.tasks, HoldsAny) <= Limit(s)
    ensures forall t | t in s.tasks && (s.tasks[t].Permitted? || s.tasks[t].Dropping?) :: s.checkedOut < Limit(s)
  {
    HoldersSum(s.tasks);
    assert Accounts(s, Application) && Accounts(s, Queue) && Accounts(s, Scheduler);
    var using, holding := Those(s.tasks, UsesSlot), Those(s.tasks, HoldsAny);
    SubsetSize(using, holding);
    forall t | t in s.tasks && (s.tasks[t].Permitted? || s.tasks[t].Dropping?) ensures s.checkedOut < Limit(s) {
      assert t in holding && t !in using;
      ProperSubsetSize(using, holding);
    }
  }

  /** A task with a permit is never refused for want of a slot. */
  lemma CheckOutSucceeds(s: State, t: nat)
    requires Balanced(s) && Orderly(s) && t in s.tasks && s.tasks[t].Permitted?
    ensures Apply(s, CheckOut(t), ConnectionFirst).tasks == s.tasks[t := Connected(s.tasks[t].p)]
  {
    Capacity(s);
    var p := s.tasks[t].p;
    assert Accounts(s, p);
    var acquiring := Those(s.tasks, AcquiresIn(p));
    assert t in acquiring;
    SubsetSize({t}, acquiring);
  }

  /** Dropping the permit first breaks it: a second task holds a permit while the pool is full. */
  lemma PermitFirstStarves()
    ensures var s := Run(Start(Counts(1, 0, 0)),
                         [Enter(0, Application), TakePermit(0), CheckOut(0)] +
                         [DropFirst(0), Enter(1, Application), TakePermit(1)], PermitFirst);
      1 in s.tasks && s.tasks[1] == Permitted(Application) && s.checkedOut == Limit(s)
  {
    var s0 := Start(Counts(1, 0, 0));
    var a := Apply(s0, Enter(0, Application), PermitFirst);
    var b := Apply(a, TakePermit(0), PermitFirst);
    var c := Apply(b, CheckOut(0), PermitFirst);
    assert c == State(Counts(1, 0, 0), Counts(0, 0, 0), Counts(0, 0, 0), 1, map[0 := Connected(Application)]);
    var steps := [DropFirst(0), Enter(1, Application), TakePermit(1)];
    Unroll(s0, Enter(0, Application), TakePermit(0), CheckOut(0), steps);
    Starves(c);
  }

  lemma Starves(c: State)
    requires c == State(Counts(1, 0, 0), Counts(0, 0, 0), Counts(0, 0, 0), 1, map[0 := Connected(Application)])
    ensures var s := Run(c, [DropFirst(0), Enter(1, Application), TakePermit(1)], PermitFirst);
      1 in s.tasks && s.tasks[1] == Permitted(Application) && s.checkedOut == Limit(s)
  {
    var d := Apply(c, DropFirst(0), PermitFirst);
    assert d == State(Counts(1, 0, 0), Counts(1, 0, 0), Counts(0, 0, 0), 1, map[0 := Orphaned(Application)]);
    var e := Apply(d, Enter(1, Application), PermitFirst);
    var f := Apply(e, TakePermit(1), PermitFirst);
    Unroll(c, DropFirst(0), Enter(1, Application), TakePermit(1), []);
    assert [DropFirst(0), Enter(1, Application), TakePermit(1)] + [] == [DropFirst(0), Enter(1, Application), TakePermit(1)];
  }

  lemma Unroll(s: State, x: Step, y: Step, z: Step, steps: seq<Step>)
    ensures Run(s, [x, y, z] + steps, PermitFirst)
         == Run(Apply(Apply(Apply(s, x, PermitFirst), y, PermitFirst), z, PermitFirst), steps, PermitFirst)
  {
    hide Apply;
    var all := [x, y, z] + steps;
    assert all[1..] == [y, z] + steps && ([y, z] + steps)[1..] == [z] + steps && ([z] + steps)[1..] == steps;
    var s1 := Apply(s, x, PermitFirst);
    var s2 := Apply(s1, y, PermitFirst);
    assert Run(s, all, PermitFirst) == Run(s1, [y, z] + steps, PermitFirst);
    assert Run(s1, [y, z] + steps, PermitFirst) == Run(s2, [z] + steps, PermitFirst);
  }

  // ---------------------------------------------------------------- the pool as the source updates it

  /** Semaphores, a waiting counter each, and the shared pool's checkouts; `tasks` says whose they are. */
  class DatabasePool {
    const budget: Counts
    var permits: Counts
    var waiting: Counts
    var checkedOut: nat
    ghost var tasks: map<nat, Phase>

    constructor (budget: Counts)
      requires Total(budget).Ok?
      ensures View() == Start(budget)
    {
      this.budget := budget;
      permits, waiting, checkedOut, tasks := budget, Counts(0, 0, 0), 0, map[];
    }

    ghost function View(): State
      reads this
    {
      State(budget, permits, waiting, checkedOut, tasks)
    }

    /** `queue` and `scheduler` refuse a partition without a budget. */
    method BeginAcquire(t: nat, p: Partition) returns (configured: bool)
      requires t !in tasks
      modifies this`waiting, this`tasks
      ensures View() == Apply(old(View()), Enter(t, p), ConnectionFirst) && configured == (budget.Of(p) > 0)
    {
      configured := budget.Of(p) > 0;
      if configured {
        waiting := waiting.With(p, waiting.Of(p) + 1);
        tasks := tasks[t := Waiting(p)];
      }
    }

    /** Takes a free permit, or keeps waiting for one. */
    method AcquirePermit(t: nat, p: Partition) returns (ok: bool)
      requires t in tasks && tasks[t] == Waiting(p)
      modifies this`permits, this`tasks
      ensures View() == Apply(old(View()), TakePermit(t), ConnectionFirst) && ok == (old(permits).Of(p) > 0)
    {
      ok := permits.Of(p) > 0;
      if ok {
        permits := permits.With(p, permits.Of(p) - 1);
        tasks := tasks[t := Permitted(p)];
      }
    }

    /** The shared pool grants a slot: with a permit in hand there is always one. */
    method GetOwned(t: nat, p: Partition)
      requires Balanced(View()) && Orderly(View()) && t in tasks && tasks[t] == Permitted(p)
      modifies this`checkedOut, this`waiting, this`tasks
      ensures View() == Apply(old(View()), CheckOut(t), ConnectionFirst)
      ensures t in tasks && tasks[t] == Connected(p) && checkedOut <= Limit(View())
    {
      Capacity(View());
      CheckOutSucceeds(View(), t);
      Acquiring(View(), t, p);
      hide Balanced, Orderly;
      checkedOut := checkedOut + 1;
      waiting := waiting.With(p, waiting.Of(p) - 1);
      tasks := tasks[t := Connected(p)];
    }

    /** A checkout that fails, or times out, returns its permit. */
    method Abandon(t: nat, p: Partition)
      requires Balanced(View()) && t in tasks && tasks[t] == Permitted(p)
      modifies this`permits, this`waiting, this`tasks
      ensures View() == Apply(old(View()), Fail(t), ConnectionFirst)
    {
      Acquiring(View(), t, p);
      hide Balanced;
      permits := permits.With(p, permits.Of(p) + 1);
      waiting := waiting.With(p, waiting.Of(p) - 1);
      tasks := tasks - {t};
    }

    /** `PoolConnection` drops its connection, then its permit. */
    method DropConnection(t: nat, p: Partition)
      requires Balanced(View()) && t in tasks && tasks[t] == Connected(p)
      modifies this`permits, this`checkedOut, this`tasks
      ensures View() == Apply(Apply(old(View()), DropFirst(t), ConnectionFirst), DropSecond(t), ConnectionFirst)
      ensures tasks == old(tasks) - {t} && waiting == old(waiting)
      ensures permits == old(permits).With(p, old(permits).Of(p) + 1)
    {
      DropPooled(t, p);
      ReturnPermit(t, p);
    }

    method DropPooled(t: nat, p: Partition)
      requires Balanced(View()) && t in tasks && tasks[t] == Connected(p)
      modifies this`checkedOut, this`tasks
      ensures View() == Apply(old(View()), DropFirst(t), ConnectionFirst)
      ensures tasks == old(tasks)[t := Dropping(p)]
    {
      InUse(View(), t);
      hide Balanced;
      checkedOut := checkedOut - 1;
      tasks := tasks[t := Dropping(p)];
    }

    method ReturnPermit(t: nat, p: Partition)
      requires t in tasks && tasks[t] == Dropping(p)
      modifies this`permits, this`tasks
      ensures View() == Apply(old(View()), DropSecond(t), ConnectionFirst)
      ensures tasks == old(tasks) - {t} && permits == old(permits).With(p, old(permits).Of(p) + 1)
    {
      permits := permits.With(p, permits.Of(p) + 1);
      tasks := tasks - {t};
    }

    /** Opening `count` connections of an idle partition succeeds whatever the other partitions hold. */
    method Warm(p: Partition, count: nat, first: nat) returns (ok: bool)
      requires Balanced(View()) && Orderly(View()) && budget.Of(p) > 0
      requires permits.Of(p) == budget.Of(p) && forall t | t in tasks :: t < first
      modifies this`permits, this`waiting, this`checkedOut, this`tasks
      ensures ok <==> count <= budget.Of(p)
      ensures Balanced(View()) && Orderly(View()) && tasks == old(tasks) && permits.Of(p) == budget.Of(p)
    {
      hide Balanced, Orderly, Apply, Start;
      if count > budget.Of(p) {
        return false;
      }
      for i := 0 to count
        invariant Balanced(View()) && Orderly(View()) && permits.Of(p) == budget.Of(p) - i
        invariant Grown(old(tasks), tasks, first, i, p)
      {
        OpenOne(p, first + i);
      }
      var left: nat := count;
      while left > 0
        invariant left <= count && Balanced(View()) && Orderly(View()) && permits.Of(p) == budget.Of(p) - left
        invariant Grown(old(tasks), tasks, first, left, p)
      {
        left := left - 1;
        StepBalanced(View(), DropFirst(first + left), ConnectionFirst);
        StepBalanced(Apply(View(), DropFirst(first + left), ConnectionFirst), DropSecond(first + left), ConnectionFirst);
        DropConnection(first + left, p);
      }
      return true;
    }

    /** `connection` without contention in its partition. */
    method OpenOne(p: Partition, t: nat)
      requires Balanced(View()) && Orderly(View()) && permits.Of(p) > 0 && t !in tasks && budget.Of(p) > 0
      modifies this`permits, this`waiting, this`checkedOut, this`tasks
      ensures Balanced(View()) && Orderly(View())
      ensures tasks == old(tasks)[t := Connected(p)] && permits.Of(p) == old(permits).Of(p) - 1
    {
      hide Balanced, Orderly;
      StepBalanced(View(), Enter(t, p), ConnectionFirst);
      var _ := BeginAcquire(t, p);
      StepBalanced(View(), TakePermit(t), ConnectionFirst);
      var _ := AcquirePermit(t, p);
      StepBalanced(View(), CheckOut(t), ConnectionFirst);
      GetOwned(t, p);
    }
  }

  /** The tasks of a warm-up beside those that were there. */
  ghost predicate Grown(before: map<nat, Phase>, after: map<nat, Phase>, first: nat, n: nat, p: Partition)
  {
    && (forall t :: t in after <==> t in before || first <= t < first + n)
    && (forall t | t in before :: t < first && after[t] == before[t])
    && (forall t | first <= t < first + n :: after[t] == Connected(p))
  }

  lemma Acquiring(s: State, t: nat, p: Partition)
    requires Balanced(s) && t in s.tasks && s.tasks[t].p == p && (s.tasks[t].Permitted? || s.tasks[t].Waiting?)
    ensures s.waiting.Of(p) > 0
  {
    assert Accounts(s, p);
    assert t in Those(s.tasks, AcquiresIn(p));
    SubsetSize({t}, Those(s.tasks, AcquiresIn(p)));
  }

  lemma InUse(s: State, t: nat)
    requires Balanced(s) && t in s.tasks && s.tasks[t].Connected?
    ensures s.checkedOut > 0
  {
    assert t in Those(s.tasks, UsesSlot);
    SubsetSize({t}, Those(s.tasks, UsesSlot));
  }
}
