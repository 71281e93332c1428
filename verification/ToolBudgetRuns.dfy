/**
 What holds over every run of the tool admission machine
 (crates/host-core/src/tool_budget.rs): conservation of permits and the caps it
 gives, the bounded queue, freedom from deadlock, and draining.
 */
module ToolBudgetRuns {
  import opened ToolBudget

  lemma InitHolds()
    ensures Inv(INITIAL)
  {
  }

  // ---- Every step keeps the invariant ------------------------------------------

  lemma {:induction false} HoldersAppend(tasks: seq<Task>, t: Task, sem: Sem)
    ensures Holders(tasks + [t], sem) == Holders(tasks, sem) + if Holds(t, sem) then 1 else 0
    ensures CountedTasks(tasks + [t]) == CountedTasks(tasks) + if Counted(t) then 1 else 0
    ensures QueuedTasks(tasks + [t]) == QueuedTasks(tasks) + if Queued(t) then 1 else 0
  {
    if tasks == [] {
      assert tasks + [t] == [t];
    } else {
      assert (tasks + [t])[1..] == tasks[1..] + [t];
      HoldersAppend(tasks[1..], t, sem);
    }
  }

  lemma {:induction false} UnknownUnheld(m: Machine, tasks: seq<Task>, sem: Sem)
    requires forall t :: t in tasks ==> WellFormed(t) && Provided(m, t)
    requires !Known(m, sem)
    ensures Holders(tasks, sem) == 0
  {
    if tasks != [] {
      assert tasks[0] in tasks;
      UnknownUnheld(m, tasks[1..], sem);
    }
  }

  lemma StepKeepsInv(m: Machine, a: Action)
    requires Inv(m) && Enabled(m, a)
    ensures Inv(Step(m, a))
  {
    match a
    case Arrive(session, tool) => ArriveKeepsInv(m, session, tool);
    case Advance(i) =>
      AdvanceCounts(m, i);
      AdvanceConserves(m, i);
      AdvanceProvides(m, i);
    case TimeOut(i) => TimeOutKeepsInv(m, i);
  }

  lemma ArriveKeepsInv(m: Machine, session: string, tool: string)
    requires Inv(m)
    ensures Inv(Step(m, Arrive(session, tool)))
  {
    var m' := Step(m, Arrive(session, tool));
    var t := Task(session, tool, FromName(tool), Arrived);
    HoldersAppend(m.tasks, t, Total);
    forall sem | Known(m', sem)
      ensures Available(m', sem) + Holders(m'.tasks, sem) == Capacity(sem)
    {
      HoldersAppend(m.tasks, t, sem);
    }
  }

  lemma AdvanceCounts(m: Machine, i: nat)
    requires Inv(m) && Enabled(m, Advance(i))
    ensures var m' := Step(m, Advance(i));
      m'.queued == CountedTasks(m'.tasks) && QueuedTasks(m'.tasks) <= MAX_QUEUED_TOOLS
  {
    var t := m.tasks[i];
    assert t in m.tasks;
    var m' := Step(m, Advance(i));
    EffectAllowed(m, i);
    StepMatchesCounter(t, Free(m, t), m.queued);
    CountsUpdate(m.tasks, i, m'.tasks[i]);
    QueuedAreCounted(m'.tasks);
  }

  lemma AdvanceProvides(m: Machine, i: nat)
    requires Inv(m) && Enabled(m, Advance(i))
    ensures var m' := Step(m, Advance(i)); forall u :: u in m'.tasks ==> WellFormed(u) && Provided(m', u)
  {
    var t := m.tasks[i];
    assert t in m.tasks;
    var m' := Step(m, Advance(i));
    EffectAllowed(m, i);
    StepMatchesHoldings(t, Free(m, t), m.queued);
    forall u | u in m'.tasks
      ensures WellFormed(u) && Provided(m', u)
    {
      if u in m.tasks {
        assert WellFormed(u) && Provided(m, u);
      } else {
        assert u == m'.tasks[i];
      }
    }
  }

  lemma AdvanceConserves(m: Machine, i: nat)
    requires Inv(m) && Enabled(m, Advance(i))
    ensures var m' := Step(m, Advance(i));
      forall sem :: Known(m', sem) ==> Available(m', sem) + Holders(m'.tasks, sem) == Capacity(sem)
  {
    forall sem | Known(Step(m, Advance(i)), sem)
      ensures var m' := Step(m, Advance(i)); Available(m', sem) + Holders(m'.tasks, sem) == Capacity(sem)
    {
      AdvanceConservesOne(m, i, sem);
    }
  }

  lemma EffectOn(m: Machine, e: Effect, sem: Sem)
    requires Allowed(m, e) && Known(Apply(m, e), sem)
    ensures !Known(m, sem) ==> e == Register(sem) && Available(Apply(m, e), sem) == Capacity(sem)
    ensures Known(m, sem) ==>
      Available(Apply(m, e), sem)
      == Available(m, sem) - (if e == Take(sem) then 1 else 0) + (if e == Drop(sem) then 1 else 0)
  {
  }

  lemma AdvanceConservesOne(m: Machine, i: nat, sem: Sem)
    requires Inv(m) && Enabled(m, Advance(i)) && Known(Step(m, Advance(i)), sem)
    ensures var m' := Step(m, Advance(i)); Available(m', sem) + Holders(m'.tasks, sem) == Capacity(sem)
  {
    var t := m.tasks[i];
    var (e, phase) := NextStep(t, Free(m, t), m.queued);
    assert t in m.tasks;
    EffectAllowed(m, i);
    EffectOn(m, e, sem);
    HoldersChange(m.tasks, i, Free(m, t), m.queued, sem);
    assert Available(Step(m, Advance(i)), sem) == Available(Apply(m, e), sem);
    if !Known(m, sem) {
      UnknownUnheld(m, m.tasks, sem);
    } else {
      assert Available(m, sem) + Holders(m.tasks, sem) == Capacity(sem);
    }
  }

  /** A step changes the number of holders exactly by its effect. */
  lemma HoldersChange(tasks: seq<Task>, i: nat, free: bool, queued: nat, sem: Sem)
    requires i < |tasks| && WellFormed(tasks[i])
    ensures var (e, phase) := NextStep(tasks[i], free, queued);
      Holders(tasks[i := tasks[i].(phase := phase)], sem) + (if e == Drop(sem) then 1 else 0)
      == Holders(tasks, sem) + (if e == Take(sem) then 1 else 0)
  {
    var t := tasks[i];
    StepIsSound(t, free, queued);
    StepMatchesHolding(t, free, queued, sem);
    HoldersUpdate(tasks, i, t.(phase := NextStep(t, free, queued).1), sem);
  }

  lemma TimeOutKeepsInv(m: Machine, i: nat)
    requires Inv(m) && Enabled(m, TimeOut(i))
    ensures Inv(Step(m, TimeOut(i)))
  {
    assert m.tasks[i] in m.tasks;
    var m' := Step(m, TimeOut(i));
    var t' := m'.tasks[i];
    CountsUpdate(m.tasks, i, t');
    forall sem | Known(m', sem)
      ensures Available(m', sem) + Holders(m'.tasks, sem) == Capacity(sem)
    {
      HoldersUpdate(m.tasks, i, t', sem);
    }
    forall u | u in m'.tasks
      ensures WellFormed(u) && Provided(m', u)
    {
      assert u == t' || u in m.tasks;
    }
  }

  /** The state after a run from `m`, if every action was enabled. */
  ghost predicate Reaches(m: Machine, actions: seq<Action>, end: Machine)
    requires Inv(m)
    decreases |actions|
  {
    if actions == [] then m == end
    else Enabled(m, actions[0]) && (StepKeepsInv(m, actions[0]); Reaches(Step(m, actions[0]), actions[1..], end))
  }

  /** Main result: in every reachable state the invariant holds. */
  lemma {:induction false} ReachableHasInv(m: Machine, actions: seq<Action>, end: Machine)
    requires Inv(m) && Reaches(m, actions, end)
    ensures Inv(end)
    decreases |actions|
  {
    if actions != [] {
      StepKeepsInv(m, actions[0]);
      ReachableHasInv(Step(m, actions[0]), actions[1..], end);
    }
  }

  // ---- Caps ---------------------------------------------------------------------

  lemma {:induction false} TwoHolders(tasks: seq<Task>, sem: Sem, i: nat, j: nat)
    requires i < j < |tasks| && Holds(tasks[i], sem) && Holds(tasks[j], sem)
    ensures Holders(tasks, sem) >= 2
  {
    if i == 0 {
      OneHolder(tasks[1..], sem, j - 1);
    } else {
      TwoHolders(tasks[1..], sem, i - 1, j - 1);
    }
  }

  lemma {:induction false} OneHolder(tasks: seq<Task>, sem: Sem, i: nat)
    requires i < |tasks| && Holds(tasks[i], sem)
    ensures Holders(tasks, sem) >= 1
  {
    if i > 0 {
      OneHolder(tasks[1..], sem, i - 1);
    }
  }

  /** Of the mutations of one session at most one holds a permit that other sessions compete for. */
  lemma OneSlotPerSession(m: Machine, i: nat, j: nat, a: Sem, b: Sem)
    requires Inv(m) && i < |m.tasks| && j < |m.tasks| && i != j
    requires m.tasks[i].class_ == Mutation && m.tasks[j].class_ == Mutation
    requires m.tasks[i].session == m.tasks[j].session
    requires a.Total? || a.OfClass?
    requires b.Total? || b.OfClass?
    ensures !(Holds(m.tasks[i], a) && Holds(m.tasks[j], b))
  {
    var t, u := m.tasks[i], m.tasks[j];
    assert t in m.tasks && u in m.tasks;
    var slot := MutationOf(t.session);
    if Holds(t, a) && Holds(u, b) {
      assert Holds(t, slot) && Holds(u, slot);
      TwoHolders(m.tasks, slot, if i < j then i else j, if i < j then j else i);
    }
  }

  /** At most so many tasks hold a permit of each kind, and at most 64 are queued
      although the counter also includes calls that are being turned away. */
  lemma Caps(m: Machine, sem: Sem)
    requires Inv(m)
    ensures Holders(m.tasks, sem) <= Capacity(sem)
    ensures QueuedTasks(m.tasks) <= MAX_QUEUED_TOOLS
    ensures m.queued == QueuedTasks(m.tasks) + RejectedTasks(m.tasks)
  {
    if !Known(m, sem) { UnknownUnheld(m, m.tasks, sem); }
    CounterSplits(m.tasks);
  }

  /** Rejections whose increment is not yet undone. */
  function RejectedTasks(tasks: seq<Task>): nat {
    if tasks == [] then 0 else (if tasks[0].phase.Rejecting? then 1 else 0) + RejectedTasks(tasks[1..])
  }

  lemma {:induction false} CounterSplits(tasks: seq<Task>)
    ensures CountedTasks(tasks) == QueuedTasks(tasks) + RejectedTasks(tasks)
  {
    if tasks != [] {
      CounterSplits(tasks[1..]);
    }
  }

  // ---- No deadlock ------------------------------------------------------------------

  lemma {:induction false} SomeHolder(tasks: seq<Task>, sem: Sem) returns (i: nat)
    requires Holders(tasks, sem) > 0
    ensures i < |tasks| && Holds(tasks[i], sem)
  {
    if Holds(tasks[0], sem) {
      i := 0;
    } else {
      i := SomeHolder(tasks[1..], sem);
      i := i + 1;
    }
  }

  /** Position in the order in which everybody takes permits. */
  function Level(sem: Sem): nat {
    match sem
    case MutationOf(_) => 0
    case Total => 1
    case OfClass(_) => 2
    case OfSession(_) => 3
  }

  /** Main result: whoever is unfinished, somebody can move. A blocked task waits
      for a permit whose holder is free to move or blocked further along the order. */
  lemma {:induction false} NoDeadlock(m: Machine, i: nat) returns (j: nat)
    requires Inv(m) && i < |m.tasks| && !m.tasks[i].phase.Finished?
    ensures Enabled(m, Advance(j))
    decreases if m.tasks[i].phase.Waiting? && WellFormed(m.tasks[i]) then 4 - Level(Wanted(m.tasks[i])) else 0
  {
    var t := m.tasks[i];
    assert t in m.tasks;
    if !Blocked(m, t) {
      j := i;
    } else {
      var sem := Wanted(t);
      assert Known(m, sem) && Capacity(sem) > 0;
      var holder := SomeHolder(m.tasks, sem);
      var u := m.tasks[holder];
      assert u in m.tasks;
      assert u.phase.Waiting? ==> Level(Wanted(u)) > Level(sem);
      j := NoDeadlock(m, holder);
    }
  }

  // ---- Draining -----------------------------------------------------------------------

  /** Bound on the steps a task can still make. */
  function StepsLeft(t: Task): nat {
    match t.phase
    case Arrived => 31
    case Registered => 30
    case Trying(k) => if k <= 4 then 29 - k else 0
    case Backing(k) => 21 + k
    case Missed => 21
    case Rejecting(_) => 5
    case Waiting(k) => if k <= 4 then 20 - k else 0
    case Expiring(k) => 12 + k
    case Leaving(_) => 11
    case Running => 10
    case Releasing(j) => if j <= 4 then 10 - j else 0
    case Finished(_) => 0
  }

  function Measure(tasks: seq<Task>): nat {
    if tasks == [] then 0 else StepsLeft(tasks[0]) + Measure(tasks[1..])
  }

  lemma {:induction false} MeasureUpdate(tasks: seq<Task>, i: nat, t: Task)
    requires i < |tasks|
    ensures Measure(tasks[i := t]) + StepsLeft(tasks[i]) == Measure(tasks) + StepsLeft(t)
  {
    if i > 0 {
      assert tasks[i := t][1..] == tasks[1..][i - 1 := t];
      MeasureUpdate(tasks[1..], i - 1, t);
    } else {
      assert tasks[i := t][1..] == tasks[1..];
    }
  }

  lemma NextStepShrinks(t: Task, free: bool, queued: nat)
    requires WellFormed(t) && !t.phase.Finished? && (t.phase.Waiting? ==> free)
    ensures var (_, phase) := NextStep(t, free, queued); StepsLeft(t.(phase := phase)) < StepsLeft(t)
  {
  }

  lemma StepMeasure(m: Machine, a: Action)
    requires Inv(m) && Enabled(m, a) && !a.Arrive?
    ensures Measure(Step(m, a).tasks) < Measure(m.tasks)
  {
    var t := m.tasks[a.i];
    assert t in m.tasks;
    if a.Advance? {
      EffectAllowed(m, a.i);
      NextStepShrinks(t, Free(m, t), m.queued);
    }
    MeasureUpdate(m.tasks, a.i, Step(m, a).tasks[a.i]);
  }

  /** Main result: without new arrivals every run is finite, and it can only stop
      when every call has finished. */
  lemma {:induction false} Drains(m: Machine, actions: seq<Action>, end: Machine)
    requires Inv(m) && Reaches(m, actions, end)
    requires forall k :: 0 <= k < |actions| ==> !actions[k].Arrive?
    ensures |actions| + Measure(end.tasks) <= Measure(m.tasks)
    ensures Inv(end)
    ensures (exists i :: 0 <= i < |end.tasks| && !end.tasks[i].phase.Finished?) ==>
      exists a :: Enabled(end, a) && !a.Arrive?
    decreases |actions|
  {
    if actions == [] {
      if i :| 0 <= i < |end.tasks| && !end.tasks[i].phase.Finished? {
        var j := NoDeadlock(end, i);
        assert Enabled(end, Advance(j));
      }
    } else {
      StepKeepsInv(m, actions[0]);
      StepMeasure(m, actions[0]);
      Drains(Step(m, actions[0]), actions[1..], end);
    }
  }
}
