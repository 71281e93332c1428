/**
 What the tool budget (crates/host-core/src/tool_budget.rs) promises in terms of the
 names of the tools: which calls compete with each other, how many of them can run at
 once, and when a call runs at once, waits, or is turned away.
 */
module ToolBudgetNames {
  import opened ToolBudget
  import opened ToolBudgetRuns

  // ---- Calls by name --------------------------------------------------------------

  predicate Reads(tool: string) {
    tool == "Read" || tool == "Glob" || tool == "Grep" || tool == "ProcessRead"
  }

  predicate Mutates(tool: string) {
    tool == "Write" || tool == "Edit"
  }

  predicate Shells(tool: string) {
    tool == "Bash" || tool == "ProcessStart"
  }

  /** Every other name, such as those of plugins' tools. */
  predicate Others(tool: string) {
    !Reads(tool) && !Mutates(tool) && !Shells(tool)
  }

  ghost predicate HoldsClassPermit(t: Task) {
    exists c: ToolClass :: Holds(t, OfClass(c))
  }

  /** The calls with such a tool that hold a class permit. */
  ghost function CallsOf(tasks: seq<Task>, named: string -> bool): nat {
    if tasks == [] then 0
    else (if named(tasks[0].tool) && HoldsClassPermit(tasks[0]) then 1 else 0) + CallsOf(tasks[1..], named)
  }

  /** The Write and Edit calls of a session that hold a permit which other sessions compete for. */
  ghost function MutationsOf(tasks: seq<Task>, session: string): nat {
    if tasks == [] then 0
    else
      var t := tasks[0];
      (if t.session == session && Mutates(t.tool) && (Holds(t, Total) || HoldsClassPermit(t)) then 1 else 0)
      + MutationsOf(tasks[1..], session)
  }

  /** The permits of a call that runs. */
  predicate FullyAdmitted(t: Task) {
    && Holds(t, Total) && Holds(t, OfSession(t.session))
    && (Reads(t.tool) ==> Holds(t, OfClass(Read)))
    && (Shells(t.tool) ==> Holds(t, OfClass(Shell)))
    && (Mutates(t.tool) ==> Holds(t, OfClass(Mutation)) && Holds(t, MutationOf(t.session)))
    && (Others(t.tool) ==> Holds(t, OfClass(Plugin)))
  }

  /** Every call has the class of its tool's name, and only a full queue turns calls away. */
  ghost predicate Named(tasks: seq<Task>) {
    forall t :: t in tasks ==>
      && t.class_ == FromName(t.tool)
      && (t.phase.Finished? && t.phase.result.QueueFull? ==> t.phase.result.depth > 64)
  }

  lemma StepKeepsNamed(m: Machine, a: Action)
    requires Inv(m) && Enabled(m, a) && Named(m.tasks)
    ensures Named(Step(m, a).tasks)
  {
    var tasks := Step(m, a).tasks;
    forall t | t in tasks
      ensures t.class_ == FromName(t.tool)
      ensures t.phase.Finished? && t.phase.result.QueueFull? ==> t.phase.result.depth > 64
    {
      if t !in m.tasks && !a.Arrive? {
        assert m.tasks[a.i] in m.tasks;
      }
    }
  }

  lemma {:induction false} RunKeepsNamed(m: Machine, actions: seq<Action>, end: Machine)
    requires Inv(m) && Named(m.tasks) && Reaches(m, actions, end)
    ensures Inv(end) && Named(end.tasks)
    decreases |actions|
  {
    if actions != [] {
      StepKeepsInv(m, actions[0]);
      StepKeepsNamed(m, actions[0]);
      RunKeepsNamed(Step(m, actions[0]), actions[1..], end);
    }
  }

  // ---- How many calls can run at once -----------------------------------------------

  lemma {:induction false} CallsHold(tasks: seq<Task>, named: string -> bool, c: ToolClass)
    requires Named(tasks)
    requires forall t :: t in tasks && named(t.tool) ==> t.class_ == c
    ensures CallsOf(tasks, named) <= Holders(tasks, OfClass(c))
  {
    if tasks != [] {
      assert tasks[0] in tasks;
      CallsHold(tasks[1..], named, c);
    }
  }

  lemma {:induction false} MutationsHoldSlot(tasks: seq<Task>, session: string)
    requires Named(tasks) && forall t :: t in tasks ==> WellFormed(t)
    ensures MutationsOf(tasks, session) <= Holders(tasks, MutationOf(session))
  {
    if tasks != [] {
      assert tasks[0] in tasks;
      MutationsHoldSlot(tasks[1..], session);
    }
  }

  lemma ClassCaps(m: Machine)
    requires Inv(m) && Named(m.tasks)
    ensures CallsOf(m.tasks, Reads) <= 8 && CallsOf(m.tasks, Mutates) <= 2
    ensures CallsOf(m.tasks, Shells) <= 4 && CallsOf(m.tasks, Others) <= 4
  {
    CallsHold(m.tasks, Reads, Read);
    CallsHold(m.tasks, Mutates, Mutation);
    CallsHold(m.tasks, Shells, Shell);
    CallsHold(m.tasks, Others, Plugin);
    Caps(m, OfClass(Read));
    Caps(m, OfClass(Mutation));
    Caps(m, OfClass(Shell));
    Caps(m, OfClass(Plugin));
  }

  lemma SessionCaps(m: Machine, session: string)
    requires Inv(m) && Named(m.tasks)
    ensures Holders(m.tasks, OfSession(session)) <= 4 && MutationsOf(m.tasks, session) <= 1
  {
    MutationsHoldSlot(m.tasks, session);
    Caps(m, OfSession(session));
    Caps(m, MutationOf(session));
  }

  lemma RunningIsAdmitted(t: Task)
    requires t.class_ == FromName(t.tool) && t.phase.Running?
    ensures FullyAdmitted(t)
  {
  }

  /** Main result: over every run at most sixteen calls are admitted, four of a session, eight that
      read, two that change files and only one of those in a session, four that run commands,
      and four of all other tools; a running call has every permit it needs. At most 64 wait,
      and only a call that found 64 others is turned away. */
  lemma CapsByName(actions: seq<Action>, end: Machine, session: string)
    requires Inv(INITIAL) && Reaches(INITIAL, actions, end)
    ensures Holders(end.tasks, Total) <= 16 && Holders(end.tasks, OfSession(session)) <= 4
    ensures CallsOf(end.tasks, Reads) <= 8 && CallsOf(end.tasks, Shells) <= 4 && CallsOf(end.tasks, Others) <= 4
    ensures CallsOf(end.tasks, Mutates) <= 2 && MutationsOf(end.tasks, session) <= 1
    ensures forall t :: t in end.tasks && t.phase.Running? ==> FullyAdmitted(t)
    ensures QueuedTasks(end.tasks) <= 64
    ensures forall t :: t in end.tasks && t.phase.Finished? && t.phase.result.QueueFull? ==> t.phase.result.depth > 64
  {
    RunKeepsNamed(INITIAL, actions, end);
    ClassCaps(end);
    SessionCaps(end, session);
    Caps(end, Total);
    forall t | t in end.tasks && t.phase.Running?
      ensures FullyAdmitted(t)
    {
      RunningIsAdmitted(t);
    }
  }

  /** Main result: over every run, of the Write and Edit calls of one session at most one holds a
      permit that other sessions compete for, whether it waits or runs. */
  lemma OneMutationPerSessionHoldsGlobals(actions: seq<Action>, end: Machine, i: nat, j: nat, a: Sem, b: Sem)
    requires Inv(INITIAL) && Reaches(INITIAL, actions, end)
    requires i < |end.tasks| && j < |end.tasks| && i != j && end.tasks[i].session == end.tasks[j].session
    requires end.tasks[i].tool in {"Write", "Edit"} && end.tasks[j].tool in {"Write", "Edit"}
    requires a.Total? || a.OfClass?
    requires b.Total? || b.OfClass?
    ensures !(Holds(end.tasks[i], a) && Holds(end.tasks[j], b))
  {
    RunKeepsNamed(INITIAL, actions, end);
    assert end.tasks[i] in end.tasks && end.tasks[j] in end.tasks;
    OneSlotPerSession(end, i, j, a, b);
  }

  // ---- Who runs at once ---------------------------------------------------------------

  predicate FastPath(t: Task) {
    t.phase.Arrived? || t.phase.Registered? || t.phase.Trying? || t.phase.Backing?
  }

  /** The state when call `i` has gone through its fast path without any other call moving. */
  ghost function Undisturbed(m: Machine, i: nat): (m': Machine)
    requires Inv(m) && i < |m.tasks|
    ensures Inv(m') && i < |m'.tasks| && !FastPath(m'.tasks[i])
    decreases StepsLeft(m.tasks[i])
  {
    if !FastPath(m.tasks[i]) then m
    else
      assert m.tasks[i] in m.tasks;
      StepKeepsInv(m, Advance(i));
      EffectAllowed(m, i);
      NextStepShrinks(m.tasks[i], Free(m, m.tasks[i]), m.queued);
      Undisturbed(Step(m, Advance(i)), i)
  }

  /** One step of an undisturbed call. */
  lemma UndisturbedStep(m: Machine, i: nat, t: Task, e: Effect, phase: Phase)
    requires Inv(m) && i < |m.tasks| && t == m.tasks[i] && WellFormed(t) && Provided(m, t) && FastPath(t)
    requires (e, phase) == NextStep(t, Free(m, t), m.queued)
    ensures Allowed(m, e) && Enabled(m, Advance(i)) && Inv(Step(m, Advance(i)))
    ensures Step(m, Advance(i)) == Apply(m, e).(tasks := m.tasks[i := t.(phase := phase)])
  {
    StepKeepsInv(m, Advance(i));
    EffectAllowed(m, i);
  }

  lemma UndisturbedOn(m: Machine, i: nat, t: Task, e: Effect, phase: Phase)
    requires Inv(m) && i < |m.tasks| && t == m.tasks[i] && WellFormed(t) && Provided(m, t) && FastPath(t)
    requires (e, phase) == NextStep(t, Free(m, t), m.queued)
    ensures Allowed(m, e)
    ensures var next := Apply(m, e).(tasks := m.tasks[i := t.(phase := phase)]);
      Inv(next) && Undisturbed(m, i) == Undisturbed(next, i)
  {
    UndisturbedStep(m, i, t, e, phase);
  }

  /** What was taken before the first missing permit is given back. */
  lemma {:induction false} GivesBack(m: Machine, i: nat, t: Task, k: nat)
    requires Inv(m) && i < |m.tasks| && t == m.tasks[i] && t.phase == Backing(k)
    ensures Undisturbed(m, i).tasks == m.tasks[i := t.(phase := Missed)]
    decreases k
  {
    assert t in m.tasks;
    var phase := if k == 1 then Missed else Backing(k - 1);
    var e := Drop(Nth(t, k - 1));
    UndisturbedOn(m, i, t, e, phase);
    var next := Apply(m, e).(tasks := m.tasks[i := t.(phase := phase)]);
    if k > 1 {
      GivesBack(next, i, next.tasks[i], k - 1);
      assert m.tasks[i := t.(phase := phase)][i := t.(phase := Missed)] == m.tasks[i := t.(phase := Missed)];
    }
  }

  /** Every permit that is still to be taken is there. */
  predicate AllFree(m: Machine, t: Task, k: nat) {
    forall j :: k <= j < Needed(t) ==> Known(m, Nth(t, j)) && Available(m, Nth(t, j)) > 0
  }

  lemma TakingKeepsFree(m: Machine, t: Task, k: nat, tasks: seq<Task>, t': Task)
    requires k + 1 < Needed(t) && Known(m, Nth(t, k)) && Available(m, Nth(t, k)) > 0
    requires t' == t.(phase := Trying(k + 1))
    ensures AllFree(Apply(m, Take(Nth(t, k))).(tasks := tasks), t', k + 1) <==> AllFree(m, t, k)
  {
    var m' := Apply(m, Take(Nth(t, k)));
    forall j | k < j < Needed(t)
      ensures Nth(t', j) == Nth(t, j) && Known(m'.(tasks := tasks), Nth(t, j)) == Known(m, Nth(t, j))
      ensures Known(m, Nth(t, j)) ==> Available(m'.(tasks := tasks), Nth(t, j)) == Available(m, Nth(t, j))
    {
      assert Nth(t, j) != Nth(t, k);
    }
  }

  lemma TryFails(m: Machine, i: nat, t: Task, k: nat)
    requires Inv(m) && i < |m.tasks| && t == m.tasks[i] && t.phase == Trying(k) && Provided(m, t) && WellFormed(t)
    requires Available(m, Nth(t, k)) == 0
    ensures Undisturbed(m, i).tasks == m.tasks[i := t.(phase := Missed)]
  {
    var phase := if k == 0 then Missed else Backing(k);
    UndisturbedOn(m, i, t, Silent, phase);
    if k > 0 {
      var next := m.(tasks := m.tasks[i := t.(phase := phase)]);
      GivesBack(next, i, next.tasks[i], k);
      assert m.tasks[i := t.(phase := phase)][i := t.(phase := Missed)] == m.tasks[i := t.(phase := Missed)];
    }
  }

  lemma {:induction false} TriesAll(m: Machine, i: nat, t: Task, k: nat)
    requires Inv(m) && i < |m.tasks| && t == m.tasks[i] && t.phase == Trying(k) && Provided(m, t) && WellFormed(t)
    ensures Undisturbed(m, i).tasks == m.tasks[i := t.(phase := if AllFree(m, t, k) then Running else Missed)]
    decreases Needed(t) - k
  {
    if Available(m, Nth(t, k)) == 0 {
      TryFails(m, i, t, k);
    } else {
      TryWorks(m, i, t, k);
    }
  }

  /** One permit taken, and it was not the last one. */
  lemma TakesOne(m: Machine, i: nat, t: Task, k: nat, t': Task, next: Machine)
    requires Inv(m) && i < |m.tasks| && t == m.tasks[i] && t.phase == Trying(k) && Provided(m, t) && WellFormed(t)
    requires k + 1 < Needed(t) && t' == t.(phase := Trying(k + 1)) && Available(m, Nth(t, k)) > 0
    requires next == Apply(m, Take(Nth(t, k))).(tasks := m.tasks[i := t'])
    ensures Inv(next) && Undisturbed(m, i) == Undisturbed(next, i)
    ensures Provided(next, t') && WellFormed(t')
  {
    UndisturbedOn(m, i, t, Take(Nth(t, k)), Trying(k + 1));
    assert next.tasks[i] in next.tasks;
  }

  lemma {:induction false} TryWorks(m: Machine, i: nat, t: Task, k: nat)
    requires Inv(m) && i < |m.tasks| && t == m.tasks[i] && t.phase == Trying(k) && Provided(m, t) && WellFormed(t)
    requires Available(m, Nth(t, k)) > 0
    ensures Undisturbed(m, i).tasks == m.tasks[i := t.(phase := if AllFree(m, t, k) then Running else Missed)]
    decreases Needed(t) - k, 0
  {
    if k + 1 == Needed(t) {
      UndisturbedOn(m, i, t, Take(Nth(t, k)), Running);
    } else {
      var t' := t.(phase := Trying(k + 1));
      var next := Apply(m, Take(Nth(t, k))).(tasks := m.tasks[i := t']);
      TakesOne(m, i, t, k, t', next);
      TakingKeepsFree(m, t, k, m.tasks[i := t'], t');
      TriesAll(next, i, t', k + 1);
      UpdateTwice(m.tasks, i, t', t'.(phase := if AllFree(m, t, k) then Running else Missed));
    }
  }

  lemma UpdateTwice(tasks: seq<Task>, i: nat, t: Task, u: Task)
    requires i < |tasks|
    ensures tasks[i := t][i := u] == tasks[i := u]
  {
  }

  // ---- In terms of the calls ------------------------------------------------------------

  /** Fewer calls than the limit hold each permit that a call with this tool needs. */
  predicate Room(tasks: seq<Task>, session: string, tool: string) {
    && Holders(tasks, Total) < 16 && Holders(tasks, OfSession(session)) < 4
    && (Reads(tool) ==> Holders(tasks, OfClass(Read)) < 8)
    && (Shells(tool) ==> Holders(tasks, OfClass(Shell)) < 4)
    && (Mutates(tool) ==> Holders(tasks, OfClass(Mutation)) < 2 && Holders(tasks, MutationOf(session)) < 1)
    && (Others(tool) ==> Holders(tasks, OfClass(Plugin)) < 4)
  }

  lemma RoomIsFree(m: Machine, t: Task)
    requires Inv(m) && Provided(m, t) && t.phase == Trying(0) && t.class_ == FromName(t.tool)
    ensures Room(m.tasks, t.session, t.tool) <==> AllFree(m, t, 0)
  {
    assert AllFree(m, t, 0) <==>
           (&& (t.class_ == Mutation ==> Available(m, MutationOf(t.session)) > 0) && Available(m, Total) > 0
            && Available(m, OfClass(t.class_)) > 0 && Available(m, OfSession(t.session)) > 0) by {
      if t.class_ == Mutation {
        assert Nth(t, 0) == MutationOf(t.session) && Nth(t, 1) == Total;
        assert Nth(t, 2) == OfClass(Mutation) && Nth(t, 3) == OfSession(t.session);
      } else {
        assert Nth(t, 0) == Total && Nth(t, 1) == OfClass(t.class_) && Nth(t, 2) == OfSession(t.session);
      }
    }
    assert Known(m, Total) && Known(m, OfClass(t.class_));
  }

  /** A call looks up its semaphores and changes nothing that others hold. */
  lemma Registers(m: Machine, i: nat, t: Task) returns (ready: Machine)
    requires Inv(m) && i < |m.tasks| && t == m.tasks[i] && t.phase.Arrived?
    ensures Inv(ready) && ready.tasks == m.tasks[i := t.(phase := Trying(0))]
    ensures Provided(ready, ready.tasks[i]) && Undisturbed(m, i) == Undisturbed(ready, i)
  {
    assert t in m.tasks;
    var e := Register(OfSession(t.session));
    UndisturbedOn(m, i, t, e, Registered);
    var t1 := t.(phase := Registered);
    var m1 := Apply(m, e).(tasks := m.tasks[i := t1]);
    assert t1 in m1.tasks;
    var e1 := if t.class_ == Mutation then Register(MutationOf(t.session)) else Silent;
    UndisturbedOn(m1, i, t1, e1, Trying(0));
    ready := Apply(m1, e1).(tasks := m1.tasks[i := t1.(phase := Trying(0))]);
    UpdateTwice(m.tasks, i, t1, t1.(phase := Trying(0)));
    assert ready.tasks[i] in ready.tasks;
  }

  lemma {:induction false} HoldersWhenIdle(tasks: seq<Task>, i: nat, t: Task, sem: Sem)
    requires i < |tasks| && !Holds(tasks[i], sem) && !Holds(t, sem)
    ensures Holders(tasks[i := t], sem) == Holders(tasks, sem)
  {
    HoldersUpdate(tasks, i, t, sem);
  }

  lemma RoomWhenIdle(tasks: seq<Task>, i: nat, t: Task)
    requires i < |tasks| && tasks[i].phase.Arrived? && t == tasks[i].(phase := Trying(0))
    ensures Room(tasks[i := t], t.session, t.tool) <==> Room(tasks, t.session, t.tool)
  {
    HoldersWhenIdle(tasks, i, t, Total);
    HoldersWhenIdle(tasks, i, t, OfSession(t.session));
    HoldersWhenIdle(tasks, i, t, MutationOf(t.session));
    HoldersWhenIdle(tasks, i, t, OfClass(Read));
    HoldersWhenIdle(tasks, i, t, OfClass(Mutation));
    HoldersWhenIdle(tasks, i, t, OfClass(Shell));
    HoldersWhenIdle(tasks, i, t, OfClass(Plugin));
  }

  /** Main result: a call that nobody interrupts runs at once exactly when there is room for its
      tool; otherwise it holds nothing. No other call is touched either way. */
  lemma RunsAtOnceIffRoom(m: Machine, i: nat)
    requires Inv(m) && Named(m.tasks) && i < |m.tasks| && m.tasks[i].phase.Arrived?
    ensures var t := m.tasks[i];
      Undisturbed(m, i).tasks
      == m.tasks[i := t.(phase := if Room(m.tasks, t.session, t.tool) then Running else Missed)]
  {
    var t := m.tasks[i];
    assert t in m.tasks;
    var ready := Registers(m, i, t);
    var t' := ready.tasks[i];
    RoomIsFree(ready, t');
    RoomWhenIdle(m.tasks, i, t');
    TriesAll(ready, i, t', 0);
    UpdateTwice(m.tasks, i, t', t.(phase := if AllFree(ready, t', 0) then Running else Missed));
  }

  /** A call that missed waits exactly when fewer than 64 calls are counted before it. */
  lemma WaitsIffQueueHasRoom(m: Machine, i: nat)
    requires Inv(m) && i < |m.tasks| && m.tasks[i].phase == Missed
    ensures Enabled(m, Advance(i))
    ensures Step(m, Advance(i)).tasks[i].phase
      == if QueuedTasks(m.tasks) + RejectedTasks(m.tasks) < 64 then Waiting(0) else Rejecting(m.queued + 1)
  {
    CounterSplits(m.tasks);
    EffectAllowed(m, i);
  }

  // ---- How a call ends --------------------------------------------------------------------

  ghost predicate RunsDuring(m: Machine, actions: seq<Action>, i: nat)
    requires Inv(m)
    decreases |actions|
  {
    || (i < |m.tasks| && m.tasks[i].phase.Running?)
    || (actions != [] && Enabled(m, actions[0]) &&
        (StepKeepsInv(m, actions[0]); RunsDuring(Step(m, actions[0]), actions[1..], i)))
  }

  lemma StepOfTask(m: Machine, a: Action, i: nat)
    requires Inv(m) && Enabled(m, a) && i < |Step(m, a).tasks|
    ensures i >= |m.tasks| ==> Step(m, a).tasks[i].phase.Arrived?
    ensures i < |m.tasks| && a != Advance(i) && a != TimeOut(i) ==> Step(m, a).tasks[i] == m.tasks[i]
  {
  }

  lemma {:induction false} RanMeansRunning(m: Machine, actions: seq<Action>, end: Machine, i: nat)
    requires Inv(m) && Reaches(m, actions, end) && i < |end.tasks| && end.tasks[i].phase == Finished(Ran)
    requires i < |m.tasks| ==> !m.tasks[i].phase.Releasing? && m.tasks[i].phase != Finished(Ran)
    ensures RunsDuring(m, actions, i)
    decreases |actions|
  {
    if !(i < |m.tasks| && m.tasks[i].phase.Running?) {
      StepKeepsInv(m, actions[0]);
      var m' := Step(m, actions[0]);
      if i < |m'.tasks| { StepOfTask(m, actions[0], i); }
      RanMeansRunning(m', actions[1..], end, i);
    }
  }

  lemma {:induction false} TimeoutMeansExpired(m: Machine, actions: seq<Action>, end: Machine, i: nat)
    requires Inv(m) && Reaches(m, actions, end) && i < |end.tasks| && end.tasks[i].phase == Finished(QueueWaitTimeout)
    requires i < |m.tasks| ==>
      var p := m.tasks[i].phase; !p.Expiring? && p != Leaving(false) && p != Finished(QueueWaitTimeout)
    ensures TimeOut(i) in actions
    decreases |actions|
  {
    if actions[0] != TimeOut(i) {
      StepKeepsInv(m, actions[0]);
      var m' := Step(m, actions[0]);
      if i < |m'.tasks| { StepOfTask(m, actions[0], i); }
      TimeoutMeansExpired(m', actions[1..], end, i);
    }
  }

  /** Main result: over every run a call that ends as done was running with all its permits, and a
      call that ends without them waited out its time or found the queue full. */
  lemma EndsAsItWent(actions: seq<Action>, end: Machine, i: nat)
    requires Inv(INITIAL) && Reaches(INITIAL, actions, end)
    requires i < |end.tasks| && end.tasks[i].phase.Finished?
    ensures match end.tasks[i].phase.result
      case Ran => RunsDuring(INITIAL, actions, i)
      case QueueWaitTimeout => TimeOut(i) in actions
      case QueueFull(depth) => depth > 64
  {
    RunKeepsNamed(INITIAL, actions, end);
    assert end.tasks[i] in end.tasks;
    match end.tasks[i].phase.result
    case Ran => RanMeansRunning(INITIAL, actions, end, i);
    case QueueWaitTimeout => TimeoutMeansExpired(INITIAL, actions, end, i);
    case QueueFull(_) =>
  }
}
