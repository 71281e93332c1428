/**
 The snapshot of the tool budget (crates/host-core/src/tool_budget.rs). It loads one
 counter after the other while calls go on taking and dropping permits, so every
 load is a step of its own between the steps of the calls.
 */
module ToolBudgetSnapshot {
  import opened ToolBudget
  import opened ToolBudgetRuns

  // ---- One state ----------------------------------------------------------------

  function Active(m: Machine): int { MAX_IN_FLIGHT_TOOLS - m.total }

  /** The class counts a snapshot reports, added up. */
  function ClassSum(m: Machine): int {
    (MAX_IN_FLIGHT_READS - m.readPool) + (MAX_IN_FLIGHT_MUTATIONS - m.mutationPool) +
    (MAX_IN_FLIGHT_SHELL - m.shellPool) + (MAX_IN_FLIGHT_PLUGINS - m.pluginPool)
  }

  /** Permits whose total slot is already dropped but whose class slot is not. */
  function HalfDropped(tasks: seq<Task>): nat {
    if tasks == [] then 0 else (if tasks[0].phase == Releasing(1) then 1 else 0) + HalfDropped(tasks[1..])
  }

  /** Calls that hold a total slot and not (or no longer) a class slot. */
  function BetweenTotalAndClass(tasks: seq<Task>): nat {
    if tasks == [] then 0
    else (if Holds(tasks[0], Total) && !Holds(tasks[0], OfClass(tasks[0].class_)) then 1 else 0)
         + BetweenTotalAndClass(tasks[1..])
  }

  lemma OneHolder(t: Task)
    requires WellFormed(t)
    ensures Holds(t, OfClass(t.class_)) ==> Holds(t, Total) || t.phase == Releasing(1)
    ensures t.phase == Releasing(1) ==> Holds(t, OfClass(t.class_)) && !Holds(t, Total)
    ensures forall c: ToolClass :: Holds(t, OfClass(c)) ==> c == t.class_
  {
  }

  lemma {:induction false} ClassHolders(tasks: seq<Task>)
    requires forall t :: t in tasks ==> WellFormed(t)
    ensures Holders(tasks, OfClass(Read)) + Holders(tasks, OfClass(Mutation)) +
            Holders(tasks, OfClass(Shell)) + Holders(tasks, OfClass(Plugin)) + BetweenTotalAndClass(tasks)
      == Holders(tasks, Total) + HalfDropped(tasks)
  {
    if tasks != [] {
      ClassHolders(tasks[1..]);
      OneHolder(tasks[0]);
    }
  }

  /** A snapshot that no call interrupts: its class counts exceed its active count
      exactly when more permits are half dropped than are half taken. */
  lemma FrozenSnapshotAddsUp(m: Machine)
    requires Inv(m)
    ensures 0 <= Active(m) <= MAX_IN_FLIGHT_TOOLS
    ensures ClassSum(m) + BetweenTotalAndClass(m.tasks) == Active(m) + HalfDropped(m.tasks)
    ensures ClassSum(m) <= Active(m) <==> HalfDropped(m.tasks) <= BetweenTotalAndClass(m.tasks)
  {
    ClassHolders(m.tasks);
    assert Known(m, Total) && Known(m, OfClass(Read)) && Known(m, OfClass(Mutation));
    assert Known(m, OfClass(Shell)) && Known(m, OfClass(Plugin));
  }

  // ---- Loads between the steps of the calls ---------------------------------------

  datatype Counter = InFlight | InQueue | InUse(class_: ToolClass)

  /** The order in which a snapshot loads them. */
  const LOADS := [InFlight, InQueue, InUse(Shell), InUse(Read), InUse(Mutation), InUse(Plugin)]

  function Place(c: ToolClass): (k: nat)
    ensures k < |LOADS| && LOADS[k] == InUse(c)
  {
    match c
    case Shell => 2
    case Read => 3
    case Mutation => 4
    case Plugin => 5
  }

  function Loaded(m: Machine, counter: Counter): int {
    match counter
    case InFlight => Active(m)
    case InQueue => m.queued
    case InUse(c) => Capacity(OfClass(c)) - Available(m, OfClass(c))
  }

  /** Every load is the number of calls that hold such a permit, or are counted, at that moment. */
  lemma LoadsCountHolders(m: Machine, c: ToolClass)
    requires Inv(m)
    ensures Loaded(m, InFlight) == Holders(m.tasks, Total)
    ensures Loaded(m, InUse(c)) == Holders(m.tasks, OfClass(c))
    ensures Loaded(m, InQueue) == CountedTasks(m.tasks)
  {
    assert Known(m, Total) && Known(m, OfClass(c));
  }

  /** The machine, and what a snapshot in progress has loaded so far. */
  datatype Watched = Watched(m: Machine, seen: seq<int>)

  datatype Event = Call(action: Action) | Load

  ghost predicate CanHappen(w: Watched, e: Event)
    requires Inv(w.m)
  {
    match e
    case Call(a) => Enabled(w.m, a)
    case Load => |w.seen| < |LOADS|
  }

  ghost function After(w: Watched, e: Event): (w': Watched)
    requires Inv(w.m) && CanHappen(w, e)
    ensures Inv(w'.m)
  {
    match e
    case Call(a) => StepKeepsInv(w.m, a); w.(m := Step(w.m, a))
    case Load => w.(seen := w.seen + [Loaded(w.m, LOADS[|w.seen|])])
  }

  /** The state after a run, if every event could happen. */
  ghost predicate Leads(w: Watched, events: seq<Event>, end: Watched)
    requires Inv(w.m)
    decreases |events|
  {
    if events == [] then w == end
    else CanHappen(w, events[0]) && Leads(After(w, events[0]), events[1..], end)
  }

  predicate Unread(seen: seq<int>, sem: Sem) {
    sem.OfClass? && |seen| <= Place(sem.class_)
  }

  /** Does the event take, or drop, a permit of a class that is not loaded yet? */
  ghost function NetTake(w: Watched, e: Event): int
    requires Inv(w.m) && CanHappen(w, e)
  {
    if e.Load? || !e.action.Advance? then 0
    else
      var t := w.m.tasks[e.action.i];
      var effect := NextStep(t, Free(w.m, t), w.m.queued).0;
      if effect.Take? && Unread(w.seen, effect.sem) then 1
      else if effect.Drop? && Unread(w.seen, effect.sem) then -1
      else 0
  }

  /** Class permits taken less class permits dropped, each before its class is loaded. */
  ghost function NetTakes(w: Watched, events: seq<Event>): int
    requires Inv(w.m)
    decreases |events|
  {
    if events == [] || !CanHappen(w, events[0]) then 0
    else NetTake(w, events[0]) + NetTakes(After(w, events[0]), events[1..])
  }

  /** What the snapshot has loaded for a class, or would load now. */
  function Count(w: Watched, c: ToolClass): int {
    if Place(c) < |w.seen| then w.seen[Place(c)] else Loaded(w.m, InUse(c))
  }

  function Counts(w: Watched): int {
    Count(w, Read) + Count(w, Mutation) + Count(w, Shell) + Count(w, Plugin)
  }

  lemma CallCounts(m: Machine, a: Action, c: ToolClass)
    requires Inv(m) && Enabled(m, a)
    ensures !a.Advance? ==> Loaded(Step(m, a), InUse(c)) == Loaded(m, InUse(c))
    ensures a.Advance? ==>
      var e := NextStep(m.tasks[a.i], Free(m, m.tasks[a.i]), m.queued).0;
      Loaded(Step(m, a), InUse(c)) == Loaded(m, InUse(c))
        + (if e == Take(OfClass(c)) then 1 else 0) - (if e == Drop(OfClass(c)) then 1 else 0)
  {
    if a.Advance? {
      var t := m.tasks[a.i];
      EffectAllowed(m, a.i);
      EffectOn(m, NextStep(t, Free(m, t), m.queued).0, OfClass(c));
    }
  }

  lemma EventCounts(w: Watched, e: Event)
    requires Inv(w.m) && CanHappen(w, e)
    ensures Counts(After(w, e)) == Counts(w) + NetTake(w, e)
  {
    if e.Call? {
      CallCounts(w.m, e.action, Read);
      CallCounts(w.m, e.action, Mutation);
      CallCounts(w.m, e.action, Shell);
      CallCounts(w.m, e.action, Plugin);
    } else {
      var k := |w.seen|;
      assert forall c: ToolClass :: Place(c) == k ==> LOADS[k] == InUse(c);
    }
  }

  lemma {:induction false} RunCounts(w: Watched, events: seq<Event>, end: Watched)
    requires Inv(w.m) && Leads(w, events, end) && |w.seen| > 0
    ensures Counts(end) == Counts(w) + NetTakes(w, events)
    ensures |end.seen| > 0 && end.seen[0] == w.seen[0]
    decreases |events|
  {
    if events != [] {
      EventCounts(w, events[0]);
      RunCounts(After(w, events[0]), events[1..], end);
    }
  }

  /** The class counts of a finished snapshot, added up. */
  function Reported(seen: seq<int>): int
    requires |seen| == |LOADS|
  {
    seen[Place(Read)] + seen[Place(Mutation)] + seen[Place(Shell)] + seen[Place(Plugin)]
  }

  /** Main result: a snapshot that begins in `m`, with any steps of any calls between
      its loads. Its class counts differ from its active count by the permits half
      dropped and half taken when it began, and by the class permits taken and dropped
      since, each counted until its class was loaded. */
  lemma SnapshotAddsUp(m: Machine, events: seq<Event>, end: Watched)
    requires Inv(m) && Leads(Watched(m, [Active(m)]), events, end) && |end.seen| == |LOADS|
    ensures var net := NetTakes(Watched(m, [Active(m)]), events);
      && Reported(end.seen) - end.seen[0] == HalfDropped(m.tasks) - BetweenTotalAndClass(m.tasks) + net
      && (Reported(end.seen) > end.seen[0] <==> HalfDropped(m.tasks) + net > BetweenTotalAndClass(m.tasks))
  {
    RunCounts(Watched(m, [Active(m)]), events, end);
    FrozenSnapshotAddsUp(m);
  }

  predicate InRange(seen: seq<int>) {
    && (|seen| > 0 ==> 0 <= seen[0] <= MAX_IN_FLIGHT_TOOLS)
    && forall c: ToolClass :: Place(c) < |seen| ==> 0 <= seen[Place(c)] <= Capacity(OfClass(c))
  }

  /** No subtraction of a snapshot runs below zero or past its maximum. */
  lemma {:induction false} LoadsStayInRange(w: Watched, events: seq<Event>, end: Watched)
    requires Inv(w.m) && Leads(w, events, end) && InRange(w.seen)
    ensures InRange(end.seen)
    decreases |events|
  {
    if events != [] {
      assert Known(w.m, Total) && forall c :: Known(w.m, OfClass(c));
      LoadsStayInRange(After(w, events[0]), events[1..], end);
    }
  }

  // ---- It does happen ---------------------------------------------------------------

  /** One shell call from its arrival to the first drop of its permit. */
  function ShellCall(k: nat): Machine
    requires k <= 6
  {
    var phases := [Arrived, Registered, Trying(0), Trying(1), Trying(2), Running, Releasing(1)];
    Machine(if 3 <= k <= 5 then 15 else 16, 8, 2, if k >= 4 then 3 else 4, 4,
            if k == 0 then map[] else map["s" := if k >= 5 then 3 else 4], map[], 0,
            [Task("s", "Bash", Shell, phases[k])])
  }

  lemma ShellCallStep(k: nat)
    requires k < 6 && Inv(ShellCall(k))
    ensures Enabled(ShellCall(k), Advance(0)) && Step(ShellCall(k), Advance(0)) == ShellCall(k + 1)
  {
  }

  function Steps(n: nat): seq<Action> {
    seq(n, i => Advance(0))
  }

  lemma {:induction false} ShellCallReaches(k: nat, n: nat)
    requires k <= n <= 6 && Inv(ShellCall(k))
    ensures Inv(ShellCall(n)) && Reaches(ShellCall(k), Steps(n - k), ShellCall(n))
    decreases n - k
  {
    if k < n {
      ShellCallStep(k);
      StepKeepsInv(ShellCall(k), Advance(0));
      ShellCallReaches(k + 1, n);
      assert Steps(n - k)[1..] == Steps(n - (k + 1));
    }
  }

  lemma ShellCallArrives()
    ensures Inv(INITIAL) && Step(INITIAL, Arrive("s", "Bash")) == ShellCall(0) && Inv(ShellCall(0))
  {
    InitHolds();
    StepKeepsInv(INITIAL, Arrive("s", "Bash"));
  }

  /** It does happen: with the permit half dropped, nothing is active and one shell slot is in use. */
  lemma ClassesCanExceedActive()
    ensures Reaches(INITIAL, [Arrive("s", "Bash")] + Steps(6), ShellCall(6))
    ensures Active(ShellCall(6)) == 0 && ClassSum(ShellCall(6)) == 1
  {
    ShellCallArrives();
    ShellCallReaches(0, 6);
    assert ([Arrive("s", "Bash")] + Steps(6))[1..] == Steps(6);
  }

  function Calls(actions: seq<Action>): seq<Event> {
    seq(|actions|, i requires 0 <= i < |actions| => Call(actions[i]))
  }

  /** A run of the machine is one of a snapshot in progress that does not move. */
  lemma {:induction false} CallsLead(
    m: Machine, actions: seq<Action>, later: Machine, seen: seq<int>, events: seq<Event>, end: Watched)
    requires Inv(m) && Inv(later) && Reaches(m, actions, later) && Leads(Watched(later, seen), events, end)
    ensures Leads(Watched(m, seen), Calls(actions) + events, end)
    decreases |actions|
  {
    if actions == [] {
      assert Calls(actions) + events == events;
    } else {
      assert (Calls(actions) + events)[1..] == Calls(actions[1..]) + events;
      StepKeepsInv(m, actions[0]);
      CallsLead(Step(m, actions[0]), actions[1..], later, seen, events, end);
    }
  }

  function Loads(n: nat): seq<Event> {
    seq(n, i => Load)
  }

  /** The remaining loads of a snapshot that nothing interrupts. */
  lemma {:induction false} LoadsLead(m: Machine, seen: seq<int>, rest: seq<int>)
    requires Inv(m) && |seen| + |rest| == |LOADS|
    requires forall k :: 0 <= k < |rest| ==> rest[k] == Loaded(m, LOADS[|seen| + k])
    ensures Leads(Watched(m, seen), Loads(|rest|), Watched(m, seen + rest))
    decreases |rest|
  {
    if rest == [] {
      assert seen + rest == seen;
    } else {
      assert Loads(|rest|)[1..] == Loads(|rest| - 1);
      assert After(Watched(m, seen), Load) == Watched(m, seen + [rest[0]]);
      assert (seen + [rest[0]]) + rest[1..] == seen + rest;
      LoadsLead(m, seen + [rest[0]], rest[1..]);
    }
  }

  lemma CallsThenLoads(m: Machine, actions: seq<Action>, later: Machine, seen: seq<int>, rest: seq<int>)
    requires Inv(m) && Inv(later) && Reaches(m, actions, later) && |seen| + |rest| == |LOADS|
    requires forall k :: 0 <= k < |rest| ==> rest[k] == Loaded(later, LOADS[|seen| + k])
    ensures Leads(Watched(m, seen), Calls(actions) + Loads(|rest|), Watched(later, seen + rest))
  {
    LoadsLead(later, seen, rest);
    CallsLead(m, actions, later, seen, Loads(|rest|), Watched(later, seen + rest));
  }

  /** No permit is half dropped before the call ends. */
  lemma ShellCallCounts(k: nat)
    requires k <= 5
    ensures HalfDropped(ShellCall(k).tasks) == 0 && Active(ShellCall(0)) == 0
    ensures forall i :: 0 <= i < 5 ==> [0, 1, 0, 0, 0][i] == Loaded(ShellCall(5), LOADS[1 + i])
  {
  }

  /** It happens without a half dropped permit, too: nothing is active when the snapshot
      begins, and one call takes its shell slot before the shell count is loaded. */
  lemma InterleavedCallExceedsActive()
    ensures Inv(ShellCall(0)) && Active(ShellCall(0)) == 0
    ensures forall k :: 0 <= k <= 5 ==> HalfDropped(ShellCall(k).tasks) == 0
    ensures Leads(Watched(ShellCall(0), [0]), Calls(Steps(5)) + Loads(5), Watched(ShellCall(5), [0, 0, 1, 0, 0, 0]))
  {
    forall k | 0 <= k <= 5
      ensures HalfDropped(ShellCall(k).tasks) == 0
    {
      ShellCallCounts(k);
    }
    ShellCallCounts(5);
    ShellCallArrives();
    ShellCallReaches(0, 5);
    assert [0] + [0, 1, 0, 0, 0] == [0, 0, 1, 0, 0, 0];
    CallsThenLoads(ShellCall(0), Steps(5), ShellCall(5), [0], [0, 1, 0, 0, 0]);
  }
}
