/**
 Tool admission (crates/host-core/src/tool_budget.rs) as a state machine in
 which every semaphore take, every permit drop and every counter update is a
 step of its own, so that any number of `acquire` calls interleave freely.
 */
module ToolBudget {

  const MAX_IN_FLIGHT_TOOLS: nat := 16
  const MAX_IN_FLIGHT_SHELL: nat := 4
  const MAX_IN_FLIGHT_READS: nat := 8
  const MAX_IN_FLIGHT_MUTATIONS: nat := 2
  const MAX_IN_FLIGHT_MUTATIONS_PER_SESSION: nat := 1
  const MAX_IN_FLIGHT_PLUGINS: nat := 4
  const MAX_IN_FLIGHT_PER_SESSION: nat := 4
  const MAX_QUEUED_TOOLS: nat := 64

  datatype ToolClass = Read | Mutation | Shell | Plugin

  function FromName(tool: string): ToolClass {
    if tool in {"Read", "Glob", "Grep", "ProcessRead"} then Read
    else if tool in {"Write", "Edit"} then Mutation
    else if tool in {"Bash", "ProcessStart"} then Shell
    else Plugin
  }

  /** The semaphores; those of a session are created on first use. */
  datatype Sem = Total | OfClass(class_: ToolClass) | OfSession(session: string) | MutationOf(session: string)

  function Capacity(sem: Sem): nat {
    match sem
    case Total => MAX_IN_FLIGHT_TOOLS
    case OfClass(Read) => MAX_IN_FLIGHT_READS
    case OfClass(Mutation) => MAX_IN_FLIGHT_MUTATIONS
    case OfClass(Shell) => MAX_IN_FLIGHT_SHELL
    case OfClass(Plugin) => MAX_IN_FLIGHT_PLUGINS
    case OfSession(_) => MAX_IN_FLIGHT_PER_SESSION
    case MutationOf(_) => MAX_IN_FLIGHT_MUTATIONS_PER_SESSION
  }

  datatype Result = Ran | QueueFull(depth: nat) | QueueWaitTimeout

  /** Where one `acquire` call, and then its permit, stands. */
  datatype Phase =
    | Arrived                      // before the session semaphore is looked up
    | Registered                   // before the mutation semaphore is looked up
    | Trying(held: nat)            // fast path, that many permits taken
    | Backing(held: nat)           // fast path failed, giving them back
    | Missed                       // fast path failed, nothing held
    | Rejecting(depth: nat)        // counted, found the queue full
    | Waiting(held: nat)           // queued, that many permits taken
    | Expiring(held: nat)          // timed out, giving them back
    | Leaving(granted: bool)       // still counted, wait over
    | Running
    | Releasing(dropped: nat)      // permit being dropped field by field
    | Finished(result: Result)

  /** One call: its session, the tool's name, the class of that name, and how far it is. */
  datatype Task = Task(session: string, tool: string, class_: ToolClass, phase: Phase)

  /** How many permits a task needs. */
  function Needed(t: Task): nat {
    if t.class_ == Mutation then 4 else 3
  }

  predicate Needs(t: Task, sem: Sem) {
    sem == Total || sem == OfClass(t.class_) || sem == OfSession(t.session) ||
    (t.class_ == Mutation && sem == MutationOf(t.session))
  }

  /** The k-th permit both paths take: the session's mutation slot first. */
  function Nth(t: Task, k: nat): (sem: Sem)
    requires k < Needed(t)
    ensures Needs(t, sem) && TakeRank(t, sem) == k
  {
    var j := if t.class_ == Mutation then k else k + 1;
    if j == 0 then MutationOf(t.session)
    else if j == 1 then Total
    else if j == 2 then OfClass(t.class_)
    else OfSession(t.session)
  }

  /** How many permits are taken before this one. */
  function TakeRank(t: Task, sem: Sem): nat {
    (match sem
     case MutationOf(_) => 0
     case Total => 1
     case OfClass(_) => 2
     case OfSession(_) => 3) - (if t.class_ == Mutation || sem.MutationOf? then 0 else 1)
  }

  /** The j-th field of a permit to be dropped: the session's mutation slot last. */
  function NthDropped(t: Task, j: nat): (sem: Sem)
    requires j < Needed(t)
    ensures Needs(t, sem) && DropRank(sem) == j
  {
    if j == 0 then Total
    else if j == 1 then OfClass(t.class_)
    else if j == 2 then OfSession(t.session)
    else MutationOf(t.session)
  }

  /** How many fields of a permit are dropped before this one. */
  function DropRank(sem: Sem): nat {
    match sem
    case Total => 0
    case OfClass(_) => 1
    case OfSession(_) => 2
    case MutationOf(_) => 3
  }

  predicate WellFormed(t: Task) {
    match t.phase
    case Trying(k) => k < Needed(t)
    case Backing(k) => 0 < k < Needed(t)
    case Waiting(k) => k < Needed(t)
    case Expiring(k) => 0 < k < Needed(t)
    case Releasing(j) => 0 < j < Needed(t)
    case Rejecting(depth) => depth > MAX_QUEUED_TOOLS
    case _ => true
  }

  /** The permits a task holds. */
  predicate Holds(t: Task, sem: Sem) {
    Needs(t, sem) &&
    match t.phase
    case Trying(k) => TakeRank(t, sem) < k
    case Backing(k) => TakeRank(t, sem) < k
    case Waiting(k) => TakeRank(t, sem) < k
    case Expiring(k) => TakeRank(t, sem) < k
    case Leaving(granted) => granted
    case Running => true
    case Releasing(j) => j <= DropRank(sem)
    case _ => false
  }

  /** The task is included in the queue counter. */
  predicate Counted(t: Task) {
    t.phase.Rejecting? || Queued(t)
  }

  /** The task was admitted to the queue and has not left it. */
  predicate Queued(t: Task) {
    t.phase.Waiting? || t.phase.Expiring? || t.phase.Leaving?
  }

  // ---- The machine ----------------------------------------------------------

  datatype Machine = Machine(
    total: nat, readPool: nat, mutationPool: nat, shellPool: nat, pluginPool: nat,
    sessions: map<string, nat>, sessionMutations: map<string, nat>,
    queued: nat, tasks: seq<Task>)

  const INITIAL := Machine(
    MAX_IN_FLIGHT_TOOLS, MAX_IN_FLIGHT_READS, MAX_IN_FLIGHT_MUTATIONS, MAX_IN_FLIGHT_SHELL,
    MAX_IN_FLIGHT_PLUGINS, map[], map[], 0, [])

  predicate Known(m: Machine, sem: Sem) {
    match sem
    case OfSession(s) => s in m.sessions
    case MutationOf(s) => s in m.sessionMutations
    case _ => true
  }

  function Available(m: Machine, sem: Sem): nat
    requires Known(m, sem)
  {
    match sem
    case Total => m.total
    case OfClass(Read) => m.readPool
    case OfClass(Mutation) => m.mutationPool
    case OfClass(Shell) => m.shellPool
    case OfClass(Plugin) => m.pluginPool
    case OfSession(s) => m.sessions[s]
    case MutationOf(s) => m.sessionMutations[s]
  }

  function SetAvailable(m: Machine, sem: Sem, n: nat): (m': Machine)
    ensures Known(m', sem) && Available(m', sem) == n
    ensures forall other :: other != sem ==> Known(m', other) == Known(m, other)
    ensures forall other :: other != sem && Known(m, other) ==> Available(m', other) == Available(m, other)
    ensures m'.queued == m.queued && m'.tasks == m.tasks
  {
    match sem
    case Total => m.(total := n)
    case OfClass(Read) => m.(readPool := n)
    case OfClass(Mutation) => m.(mutationPool := n)
    case OfClass(Shell) => m.(shellPool := n)
    case OfClass(Plugin) => m.(pluginPool := n)
    case OfSession(s) => m.(sessions := m.sessions[s := n])
    case MutationOf(s) => m.(sessionMutations := m.sessionMutations[s := n])
  }

  /** What one step does to the shared state. */
  datatype Effect = Register(sem: Sem) | Take(sem: Sem) | Drop(sem: Sem) | FetchAdd | FetchSub | Silent

  /** The semaphore the task tries to take next. */
  function Wanted(t: Task): Sem
    requires WellFormed(t) && (t.phase.Trying? || t.phase.Waiting?)
  {
    Nth(t, t.phase.held)
  }

  /** The next step of a task: its effect and its phase afterwards. `free` says
      whether the wanted semaphore has a permit, `queued` is the counter before
      the step. A waiting task without a free permit does not move. */
  function NextStep(t: Task, free: bool, queued: nat): (Effect, Phase)
    requires WellFormed(t)
  {
    var n := Needed(t);
    match t.phase
    case Arrived => (Register(OfSession(t.session)), Registered)
    case Registered =>
      (if t.class_ == Mutation then Register(MutationOf(t.session)) else Silent, Trying(0))
    case Trying(k) =>
      if free then (Take(Nth(t, k)), if k + 1 == n then Running else Trying(k + 1))
      else (Silent, if k == 0 then Missed else Backing(k))
    case Backing(k) => (Drop(Nth(t, k - 1)), if k == 1 then Missed else Backing(k - 1))
    case Missed =>
      (FetchAdd, if queued + 1 > MAX_QUEUED_TOOLS then Rejecting(queued + 1) else Waiting(0))
    case Rejecting(depth) => (FetchSub, Finished(QueueFull(depth)))
    case Waiting(k) =>
      if free then (Take(Nth(t, k)), if k + 1 == n then Leaving(true) else Waiting(k + 1))
      else (Silent, t.phase)
    case Expiring(k) => (Drop(Nth(t, k - 1)), if k == 1 then Leaving(false) else Expiring(k - 1))
    case Leaving(granted) => (FetchSub, if granted then Running else Finished(QueueWaitTimeout))
    case Running => (Drop(NthDropped(t, 0)), Releasing(1))
    case Releasing(j) => (Drop(NthDropped(t, j)), if j + 1 == n then Finished(Ran) else Releasing(j + 1))
    case Finished(_) => (Silent, t.phase)
  }

  predicate Allowed(m: Machine, e: Effect) {
    match e
    case Take(sem) => Known(m, sem) && Available(m, sem) > 0
    case Drop(sem) => Known(m, sem)
    case FetchSub => m.queued > 0
    case _ => true
  }

  function Apply(m: Machine, e: Effect): Machine
    requires Allowed(m, e)
  {
    match e
    case Register(sem) => if Known(m, sem) then m else SetAvailable(m, sem, Capacity(sem))
    case Take(sem) => SetAvailable(m, sem, Available(m, sem) - 1)
    case Drop(sem) => SetAvailable(m, sem, Available(m, sem) + 1)
    case FetchAdd => m.(queued := m.queued + 1)
    case FetchSub => m.(queued := m.queued - 1)
    case Silent => m
  }

  // ---- The invariant --------------------------------------------------------

  function Holders(tasks: seq<Task>, sem: Sem): nat {
    if tasks == [] then 0
    else (if Holds(tasks[0], sem) then 1 else 0) + Holders(tasks[1..], sem)
  }

  function CountedTasks(tasks: seq<Task>): nat {
    if tasks == [] then 0 else (if Counted(tasks[0]) then 1 else 0) + CountedTasks(tasks[1..])
  }

  function QueuedTasks(tasks: seq<Task>): nat {
    if tasks == [] then 0 else (if Queued(tasks[0]) then 1 else 0) + QueuedTasks(tasks[1..])
  }

  /** The session semaphores a task may still touch exist. */
  predicate Provided(m: Machine, t: Task) {
    t.phase.Arrived? || t.phase.Finished? ||
    (Known(m, OfSession(t.session)) &&
     (t.class_ == Mutation && !t.phase.Registered? ==> Known(m, MutationOf(t.session))))
  }

  ghost predicate Inv(m: Machine) {
    && (forall t :: t in m.tasks ==> WellFormed(t) && Provided(m, t))
    // Every permit is either available or held, for every semaphore.
    && (forall sem :: Known(m, sem) ==> Available(m, sem) + Holders(m.tasks, sem) == Capacity(sem))
    // The counter is exact, and the queue proper is bounded.
    && m.queued == CountedTasks(m.tasks)
    && QueuedTasks(m.tasks) <= MAX_QUEUED_TOOLS
  }

  // ---- Steps ------------------------------------------------------------------

  datatype Action = Arrive(session: string, tool: string) | Advance(i: nat) | TimeOut(i: nat)

  predicate Blocked(m: Machine, t: Task)
    requires WellFormed(t) && Provided(m, t)
  {
    t.phase.Waiting? && Available(m, Wanted(t)) == 0
  }

  ghost predicate Enabled(m: Machine, a: Action)
    requires Inv(m)
  {
    match a
    case Arrive(_, _) => true
    case Advance(i) => i < |m.tasks| && !m.tasks[i].phase.Finished? && !Blocked(m, m.tasks[i])
    case TimeOut(i) => i < |m.tasks| && m.tasks[i].phase.Waiting?
  }

  predicate Free(m: Machine, t: Task)
    requires WellFormed(t) && Provided(m, t)
  {
    (t.phase.Trying? || t.phase.Waiting?) && Available(m, Wanted(t)) > 0
  }

  ghost function Step(m: Machine, a: Action): Machine
    requires Inv(m) && Enabled(m, a)
  {
    match a
    case Arrive(session, tool) => m.(tasks := m.tasks + [Task(session, tool, FromName(tool), Arrived)])
    case Advance(i) =>
      var t := m.tasks[i];
      var (e, phase) := NextStep(t, Free(m, t), m.queued);
      EffectAllowed(m, i);
      var m' := Apply(m, e);
      m'.(tasks := m.tasks[i := t.(phase := phase)])
    case TimeOut(i) =>
      var t := m.tasks[i];
      m.(tasks := m.tasks[i := t.(phase := if t.phase.held == 0 then Leaving(false) else Expiring(t.phase.held))])
  }

  lemma {:induction false} HoldersUpdate(tasks: seq<Task>, i: nat, t: Task, sem: Sem)
    requires i < |tasks|
    ensures Holders(tasks[i := t], sem) + (if Holds(tasks[i], sem) then 1 else 0)
      == Holders(tasks, sem) + (if Holds(t, sem) then 1 else 0)
  {
    if i > 0 {
      assert tasks[i := t][1..] == tasks[1..][i - 1 := t];
      HoldersUpdate(tasks[1..], i - 1, t, sem);
    } else {
      assert tasks[i := t][1..] == tasks[1..];
    }
  }

  lemma {:induction false} CountsUpdate(tasks: seq<Task>, i: nat, t: Task)
    requires i < |tasks|
    ensures CountedTasks(tasks[i := t]) + (if Counted(tasks[i]) then 1 else 0)
      == CountedTasks(tasks) + (if Counted(t) then 1 else 0)
    ensures QueuedTasks(tasks[i := t]) + (if Queued(tasks[i]) then 1 else 0)
      == QueuedTasks(tasks) + (if Queued(t) then 1 else 0)
    ensures QueuedTasks(tasks) <= CountedTasks(tasks)
    ensures Counted(tasks[i]) ==> CountedTasks(tasks) > 0
  {
    if i > 0 {
      assert tasks[i := t][1..] == tasks[1..][i - 1 := t];
      CountsUpdate(tasks[1..], i - 1, t);
    } else {
      assert tasks[i := t][1..] == tasks[1..];
      QueuedAreCounted(tasks[1..]);
    }
  }

  lemma {:induction false} QueuedAreCounted(tasks: seq<Task>)
    ensures QueuedTasks(tasks) <= CountedTasks(tasks)
  {
    if tasks != [] {
      QueuedAreCounted(tasks[1..]);
    }
  }

  /** A step takes what the task wants, drops what it holds, and keeps it well-formed. */
  lemma StepIsSound(t: Task, free: bool, queued: nat)
    requires WellFormed(t)
    ensures var (e, phase) := NextStep(t, free, queued);
      && WellFormed(t.(phase := phase))
      && (e.Take? ==> !Holds(t, e.sem) && free && (t.phase.Trying? || t.phase.Waiting?) && e.sem == Wanted(t))
      && (e.Drop? ==> Holds(t, e.sem))
  {
  }

  lemma StepMatchesHolding(t: Task, free: bool, queued: nat, sem: Sem)
    requires WellFormed(t)
    ensures var (e, phase) := NextStep(t, free, queued);
      Holds(t.(phase := phase), sem) <==> (Holds(t, sem) && e != Drop(sem)) || e == Take(sem)
  {
  }

  /** The effect of a step on the semaphores is exactly the change in what the task holds. */
  lemma StepMatchesHoldings(t: Task, free: bool, queued: nat)
    requires WellFormed(t)
    ensures var (e, phase) := NextStep(t, free, queued); var t' := t.(phase := phase);
      && WellFormed(t')
      && (forall sem :: Holds(t', sem) <==> (Holds(t, sem) && e != Drop(sem)) || e == Take(sem))
      && (e.Take? ==> !Holds(t, e.sem) && free && (t.phase.Trying? || t.phase.Waiting?) && e.sem == Wanted(t))
      && (e.Drop? ==> Holds(t, e.sem))
  {
    StepIsSound(t, free, queued);
    forall sem
      ensures var (e, phase) := NextStep(t, free, queued);
        Holds(t.(phase := phase), sem) <==> (Holds(t, sem) && e != Drop(sem)) || e == Take(sem)
    {
      StepMatchesHolding(t, free, queued, sem);
    }
  }

  /** Its effect on the counter is exactly the change in whether the task is counted. */
  lemma StepMatchesCounter(t: Task, free: bool, queued: nat)
    requires WellFormed(t)
    ensures var (e, phase) := NextStep(t, free, queued); var t' := t.(phase := phase);
      && (Counted(t') <==> (Counted(t) && e != FetchSub) || e == FetchAdd)
      && (e == FetchAdd ==> !Counted(t) && (Queued(t') <==> queued + 1 <= MAX_QUEUED_TOOLS))
      && (e == FetchSub ==> Counted(t))
      && (e != FetchAdd ==> (Queued(t') ==> Queued(t)))
  {
  }

  lemma EffectAllowed(m: Machine, i: nat)
    requires Inv(m) && Enabled(m, Advance(i))
    ensures var t := m.tasks[i]; Allowed(m, NextStep(t, Free(m, t), m.queued).0)
  {
    var t := m.tasks[i];
    StepMatchesHoldings(t, Free(m, t), m.queued);
    StepMatchesCounter(t, Free(m, t), m.queued);
    CountsUpdate(m.tasks, i, t);
  }
}
