/**
 The shared object behind the tool budget (crates/host-core/src/tool_budget.rs):
 its semaphores, session maps and atomic counter, with one method per atomic
 action of the calls in flight. Each method is a step of the machine.
 */
module ToolBudgetShared {
  import opened ToolBudget
  import opened ToolBudgetSnapshot

  class Budget {
    var total: nat
    var readPool: nat
    var mutationPool: nat
    var shellPool: nat
    var pluginPool: nat
    var sessions: map<string, nat>
    var sessionMutations: map<string, nat>
    var queued: nat
    var tasks: seq<Task>

    function State(): Machine
      reads this
    {
      Machine(total, readPool, mutationPool, shellPool, pluginPool, sessions, sessionMutations, queued, tasks)
    }

    constructor ()
      ensures State() == INITIAL
    {
      total, readPool, mutationPool := MAX_IN_FLIGHT_TOOLS, MAX_IN_FLIGHT_READS, MAX_IN_FLIGHT_MUTATIONS;
      shellPool, pluginPool := MAX_IN_FLIGHT_SHELL, MAX_IN_FLIGHT_PLUGINS;
      sessions, sessionMutations, queued, tasks := map[], map[], 0, [];
    }

    /** A call of `acquire` begins. */
    method Enter(session: string, tool: string) returns (i: nat)
      requires Inv(State())
      modifies this
      ensures i == |old(tasks)| && State() == Step(old(State()), Arrive(session, tool))
    {
      i := |tasks|;
      tasks := tasks + [Task(session, tool, FromName(tool), Arrived)];
    }

    method SessionSemaphore(session: string)
      modifies this`sessions
      ensures State() == Apply(old(State()), Register(OfSession(session)))
    {
      if session !in sessions {
        sessions := sessions[session := MAX_IN_FLIGHT_PER_SESSION];
      }
    }

    method SessionMutationSemaphore(session: string)
      modifies this`sessionMutations
      ensures State() == Apply(old(State()), Register(MutationOf(session)))
    {
      if session !in sessionMutations {
        sessionMutations := sessionMutations[session := MAX_IN_FLIGHT_MUTATIONS_PER_SESSION];
      }
    }

    method Put(sem: Sem, n: nat)
      modifies this`total, this`readPool, this`mutationPool, this`shellPool, this`pluginPool,
        this`sessions, this`sessionMutations
      ensures State() == SetAvailable(old(State()), sem, n)
    {
      match sem
      case Total => total := n;
      case OfClass(Read) => readPool := n;
      case OfClass(Mutation) => mutationPool := n;
      case OfClass(Shell) => shellPool := n;
      case OfClass(Plugin) => pluginPool := n;
      case OfSession(s) => sessions := sessions[s := n];
      case MutationOf(s) => sessionMutations := sessionMutations[s := n];
    }

    /** Takes a permit if there is one. */
    method TryTake(sem: Sem) returns (ok: bool)
      requires Known(State(), sem)
      modifies this`total, this`readPool, this`mutationPool, this`shellPool, this`pluginPool,
        this`sessions, this`sessionMutations
      ensures ok <==> Available(old(State()), sem) > 0
      ensures State() == if ok then Apply(old(State()), Take(sem)) else old(State())
    {
      var n := Available(State(), sem);
      ok := n > 0;
      if ok { Put(sem, n - 1); }
    }

    method Give(sem: Sem)
      requires Known(State(), sem)
      modifies this`total, this`readPool, this`mutationPool, this`shellPool, this`pluginPool,
        this`sessions, this`sessionMutations
      ensures State() == Apply(old(State()), Drop(sem))
    {
      var n := Available(State(), sem);
      Put(sem, n + 1);
    }

    /** The next atomic action of a call on the shared state, and where it leaves the call. */
    method Act(t: Task) returns (phase: Phase)
      requires WellFormed(t) && Provided(State(), t) && !Blocked(State(), t)
      requires Allowed(State(), NextStep(t, Free(State(), t), queued).0)
      modifies this
      ensures var (e, p) := old(NextStep(t, Free(State(), t), queued));
        phase == p && State() == Apply(old(State()), e)
    {
      phase := t.phase;
      var last := if t.class_ == Mutation then 3 else 2;
      match t.phase {
        case Arrived =>
          SessionSemaphore(t.session);
          phase := Registered;
        case Registered =>
          if t.class_ == Mutation { SessionMutationSemaphore(t.session); }
          phase := Trying(0);
        case Trying(k) =>
          var ok := TryTake(Nth(t, k));
          phase := if ok then (if k == last then Running else Trying(k + 1))
                   else if k == 0 then Missed else Backing(k);
        case Backing(k) =>
          Give(Nth(t, k - 1));
          phase := if k == 1 then Missed else Backing(k - 1);
        case Missed =>
          queued := queued + 1;
          phase := if queued > MAX_QUEUED_TOOLS then Rejecting(queued) else Waiting(0);
        case Rejecting(depth) =>
          queued := queued - 1;
          phase := Finished(QueueFull(depth));
        case Waiting(k) =>
          var ok := TryTake(Nth(t, k));
          if ok { phase := if k == last then Leaving(true) else Waiting(k + 1); }
        case Expiring(k) =>
          Give(Nth(t, k - 1));
          phase := if k == 1 then Leaving(false) else Expiring(k - 1);
        case Leaving(granted) =>
          queued := queued - 1;
          phase := if granted then Running else Finished(QueueWaitTimeout);
        case Running =>
          Give(Total);
          phase := Releasing(1);
        case Releasing(j) =>
          Give(NthDropped(t, j));
          phase := if j == last then Finished(Ran) else Releasing(j + 1);
        case Finished(_) =>
      }
    }

    /** One of the loads of `snapshot`. */
    method LoadCounter(counter: Counter) returns (value: int)
      ensures value == Loaded(State(), counter)
    {
      match counter
      case InFlight => value := MAX_IN_FLIGHT_TOOLS - total;
      case InQueue => value := queued;
      case InUse(Shell) => value := MAX_IN_FLIGHT_SHELL - shellPool;
      case InUse(Read) => value := MAX_IN_FLIGHT_READS - readPool;
      case InUse(Mutation) => value := MAX_IN_FLIGHT_MUTATIONS - mutationPool;
      case InUse(Plugin) => value := MAX_IN_FLIGHT_PLUGINS - pluginPool;
    }

    /** The next atomic action of call `i`. */
    method Move(i: nat)
      requires Inv(State()) && Enabled(State(), Advance(i))
      modifies this
      ensures State() == Step(old(State()), Advance(i))
    {
      var t := tasks[i];
      assert t in tasks;
      EffectAllowed(State(), i);
      var phase := Act(t);
      tasks := tasks[i := t.(phase := phase)];
    }

    /** The wait of call `i` runs out. */
    method Expire(i: nat)
      requires Inv(State()) && Enabled(State(), TimeOut(i))
      modifies this`tasks
      ensures State() == Step(old(State()), TimeOut(i))
    {
      var t := tasks[i];
      tasks := tasks[i := t.(phase := if t.phase.held == 0 then Leaving(false) else Expiring(t.phase.held))];
    }
  }
}
