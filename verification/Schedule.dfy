/**
 Scheduled tasks (crates/host-core/src/scheduled.rs): which occurrence of a task is due, which
 ones were missed, and the bounded list of missed ones. Times are milliseconds.
 */
module Schedule {
  import opened Wrappers

  /** When a schedule fires next after a time (crates/host-core/src/scheduled/timing.rs); it may never. */
  type Rule = int -> Option<int>

  const GRACE := 90_000
  const MAX_MISSED_ROWS := 50
  const U64_MAX := 0xFFFF_FFFF_FFFF_FFFF

  /**
   One task and its run rows: `running` is the scheduled time of the row that is running,
   `runs` those of all rows that were ever started.
   */
  datatype Task = Task(
    eligible: bool, rule: Option<Rule>, next: Option<int>,
    running: Option<int>, runs: seq<int>, missed: Missed)

  /** The scheduled times of the missed rows, newest first, and how many older ones were deleted. */
  datatype Missed = Missed(rows: seq<int>, older: nat)

  // ---- Missed rows -------------------------------------------------------------------------

  /** Into a list ordered newest first. */
  function Insert(times: seq<int>, t: int): (r: seq<int>)
    ensures |r| == |times| + 1
  {
    if times == [] || times[0] <= t then [t] + times else [times[0]] + Insert(times[1..], t)
  }

  function Kept(times: seq<int>): seq<int> {
    if |times| <= MAX_MISSED_ROWS then times else times[..MAX_MISSED_ROWS]
  }

  function Saturated(n: nat): nat {
    if n <= U64_MAX then n else U64_MAX
  }

  /** One more missed row; then all but the newest fifty are deleted and only counted. */
  function Record(missed: Missed, t: int): Missed {
    var rows := Insert(missed.rows, t);
    var removed := |rows| - |Kept(rows)|;
    Missed(Kept(rows), if removed > 0 then Saturated(missed.older + removed) else missed.older)
  }

  /** `record_missed`. */
  function WithMissed(task: Task, t: int): Task {
    task.(missed := Record(task.missed, t))
  }

  /** `reschedule`. */
  function Rescheduled(task: Task, after: int): Task {
    task.(next := if task.rule.Some? then task.rule.value(after) else None)
  }

  // ---- Due ------------------------------------------------------------------------------------

  /** What one round of `due` did to a task: the times it recorded as missed, and whether it is to run. */
  datatype Walked = Walked(task: Task, recorded: seq<int>, admitted: bool)

  function Prepend(t: int, w: Walked): Walked {
    w.(recorded := [t] + w.recorded)
  }

  /** The loop of `due` from the occurrence `next`. */
  function Walk(task: Task, rule: Rule, next: int, now: int): Walked
    decreases now - next
  {
    if next > now || task.running == Some(next) then Walked(task, [], false)
    else if now - next <= GRACE && task.running.None? then Walked(task, [], true)
    else
      var following := rule(next);
      if following.None? || following.value <= next then Walked(WithMissed(task, next), [next], false)
      else Prepend(next, Walk(WithMissed(task, next).(next := following), rule, following.value, now))
  }

  function DueTask(task: Task, now: int): Walked {
    if !task.eligible || task.next.None? || task.rule.None? then Walked(task, [], false)
    else Walk(task, task.rule.value, task.next.value, now)
  }

  // ---- Running -------------------------------------------------------------------------------------

  /** `begin_run_at`: a row that is running. */
  function Begun(task: Task, at: int): Task {
    task.(running := Some(at), runs := task.runs + [at])
  }

  /** `finish_run`. */
  function Finished(task: Task): Task {
    task.(running := None)
  }

  /**
   How a run that was let through goes on: the task's mode needs a person, its project or model is
   unavailable, its session could not be created, or it starts.
   */
  datatype Course = NeedsPerson | Unavailable | SessionFailed | Starts

  /** The scheduled time a run is entered under: that of the task as it was read before `due`. */
  function EntryTime(task: Task, automatic: bool, now: int): int {
    if automatic && task.next.Some? then task.next.value else now
  }

  /** `scheduled.run` (crates/host-core/src/rpc/mod.rs), for its own task. */
  function RunTask(task: Task, automatic: bool, now: int, course: Course): Walked {
    if task.running.Some? then Walked(task, [], false)
    else
      var w := if automatic then DueTask(task, now) else Walked(task, [], true);
      var at := EntryTime(task, automatic, now);
      if !w.admitted then w
      else
        match course
        case NeedsPerson => w.(admitted := false)
        case SessionFailed => w.(admitted := false)
        case Unavailable =>
          if automatic then Walked(Rescheduled(Finished(Begun(w.task, at)), now), w.recorded, false)
          else w.(admitted := false)
        case Starts =>
          w.(task := if automatic then Rescheduled(Begun(w.task, at), now) else Begun(w.task, at))
  }

  class Scheduler {
    var tasks: seq<Task>

    constructor (tasks: seq<Task>)
      ensures this.tasks == tasks
    {
      this.tasks := tasks;
    }

    method RecordMissed(i: nat, t: int)
      requires i < |tasks|
      modifies this
      ensures tasks == old(tasks)[i := WithMissed(old(tasks[i]), t)]
    {
      var task := tasks[i];
      var rows := Insert(task.missed.rows, t);
      var missed := task.missed.(rows := Kept(rows));
      var removed := |rows| - |Kept(rows)|;
      if removed > 0 {
        missed := missed.(older := Saturated(missed.older + removed));
      }
      tasks := tasks[i := task.(missed := missed)];
    }

    method Reschedule(i: nat, after: int)
      requires i < |tasks|
      modifies this
      ensures tasks == old(tasks)[i := Rescheduled(old(tasks[i]), after)]
    {
      var task := tasks[i];
      tasks := tasks[i := task.(next := if task.rule.Some? then task.rule.value(after) else None)];
    }

    /** The loop of `due` for one task. */
    method DueOne(i: nat, now: int) returns (admitted: bool)
      requires i < |tasks|
      modifies this
      ensures tasks == old(tasks)[i := DueTask(old(tasks[i]), now).task]
      ensures admitted == DueTask(old(tasks[i]), now).admitted
    {
      var task := tasks[i];
      admitted := false;
      if !task.eligible || task.next.None? || task.rule.None? {
        return;
      }
      var rule, next := task.rule.value, task.next.value;
      while next <= now
        invariant |tasks| == |old(tasks)| && tasks == old(tasks)[i := tasks[i]]
        invariant tasks[i].running == task.running && tasks[i].rule == task.rule && !admitted
        invariant Walk(tasks[i], rule, next, now).task == Walk(task, rule, task.next.value, now).task
        invariant Walk(tasks[i], rule, next, now).admitted == Walk(task, rule, task.next.value, now).admitted
        decreases now - next
      {
        if task.running == Some(next) {
          break;
        }
        if now - next <= GRACE && task.running.None? {
          admitted := true;
          break;
        }
        RecordMissed(i, next);
        var following := rule(next);
        if following.None? || following.value <= next {
          break;
        }
        Reschedule(i, next);
        next := following.value;
      }
    }

    /** `due`: the tasks to run now, in order. */
    method Due(now: int) returns (ids: seq<nat>)
      modifies this
      ensures |tasks| == |old(tasks)|
      ensures forall i :: 0 <= i < |tasks| ==> tasks[i] == DueTask(old(tasks[i]), now).task
      ensures forall i :: 0 <= i < |tasks| ==> (i in ids <==> DueTask(old(tasks[i]), now).admitted)
      ensures forall k :: 0 <= k < |ids| ==> ids[k] < |tasks|
      ensures forall j, k :: 0 <= j < k < |ids| ==> ids[j] < ids[k]
    {
      ids := [];
      for i := 0 to |tasks|
        invariant |tasks| == |old(tasks)|
        invariant forall k :: 0 <= k < i ==> tasks[k] == DueTask(old(tasks[k]), now).task
        invariant forall k :: i <= k < |tasks| ==> tasks[k] == old(tasks[k])
        invariant forall k :: 0 <= k < |ids| ==> ids[k] < i
        invariant forall k :: 0 <= k < i ==> (k in ids <==> DueTask(old(tasks[k]), now).admitted)
        invariant forall j, k :: 0 <= j < k < |ids| ==> ids[j] < ids[k]
      {
        var admitted := DueOne(i, now);
        if admitted {
          ids := ids + [i];
        }
      }
    }

    method BeginRun(i: nat, at: int)
      requires i < |tasks|
      modifies this
      ensures tasks == old(tasks)[i := Begun(old(tasks[i]), at)]
    {
      tasks := tasks[i := tasks[i].(running := Some(at), runs := tasks[i].runs + [at])];
    }

    method FinishRun(i: nat) returns (ok: bool)
      requires i < |tasks|
      modifies this
      ensures tasks == old(tasks)[i := Finished(old(tasks[i]))]
      ensures ok == old(tasks[i]).running.Some?
    {
      ok := tasks[i].running.Some?;
      tasks := tasks[i := tasks[i].(running := None)];
    }

    /** `scheduled.run`: the other tasks only go through `due`. */
    method Run(i: nat, automatic: bool, now: int, course: Course) returns (started: bool)
      requires i < |tasks|
      modifies this
      ensures |tasks| == |old(tasks)| && tasks[i] == RunTask(old(tasks[i]), automatic, now, course).task
      ensures started == RunTask(old(tasks[i]), automatic, now, course).admitted
      ensures forall k :: 0 <= k < |tasks| && k != i ==>
        tasks[k] == if automatic && old(tasks[i]).running.None? then DueTask(old(tasks[k]), now).task else old(tasks[k])
    {
      var task := tasks[i];
      started := false;
      if task.running.Some? {
        return;
      }
      if automatic {
        var ids := Due(now);
        if i !in ids {
          return;
        }
      }
      if course.NeedsPerson? {
        return;
      }
      var at := if automatic && task.next.Some? then task.next.value else now;
      if course.Unavailable? {
        if automatic {
          BeginRun(i, at);
          var _ := FinishRun(i);
          Reschedule(i, now);
        }
        return;
      }
      if course.SessionFailed? {
        return;
      }
      BeginRun(i, at);
      if automatic {
        Reschedule(i, now);
      }
      started := true;
    }
  }
}
