/**
 What becomes of the occurrences of a scheduled item over a run of the host
 (crates/host-core/src/scheduled.rs, crates/host-core/src/rpc/mod.rs): each one is recorded as missed
 or used up by an automatic run, and neither happens to it again.
 */
module ScheduleAdmissions {

  import opened Schedule
  import opened ScheduleRuns
  import opened Wrappers

  /** The event lets an occurrence through: a round that lists the item, or an automatic run that
      gets past its round. */
  predicate Admits(task: Task, e: Event) {
    (e.Due? || (e.Run? && e.automatic && task.running.None?)) && DueTask(task, e.now).admitted
  }

  /** The occurrence that is let through. */
  function Occurrence(task: Task, e: Event): int
    requires Admits(task, e)
  {
    var next := DueTask(task, e.now).task.next;
    if next.Some? then next.value else 0
  }

  /** The event uses the occurrence up: the run starts, or fails for a project or a model that is not there. */
  predicate UsesUp(task: Task, e: Event) {
    e.Run? && (e.course == Starts || e.course == Unavailable) && Admits(task, e)
  }

  /** The occurrences that an event deals with for good. */
  function Settled(task: Task, e: Event): seq<int> {
    Step(task, e).recorded + if UsesUp(task, e) then [Occurrence(task, e)] else []
  }

  function SettledAfter(task: Task, events: seq<Event>, n: nat): seq<int>
    requires n <= |events|
  {
    if n == 0 then []
    else SettledAfter(task, events, n - 1) + Settled(After(task, events, n - 1).task, events[n - 1])
  }

  // ---- One event -----------------------------------------------------------------------------------

  /** What is let through is the occurrence behind all that the event recorded. */
  lemma {:induction false} AdmittedBehind(task: Task, rule: Rule, next: int, now: int)
    requires task.next == Some(next) && Walk(task, rule, next, now).admitted
    ensures var w := Walk(task, rule, next, now);
      && w.task.next.Some? && next <= w.task.next.value <= now && now - w.task.next.value <= 90_000
      && AllBelow(w.recorded, w.task.next.value) && w.task.running.None?
      && (w.recorded == [] <==> w.task.next.value == next)
    decreases now - next
  {
    if !Stops(task, next, now) && rule(next).Some? && rule(next).value > next {
      AdmittedBehind(WithMissed(task, next).(next := rule(next)), rule, rule(next).value, now);
    }
  }

  /** Main result: an automatic run that uses an occurrence up moves the item on to the schedule's first firing after
      the time of the run; any other run leaves the next time where its round, if any, put it. */
  lemma RunsMoveOn(task: Task, automatic: bool, now: int, course: Course)
    requires task.running.None?
    ensures RunTask(task, automatic, now, course).admitted <==>
      course == Starts && (automatic ==> DueTask(task, now).admitted)
    ensures var e := Run(automatic, now, course); var task' := Step(task, e).task;
      && (UsesUp(task, e) ==>
            task.rule.Some? && task'.next == task.rule.value(now) && task'.rule == task.rule
            && Occurrence(task, e) <= now && now - Occurrence(task, e) <= 90_000
            && |task'.runs| == |task.runs| + 1
            && (course == Starts <==> task'.running.Some?))
      && (automatic && !UsesUp(task, e) ==> task' == DueTask(task, now).task)
      && (!automatic ==>
            task' == if course == Starts then task.(running := Some(now), runs := task.runs + [now]) else task)
  {
    if automatic && task.eligible && task.next.Some? && task.rule.Some? {
      WalkIsChain(task, task.rule.value, task.next.value, now);
      if DueTask(task, now).admitted {
        AdmittedBehind(task, task.rule.value, task.next.value, now);
      }
    }
  }

  lemma IncreasingSnoc(s: seq<int>, last: int)
    requires Increasing(s) && AllBelow(s, last)
    ensures Increasing(s + [last])
  {
  }

  /** What an event settles increases, from the item's next time on. */
  lemma SettledIncreases(task: Task, e: Event)
    ensures Increasing(Settled(task, e))
    ensures Settled(task, e) != [] ==> task.next.Some? && Settled(task, e)[0] == task.next.value
    ensures Settled(task, e) != [] <==> Passes(task, e) || UsesUp(task, e)
  {
    StepIncreases(task, e);
    var recorded := Step(task, e).recorded;
    if UsesUp(task, e) {
      AdmittedBehind(task, task.rule.value, task.next.value, e.now);
      IncreasingSnoc(recorded, Occurrence(task, e));
    } else {
      assert Settled(task, e) == recorded;
    }
  }

  // ---- Over runs -------------------------------------------------------------------------------------

  /** Event `i` settles nothing that is not behind everything settled before it. */
  ghost predicate SettlesOnwards(task: Task, events: seq<Event>, i: nat)
    requires i < |events|
  {
    var t := After(task, events, i).task;
    Passes(t, events[i]) || UsesUp(t, events[i]) ==>
      t.next.Some? && AllBelow(SettledAfter(task, events, i), t.next.value)
  }

  /** So do the first `n` events, each one. */
  ghost predicate AllSettleOnwards(task: Task, events: seq<Event>, n: nat)
    requires n <= |events|
  {
    n == 0 || (AllSettleOnwards(task, events, n - 1) && SettlesOnwards(task, events, n - 1))
  }

  lemma SettlesOnwardsMeans(task: Task, events: seq<Event>, i: nat, earlier: seq<int>, part: seq<int>)
    requires i < |events| && earlier == SettledAfter(task, events, i)
    requires part == Settled(After(task, events, i).task, events[i])
    ensures Increasing(part) && SettledAfter(task, events, i + 1) == earlier + part
    ensures SettlesOnwards(task, events, i) <==> (part != [] ==> AllBelow(earlier, part[0]))
  {
    SettledIncreases(After(task, events, i).task, events[i]);
  }

  /**
   Main result, for any schedules, clocks and edits: the occurrences recorded as missed or used up by a run
   strictly increase exactly when every event that settles any begins behind all that were settled before.
   */
  lemma {:induction false} SettledOnceIffOnwards(task: Task, events: seq<Event>, n: nat)
    requires n <= |events|
    ensures Increasing(SettledAfter(task, events, n)) <==> AllSettleOnwards(task, events, n)
  {
    if n > 0 {
      SettledOnceIffOnwards(task, events, n - 1);
      var earlier := SettledAfter(task, events, n - 1);
      var part := Settled(After(task, events, n - 1).task, events[n - 1]);
      SettlesOnwardsMeans(task, events, n - 1, earlier, part);
      IncreasingAppend(earlier, part);
    }
  }

  lemma UsedUpInOrder(task: Task, e: Event, settled: seq<int>, clock: int)
    requires InOrder(task, settled, clock) && Orderly(e, clock) && UsesUp(task, e)
    ensures InOrder(Step(task, e).task, settled + Settled(task, e), Clock(e, clock))
  {
    StepInOrder(task, e, settled, clock);
    RunsMoveOn(task, e.automatic, e.now, e.course);
    var all := settled + Step(task, e).recorded;
    assert settled + Settled(task, e) == all + [Occurrence(task, e)];
    assert task.rule.value(e.now).Some? && task.rule.value(e.now).value > e.now;
  }

  lemma SettleInOrder(task: Task, e: Event, settled: seq<int>, clock: int)
    requires InOrder(task, settled, clock) && Orderly(e, clock)
    ensures InOrder(Step(task, e).task, settled + Settled(task, e), Clock(e, clock))
  {
    if UsesUp(task, e) {
      UsedUpInOrder(task, e, settled, clock);
    } else {
      assert Settled(task, e) == Step(task, e).recorded;
      StepInOrder(task, e, settled, clock);
    }
  }

  lemma {:induction false} RunSettlesInOrder(task: Task, start: int, events: seq<Event>, n: nat)
    requires Fires(task.rule) && n <= |events|
    requires forall i :: 0 <= i < n ==> Orderly(events[i], ClockAt(start, events, i))
    ensures InOrder(After(task, events, n).task, SettledAfter(task, events, n), ClockAt(start, events, n))
  {
    if n > 0 {
      RunSettlesInOrder(task, start, events, n - 1);
      SettleInOrder(After(task, events, n - 1).task, events[n - 1], SettledAfter(task, events, n - 1),
                    ClockAt(start, events, n - 1));
    }
  }

  /** An occurrence that is let through is behind everything settled so far. */
  lemma AdmitsOnwards(task: Task, e: Event, settled: seq<int>, clock: int)
    requires InOrder(task, settled, clock) && Admits(task, e)
    ensures AllBelow(settled, Occurrence(task, e))
  {
    AdmittedBehind(task, task.rule.value, task.next.value, e.now);
  }

  lemma SettlersHaveNext(task: Task, e: Event)
    requires Passes(task, e) || UsesUp(task, e)
    ensures task.next.Some?
  {
  }

  lemma InOrderSettles(task: Task, events: seq<Event>, i: nat, t: Task, settled: seq<int>, clock: int)
    requires i < |events| && t == After(task, events, i).task && settled == SettledAfter(task, events, i)
    requires InOrder(t, settled, clock)
    ensures SettlesOnwards(task, events, i)
  {
    if Passes(t, events[i]) || UsesUp(t, events[i]) {
      SettlersHaveNext(t, events[i]);
    }
  }

  lemma OnwardsAt(task: Task, start: int, events: seq<Event>, i: nat)
    requires Fires(task.rule) && i < |events|
    requires forall j :: 0 <= j < i ==> Orderly(events[j], ClockAt(start, events, j))
    ensures SettlesOnwards(task, events, i)
  {
    RunSettlesInOrder(task, start, events, i);
    var before := After(task, events, i).task;
    InOrderSettles(task, events, i, before, SettledAfter(task, events, i), ClockAt(start, events, i));
  }

  lemma {:induction false} AllOnwards(task: Task, start: int, events: seq<Event>, n: nat)
    requires Fires(task.rule) && n <= |events|
    requires forall i :: 0 <= i < n ==> Orderly(events[i], ClockAt(start, events, i))
    ensures AllSettleOnwards(task, events, n)
  {
    if n > 0 {
      AllOnwards(task, start, events, n - 1);
      OnwardsAt(task, start, events, n - 1);
    }
  }

  /**
   Main result: with a clock that does not run backwards, schedules that always fire again and edits that do not
   bring their own next time, the occurrences that are recorded as missed or used up by an automatic run
   strictly increase, so each is settled once; and nothing settled is ever let through again.
   */
  lemma EachSettledOnce(task: Task, start: int, events: seq<Event>)
    requires Fires(task.rule)
    requires forall i :: 0 <= i < |events| ==> Orderly(events[i], ClockAt(start, events, i))
    ensures Increasing(SettledAfter(task, events, |events|))
    ensures forall i :: 0 <= i < |events| && Admits(After(task, events, i).task, events[i]) ==>
      AllBelow(SettledAfter(task, events, i), Occurrence(After(task, events, i).task, events[i]))
  {
    AllOnwards(task, start, events, |events|);
    SettledOnceIffOnwards(task, events, |events|);
    forall i | 0 <= i < |events| && Admits(After(task, events, i).task, events[i])
      ensures AllBelow(SettledAfter(task, events, i), Occurrence(After(task, events, i).task, events[i]))
    {
      RunSettlesInOrder(task, start, events, i);
      AdmitsOnwards(After(task, events, i).task, events[i], SettledAfter(task, events, i), ClockAt(start, events, i));
    }
  }
}
