/** What the scheduler guarantees for one round of `due`, and over whole runs of the host. */
module ScheduleRuns {

  import opened Schedule
  import opened Wrappers

  // ---- One round -----------------------------------------------------------------------------

  /** Every firing has a strictly later successor. */
  ghost predicate AlwaysLater(rule: Rule) {
    forall t :: rule(t).Some? && rule(t).value > t
  }

  /** `times` are the occurrences from `first` on, one after the other, and `last` is the one behind them. */
  ghost predicate Chain(rule: Rule, first: int, times: seq<int>, last: int)
    decreases |times|
  {
    if times == [] then first == last
    else
      && times[0] == first && rule(first).Some? && rule(first).value > first
      && Chain(rule, rule(first).value, times[1..], last)
  }

  /** Not earlier than the grace period, or still to come. */
  predicate Fresh(t: int, now: int) {
    now - t <= 90_000
  }

  /** The loop stops at this occurrence without recording it. */
  predicate Stops(task: Task, next: int, now: int) {
    next > now || task.running == Some(next) || (Fresh(next, now) && task.running.None?)
  }

  /** The occurrence at which a round gets stuck: it is recorded, and nothing later follows it. */
  predicate Stuck(task: Task, rule: Rule, next: int, now: int)
    decreases now - next
  {
    && !Stops(task, next, now)
    && (rule(next).None? || rule(next).value <= next || Stuck(task, rule, rule(next).value, now))
  }

  lemma {:induction false} StuckSame(a: Task, b: Task, rule: Rule, next: int, now: int)
    requires a.running == b.running
    ensures Stuck(a, rule, next, now) <==> Stuck(b, rule, next, now)
    decreases now - next
  {
    if next <= now && rule(next).Some? && rule(next).value > next {
      StuckSame(a, b, rule, rule(next).value, now);
    }
  }

  /** The occurrences that a walk passed: all that it recorded, but the one it got stuck at. */
  function Passed(w: Walked, stuck: bool): seq<int> {
    if stuck && w.recorded != [] then w.recorded[..|w.recorded| - 1] else w.recorded
  }

  /** What a walk is, for any schedule. */
  ghost predicate Walks(task: Task, rule: Rule, next: int, now: int, w: Walked) {
    var stuck := Stuck(task, rule, next, now);
    && w.task.next.Some? && Chain(rule, next, Passed(w, stuck), w.task.next.value)
    && (stuck ==> w.recorded == Passed(w, stuck) + [w.task.next.value])
    && w.task.rule == task.rule && w.task.running == task.running && w.task.runs == task.runs
    && w.task.eligible == task.eligible
  }

  lemma {:induction false} WalkIsChain(task: Task, rule: Rule, next: int, now: int)
    requires task.next == Some(next)
    ensures Walks(task, rule, next, now, Walk(task, rule, next, now))
    decreases now - next
  {
    if !Stops(task, next, now) {
      var following := rule(next);
      if following.Some? && following.value > next {
        var turned := WithMissed(task, next).(next := following);
        WalkIsChain(turned, rule, following.value, now);
        StuckSame(task, turned, rule, following.value, now);
        WalksOn(task, rule, next, now, turned, Walk(turned, rule, following.value, now));
      }
    }
  }

  lemma WalksOn(task: Task, rule: Rule, next: int, now: int, turned: Task, w: Walked)
    requires rule(next).Some? && rule(next).value > next
    requires turned == WithMissed(task, next).(next := rule(next)) && !Stops(task, next, now)
    requires Stuck(task, rule, rule(next).value, now) <==> Stuck(turned, rule, rule(next).value, now)
    requires Walks(turned, rule, rule(next).value, now, w)
    ensures Walks(task, rule, next, now, Prepend(next, w))
  {
    var stuck := Stuck(turned, rule, rule(next).value, now);
    var p := Prepend(next, w);
    assert Passed(p, stuck) == [next] + Passed(w, stuck);
    assert Passed(p, stuck)[1..] == Passed(w, stuck);
  }

  /** Which occurrences are recorded, and where the walk stops. */
  lemma {:induction false} WalkStops(task: Task, rule: Rule, next: int, now: int)
    requires task.next == Some(next)
    ensures var w := Walk(task, rule, next, now);
      && w.task.next.Some? && w.task.running == task.running
      && (forall i :: 0 <= i < |w.recorded| ==> !Stops(task, w.recorded[i], now))
      && (!Stuck(task, rule, next, now) <==> Stops(task, w.task.next.value, now))
      && (w.admitted <==>
            !Stuck(task, rule, next, now) && task.running.None? && w.task.next.value <= now)
    decreases now - next
  {
    if !Stops(task, next, now) {
      var following := rule(next);
      if following.Some? && following.value > next {
        var turned := WithMissed(task, next).(next := following);
        WalkStops(turned, rule, following.value, now);
        StuckSame(task, turned, rule, following.value, now);
        var w := Walk(turned, rule, following.value, now);
        assert Walk(task, rule, next, now) == Prepend(next, w);
      }
    }
  }

  /**
   Main result, for any schedule: a round of `due` walks over the occurrences in order and records
   each one it passes exactly once. It passes those that are due and neither running nor fresh without
   a running row, and stops at the first other one, which it admits when its time has come and no row
   is running; or it gets stuck, recording an occurrence that nothing later follows.
   */
  lemma DueWalksInOrder(task: Task, now: int)
    requires task.eligible && task.rule.Some? && task.next.Some?
    ensures var w := DueTask(task, now); var stuck := Stuck(task, task.rule.value, task.next.value, now);
      && Walks(task, task.rule.value, task.next.value, now, w)
      && (forall i :: 0 <= i < |w.recorded| ==> !Stops(task, w.recorded[i], now))
      && (!stuck <==> Stops(task, w.task.next.value, now))
      && (w.admitted <==> !stuck && task.running.None? && w.task.next.value <= now)
  {
    WalkIsChain(task, task.rule.value, task.next.value, now);
    WalkStops(task, task.rule.value, task.next.value, now);
  }

  // ---- A second round ---------------------------------------------------------------------------

  lemma {:induction false} WalkAgain(task: Task, rule: Rule, next: int, now: int)
    requires task.next == Some(next)
    ensures var w := Walk(task, rule, next, now);
      && w.task.next.Some? && w.task.running == task.running && w.task.rule == task.rule
      && w.task.eligible == task.eligible
      && (Walk(w.task, rule, w.task.next.value, now).recorded == [] <==> !Stuck(task, rule, next, now))
    decreases now - next
  {
    if !Stops(task, next, now) {
      var following := rule(next);
      if following.Some? && following.value > next {
        var task' := WithMissed(task, next).(next := following);
        WalkAgain(task', rule, following.value, now);
        StuckSame(task, task', rule, following.value, now);
        assert Walk(task, rule, next, now).task == Walk(task', rule, following.value, now).task;
      }
    }
  }

  /**
   Main result: a second round at the same time records nothing exactly when the first one did
   not get stuck at an occurrence that nothing later follows. A stuck one is recorded again and again.
   */
  lemma SecondRoundRecordsNothing(task: Task, now: int)
    requires task.eligible && task.rule.Some? && task.next.Some?
    ensures DueTask(DueTask(task, now).task, now).recorded == []
        <==> !Stuck(task, task.rule.value, task.next.value, now)
  {
    WalkAgain(task, task.rule.value, task.next.value, now);
  }

  /**
   An occurrence without a successor is recorded by every round. The host's schedules have none when
   their stored hour, minute or weekday is out of range, or for a weekly time that a clock change skips.
   */
  lemma StuckIsRecordedTwice()
    ensures var never: Rule := _ => None;
      var task := Task(true, Some(never), Some(0), None, [], Missed([], 0));
      var once := DueTask(task, 100_000);
      && once.recorded == [0] && once.task.missed.rows == [0]
      && DueTask(once.task, 100_000).recorded == [0] && DueTask(once.task, 100_000).task.missed.rows == [0, 0]
  {
  }

  // ---- Whole runs ------------------------------------------------------------------------------------

  /**
   What an edit does to the next time: nothing, the schedule's next firing after the clock (none
   while the task is incomplete), or whatever the client put into the configuration object.
   */
  datatype Timing = Kept | Anew | Raw(next: Option<int>)

  datatype Event =
    | Due(now: int)
    | Run(automatic: bool, now: int, course: Course)
    | Finish
    | Configure(now: int, eligible: bool, rule: Option<Rule>, timing: Timing)

  function Configured(task: Task, e: Event): Task
    requires e.Configure?
  {
    var next := match e.timing
      case Kept => task.next
      case Anew => if e.rule.Some? then e.rule.value(e.now) else None
      case Raw(next) => next;
    task.(eligible := e.eligible, rule := e.rule, next := next)
  }

  /** What an event does to a task, and the occurrences it records as missed. */
  function Step(task: Task, e: Event): Walked {
    match e
    case Due(now) => DueTask(task, now)
    case Run(automatic, now, course) => RunTask(task, automatic, now, course)
    case Finish => Walked(Finished(task), [], false)
    case Configure(_, _, _, _) => Walked(Configured(task, e), [], false)
  }

  /** The task after the first `n` events, and everything recorded as missed until then. */
  function After(task: Task, events: seq<Event>, n: nat): Walked
    requires n <= |events|
  {
    if n == 0 then Walked(task, [], false)
    else
      var before := After(task, events, n - 1);
      var w := Step(before.task, events[n - 1]);
      Walked(w.task, before.recorded + w.recorded, w.admitted)
  }

  // ---- The newest missed rows are kept, the rest is counted --------------------------------------------

  function Sorted(times: seq<int>): (r: seq<int>)
    ensures |r| == |times|
  {
    if times == [] then [] else Insert(Sorted(times[..|times| - 1]), times[|times| - 1])
  }

  predicate Descending(s: seq<int>) {
    |s| < 2 || (s[0] >= s[1] && Descending(s[1..]))
  }

  lemma {:induction false} InsertDescends(s: seq<int>, t: int)
    requires Descending(s)
    ensures Descending(Insert(s, t)) && Insert(s, t)[0] == if s == [] || s[0] <= t then t else s[0]
  {
    if s != [] && s[0] > t {
      InsertDescends(s[1..], t);
      assert Insert(s, t)[1..] == Insert(s[1..], t);
    } else {
      assert Insert(s, t)[1..] == s;
    }
  }

  lemma {:induction false} InsertKeeps(s: seq<int>, t: int)
    ensures multiset(Insert(s, t)) == multiset(s) + multiset{t}
  {
    if s != [] && s[0] > t {
      InsertKeeps(s[1..], t);
      assert s == [s[0]] + s[1..];
    }
  }

  lemma {:induction false} SortedIsSorted(times: seq<int>)
    ensures Descending(Sorted(times)) && multiset(Sorted(times)) == multiset(times)
  {
    if times != [] {
      var n := |times| - 1;
      SortedIsSorted(times[..n]);
      InsertDescends(Sorted(times[..n]), times[n]);
      InsertKeeps(Sorted(times[..n]), times[n]);
      assert times == times[..n] + [times[n]];
    }
  }

  lemma {:induction false} LaterIsLess(s: seq<int>, i: nat, j: nat)
    requires Descending(s) && i <= j < |s|
    ensures s[i] >= s[j]
  {
    if i > 0 {
      LaterIsLess(s[1..], i - 1, j - 1);
    } else if j > 0 {
      LaterIsLess(s[1..], 0, j - 1);
    }
  }

  function Cut(s: seq<int>, n: nat): seq<int> {
    if |s| <= n then s else s[..n]
  }

  lemma {:induction false} CutInsert(s: seq<int>, t: int, n: nat)
    ensures Cut(Insert(Cut(s, n), t), n) == Cut(Insert(s, t), n)
  {
    if n > 0 && s != [] && s[0] > t {
      CutInsert(s[1..], t, n - 1);
      assert Cut(s, n)[1..] == Cut(s[1..], n - 1);
    }
  }

  /** The rows are the newest recorded times, at most fifty, and the counter holds how many others there were. */
  ghost predicate Counted(missed: Missed, recorded: seq<int>) {
    && missed.rows == Cut(Sorted(recorded), MAX_MISSED_ROWS)
    && missed.older == Saturated(|recorded| - |missed.rows|)
  }

  function RecordAll(missed: Missed, times: seq<int>): Missed
    decreases |times|
  {
    if times == [] then missed else RecordAll(Record(missed, times[0]), times[1..])
  }

  lemma RecordIsCounted(missed: Missed, recorded: seq<int>, t: int)
    requires Counted(missed, recorded)
    ensures Counted(Record(missed, t), recorded + [t])
  {
    assert (recorded + [t])[..|recorded|] == recorded;
    CutInsert(Sorted(recorded), t, MAX_MISSED_ROWS);
  }

  lemma {:induction false} RecordAllIsCounted(missed: Missed, recorded: seq<int>, times: seq<int>, total: seq<int>)
    requires Counted(missed, recorded) && total == recorded + times
    ensures Counted(RecordAll(missed, times), total)
    decreases |times|
  {
    if times == [] {
      assert total == recorded;
    } else {
      RecordIsCounted(missed, recorded, times[0]);
      RecordAllIsCounted(Record(missed, times[0]), recorded + [times[0]], times[1..], total);
    }
  }

  lemma {:induction false} WalkRecords(task: Task, rule: Rule, next: int, now: int)
    ensures var w := Walk(task, rule, next, now); w.task.missed == RecordAll(task.missed, w.recorded)
    decreases now - next
  {
    if !Stops(task, next, now) && rule(next).Some? && rule(next).value > next {
      var turned := WithMissed(task, next).(next := rule(next));
      WalkRecords(turned, rule, rule(next).value, now);
      var rest := Walk(turned, rule, rule(next).value, now);
      assert ([next] + rest.recorded)[1..] == rest.recorded;
    }
  }

  /** What an event does to the missed rows is to record its times in order. */
  lemma StepRecords(task: Task, e: Event)
    ensures Step(task, e).task.missed == RecordAll(task.missed, Step(task, e).recorded)
  {
    if task.rule.Some? && task.next.Some? && (e.Due? || e.Run?) {
      WalkRecords(task, task.rule.value, task.next.value, e.now);
    }
  }

  lemma {:induction false} RunIsCounted(task: Task, events: seq<Event>, n: nat)
    requires n <= |events| && task.missed == Missed([], 0)
    ensures Counted(After(task, events, n).task.missed, After(task, events, n).recorded)
  {
    if n > 0 {
      var before := After(task, events, n - 1);
      var w := Step(before.task, events[n - 1]);
      RunIsCounted(task, events, n - 1);
      StepRecords(before.task, events[n - 1]);
      RecordAllIsCounted(before.task.missed, before.recorded, w.recorded, before.recorded + w.recorded);
    }
  }

  lemma CutKeepsNewest(all: seq<int>, n: nat, kept: int, dropped: int)
    requires Descending(all) && n <= |all|
    requires kept in all[..n] && dropped in multiset(all) - multiset(all[..n])
    ensures dropped <= kept
  {
    assert all == all[..n] + all[n..];
    assert dropped in multiset(all[n..]);
    var i :| 0 <= i < n && all[i] == kept;
    var j :| n <= j < |all| && all[j] == dropped;
    LaterIsLess(all, i, j);
  }

  /**
   Main result: over any run, rows and counter together account for everything ever recorded as
   missed; the rows are at most fifty, and none that was dropped is newer than one that was kept.
   */
  lemma MissedRowsAddUp(task: Task, events: seq<Event>)
    requires task.missed == Missed([], 0)
    ensures var r := After(task, events, |events|);
      var missed := r.task.missed;
      && |missed.rows| == (if |r.recorded| <= 50 then |r.recorded| else 50)
      && (|r.recorded| <= U64_MAX ==> |missed.rows| + missed.older == |r.recorded|)
      && multiset(missed.rows) <= multiset(r.recorded)
      && forall kept, dropped ::
           kept in missed.rows && dropped in multiset(r.recorded) - multiset(missed.rows) ==> dropped <= kept
  {
    var r := After(task, events, |events|);
    var all := Sorted(r.recorded);
    RunIsCounted(task, events, |events|);
    SortedIsSorted(r.recorded);
    var n := |r.task.missed.rows|;
    assert all == all[..n] + all[n..];
    forall kept, dropped |
      kept in r.task.missed.rows && dropped in multiset(r.recorded) - multiset(r.task.missed.rows)
      ensures dropped <= kept
    {
      CutKeepsNewest(all, n, kept, dropped);
    }
  }

  // ---- Nothing is recorded twice -----------------------------------------------------------------------

  predicate Increasing(s: seq<int>) {
    forall i, j :: 0 <= i < j < |s| ==> s[i] < s[j]
  }

  predicate AllBelow(s: seq<int>, bound: int) {
    forall i :: 0 <= i < |s| ==> s[i] < bound
  }

  lemma {:induction false} ChainIncreases(rule: Rule, first: int, times: seq<int>, last: int)
    requires Chain(rule, first, times, last)
    ensures Increasing(times) && AllBelow(times, last) && first <= last
    ensures forall i :: 0 <= i < |times| ==> first <= times[i]
    decreases |times|
  {
    if times != [] {
      ChainIncreases(rule, rule(first).value, times[1..], last);
      assert forall i :: 0 < i < |times| ==> times[i] == times[1..][i - 1];
    }
  }

  /** An event that walks past the next occurrence of the task. */
  predicate Passes(task: Task, e: Event) {
    && task.eligible && task.rule.Some? && task.next.Some?
    && (e.Due? || (e.Run? && e.automatic && task.running.None?))
    && !Stops(task, task.next.value, e.now)
  }

  /** What a walk records increases from its first occurrence on, and is empty exactly when it stops at once. */
  lemma {:induction false} WalkIncreases(task: Task, rule: Rule, next: int, now: int)
    ensures var recorded := Walk(task, rule, next, now).recorded;
      && Increasing(recorded) && (recorded == [] <==> Stops(task, next, now))
      && (recorded != [] ==> recorded[0] == next)
    decreases now - next
  {
    if !Stops(task, next, now) && rule(next).Some? && rule(next).value > next {
      var turned := WithMissed(task, next).(next := rule(next));
      WalkIncreases(turned, rule, rule(next).value, now);
      IncreasingPrepend(next, Walk(turned, rule, rule(next).value, now).recorded);
    }
  }

  lemma IncreasingPrepend(first: int, rest: seq<int>)
    requires Increasing(rest) && (rest != [] ==> first < rest[0])
    ensures Increasing([first] + rest)
  {
    var s := [first] + rest;
    forall i, j | 0 <= i < j < |s|
      ensures s[i] < s[j]
    {
      assert s[j] == rest[j - 1] && rest[0] <= rest[j - 1];
    }
  }

  /** What an event records. */
  lemma StepIncreases(task: Task, e: Event)
    ensures var recorded := Step(task, e).recorded;
      && Increasing(recorded) && (recorded != [] <==> Passes(task, e))
      && (recorded != [] ==> recorded[0] == task.next.value)
  {
    if task.rule.Some? && task.next.Some? && (e.Due? || e.Run?) {
      WalkIncreases(task, task.rule.value, task.next.value, e.now);
    }
  }

  lemma IncreasingAppend(a: seq<int>, b: seq<int>)
    requires Increasing(b)
    ensures Increasing(a + b) <==> Increasing(a) && (b != [] ==> AllBelow(a, b[0]))
  {
    var s := a + b;
    if Increasing(s) {
      forall i, j | 0 <= i < j < |a|
        ensures a[i] < a[j]
      {
        assert s[i] < s[j];
      }
      if b != [] {
        forall i | 0 <= i < |a|
          ensures a[i] < b[0]
        {
          assert s[i] < s[|a|];
        }
      }
    } else {
      var i, j :| 0 <= i < j < |s| && s[i] >= s[j];
      if i < |a| <= j {
        assert b[0] <= s[j];
      } else if j < |a| {
        assert a[i] >= a[j];
      }
    }
  }

  /** Event `i` of a run does not walk past an occurrence that is not behind everything recorded before it. */
  ghost predicate PassesOnwards(task: Task, events: seq<Event>, i: nat)
    requires i < |events|
  {
    var before := After(task, events, i);
    Passes(before.task, events[i]) ==> AllBelow(before.recorded, before.task.next.value)
  }

  /**
   Main result, for any schedules, clocks and edits: the recorded occurrences strictly increase over a
   run exactly when every walk that passes an occurrence begins behind all that were recorded before.
   */
  lemma {:induction false} MissedOnceIffOnwards(task: Task, events: seq<Event>, n: nat)
    requires n <= |events|
    ensures Increasing(After(task, events, n).recorded) <==>
      forall i :: 0 <= i < n ==> PassesOnwards(task, events, i)
  {
    if n > 0 {
      var before := After(task, events, n - 1);
      MissedOnceIffOnwards(task, events, n - 1);
      StepIncreases(before.task, events[n - 1]);
      IncreasingAppend(before.recorded, Step(before.task, events[n - 1]).recorded);
      assert PassesOnwards(task, events, n - 1) <==>
        (Passes(before.task, events[n - 1]) ==> AllBelow(before.recorded, before.task.next.value));
    }
  }

  ghost predicate Fires(rule: Option<Rule>) {
    rule.Some? ==> AlwaysLater(rule.value)
  }

  predicate NoneAfter(s: seq<int>, bound: int) {
    forall i :: 0 <= i < |s| ==> s[i] <= bound
  }

  /** Everything recorded so far lies before the next occurrence and not after the clock. */
  ghost predicate InOrder(task: Task, recorded: seq<int>, clock: int) {
    && Fires(task.rule) && NoneAfter(recorded, clock)
    && (task.next.Some? ==> AllBelow(recorded, task.next.value))
  }

  lemma {:induction false} NeverStuck(task: Task, rule: Rule, next: int, now: int)
    requires AlwaysLater(rule)
    ensures !Stuck(task, rule, next, now)
    decreases now - next
  {
    if !Stops(task, next, now) {
      assert rule(next).Some? && rule(next).value > next;
      NeverStuck(task, rule, rule(next).value, now);
    }
  }

  lemma DueInOrder(task: Task, now: int, recorded: seq<int>, clock: int)
    requires InOrder(task, recorded, clock) && clock <= now
    ensures var w := DueTask(task, now);
      InOrder(w.task, recorded + w.recorded, now) && w.task.rule == task.rule
      && (w.admitted ==> task.rule.Some?)
  {
    var w := DueTask(task, now);
    if task.eligible && task.next.Some? && task.rule.Some? {
      var rule := task.rule.value;
      WalkIsChain(task, rule, task.next.value, now);
      WalkStops(task, rule, task.next.value, now);
      NeverStuck(task, rule, task.next.value, now);
      ChainIncreases(rule, task.next.value, w.recorded, w.task.next.value);
    } else {
      assert recorded + w.recorded == recorded;
    }
  }

  /** A next firing that is computed at the clock lies behind everything recorded. */
  lemma RescheduledInOrder(task: Task, recorded: seq<int>, now: int)
    requires InOrder(task, recorded, now)
    ensures InOrder(Rescheduled(task, now), recorded, now)
  {
    if task.rule.Some? {
      assert task.rule.value(now).Some? && task.rule.value(now).value > now;
    }
  }

  lemma RunTaskInOrder(task: Task, automatic: bool, now: int, course: Course, recorded: seq<int>, clock: int)
    requires InOrder(task, recorded, clock) && clock <= now
    ensures var w := RunTask(task, automatic, now, course); InOrder(w.task, recorded + w.recorded, now)
  {
    assert recorded + [] == recorded;
    DueInOrder(task, now, recorded, clock);
    var at := EntryTime(task, automatic, now);
    if automatic && DueTask(task, now).admitted {
      var due := DueTask(task, now);
      RescheduledInOrder(Finished(Begun(due.task, at)), recorded + due.recorded, now);
      RescheduledInOrder(Begun(due.task, at), recorded + due.recorded, now);
    }
  }

  function Clock(e: Event, before: int): int {
    if e.Finish? then before else e.now
  }

  /** The clock does not run backwards, schedules fire again, and no edit brings its own next time. */
  ghost predicate Orderly(e: Event, clock: int) {
    clock <= Clock(e, clock) && (e.Configure? ==> Fires(e.rule) && !e.timing.Raw?)
  }

  lemma StepInOrder(task: Task, e: Event, recorded: seq<int>, clock: int)
    requires InOrder(task, recorded, clock) && Orderly(e, clock)
    ensures InOrder(Step(task, e).task, recorded + Step(task, e).recorded, Clock(e, clock))
  {
    assert recorded + [] == recorded;
    match e
    case Due(now) => DueInOrder(task, now, recorded, clock);
    case Run(automatic, now, course) => RunTaskInOrder(task, automatic, now, course, recorded, clock);
    case Finish =>
    case Configure(now, _, rule, timing) =>
      if timing.Anew? && rule.Some? {
        assert rule.value(now).Some? && rule.value(now).value > now;
      }
  }

  /** The clock after the first `n` events. */
  function ClockAt(start: int, events: seq<Event>, n: nat): int
    requires n <= |events|
  {
    if n == 0 then start else Clock(events[n - 1], ClockAt(start, events, n - 1))
  }

  lemma {:induction false} RunInOrder(task: Task, start: int, events: seq<Event>, n: nat)
    requires Fires(task.rule) && n <= |events|
    requires forall i :: 0 <= i < n ==> Orderly(events[i], ClockAt(start, events, i))
    ensures InOrder(After(task, events, n).task, After(task, events, n).recorded, ClockAt(start, events, n))
  {
    if n > 0 {
      var before := After(task, events, n - 1);
      RunInOrder(task, start, events, n - 1);
      StepInOrder(before.task, events[n - 1], before.recorded, ClockAt(start, events, n - 1));
    }
  }

  /**
   With a clock that does not run backwards, schedules that always fire again and edits that keep the
   next time or compute it from the clock, the recorded occurrences strictly increase over any run.
   */
  lemma EachMissedOnce(task: Task, start: int, events: seq<Event>)
    requires Fires(task.rule)
    requires forall i :: 0 <= i < |events| ==> Orderly(events[i], ClockAt(start, events, i))
    ensures Increasing(After(task, events, |events|).recorded)
  {
    forall i | 0 <= i < |events|
      ensures PassesOnwards(task, events, i)
    {
      RunInOrder(task, start, events, i);
    }
    MissedOnceIffOnwards(task, events, |events|);
  }

  /** A next time that a client brings itself may lie in the past: then an occurrence is recorded again. */
  lemma RawTimeIsRecordedTwice()
    ensures var hourly: Rule := t => Some(t + 3_600_000);
      var task := Task(true, Some(hourly), Some(0), None, [], Missed([], 0));
      var again := Configure(100_000, true, Some(hourly), Raw(Some(0)));
      After(task, [Due(100_000), again, Due(100_000)], 3).recorded == [0, 0]
  {
    var hourly: Rule := t => Some(t + 3_600_000);
    var task := Task(true, Some(hourly), Some(0), None, [], Missed([], 0));
    var events := [Due(100_000), Configure(100_000, true, Some(hourly), Raw(Some(0))), Due(100_000)];
    var turned := WithMissed(task, 0).(next := hourly(0));
    assert Walk(turned, hourly, 3_600_000, 100_000) == Walked(turned, [], false);
    assert DueTask(task, 100_000) == Prepend(0, Walked(turned, [], false));
    assert After(task, events, 0) == Walked(task, [], false);
    var one := After(task, events, 1);
    assert one.recorded == [0] && one.task.running.None?;
    var two := After(task, events, 2);
    assert two.recorded == [0] && two.task.next == Some(0) && two.task.rule == Some(hourly);
  }

  /** So may one that is computed from a clock that was set back. */
  lemma ClockStepIsRecordedTwice()
    ensures var hourly: Rule := t => Some(t + 3_600_000);
      var task := Task(true, Some(hourly), Some(3_600_000), None, [], Missed([], 0));
      var edit := Configure(0, true, Some(hourly), Anew);
      After(task, [Due(4_000_000), edit, Due(4_000_000)], 3).recorded == [3_600_000, 3_600_000]
  {
    var hourly: Rule := t => Some(t + 3_600_000);
    var task := Task(true, Some(hourly), Some(3_600_000), None, [], Missed([], 0));
    var events := [Due(4_000_000), Configure(0, true, Some(hourly), Anew), Due(4_000_000)];
    var turned := WithMissed(task, 3_600_000).(next := hourly(3_600_000));
    assert Walk(turned, hourly, 7_200_000, 4_000_000) == Walked(turned, [], false);
    assert DueTask(task, 4_000_000) == Prepend(3_600_000, Walked(turned, [], false));
    assert After(task, events, 0) == Walked(task, [], false);
    var one := After(task, events, 1);
    assert one.recorded == [3_600_000] && one.task.running.None?;
    var two := After(task, events, 2);
    assert two.recorded == [3_600_000] && two.task.next == Some(3_600_000) && two.task.rule == Some(hourly);
  }

  // ---- The time a run is entered under --------------------------------------------------------------------

  lemma {:induction false} AdmittedAt(task: Task, rule: Rule, next: int, now: int)
    requires task.next == Some(next) && Walk(task, rule, next, now).admitted
    ensures var w := Walk(task, rule, next, now);
      && task.running.None? && w.task.next.Some? && next <= w.task.next.value
      && (w.recorded == [] <==> w.task.next.value == next)
      && (w.recorded != [] ==> w.recorded[0] == next)
    decreases now - next
  {
    if !Stops(task, next, now) && rule(next).Some? && rule(next).value > next {
      AdmittedAt(WithMissed(task, next).(next := rule(next)), rule, rule(next).value, now);
    }
  }

  /** The walk records nothing before it admits exactly when it admits the occurrence it began with. */
  lemma RecordsNothingIffFresh(task: Task, now: int)
    requires DueTask(task, now).admitted
    ensures DueTask(task, now).recorded == [] <==> Fresh(task.next.value, now)
  {
    AdmittedAt(task, task.rule.value, task.next.value, now);
  }

  /**
   Main result: an automatic run is entered under the time of the occurrence that was admitted
   exactly when the task's next time, as it was stored before the call, is not older than the grace
   period. Otherwise the run is entered under an occurrence that was just recorded as missed.
   */
  lemma RunIsEnteredUnderItsTime(task: Task, now: int)
    requires RunTask(task, true, now, Starts).admitted
    ensures var w, due := RunTask(task, true, now, Starts), DueTask(task, now);
      && due.admitted && due.task.next.Some? && task.next.Some?
      && w.task.running == Some(w.task.runs[|w.task.runs| - 1])
      && (w.task.running == due.task.next <==> Fresh(task.next.value, now))
      && (!Fresh(task.next.value, now) ==> due.recorded != [] && w.task.running == Some(due.recorded[0]))
  {
    AdmittedAt(task, task.rule.value, task.next.value, now);
    RecordsNothingIffFresh(task, now);
  }

  /** Such a run of an hourly task: occurrence 0 is recorded as missed, the next hour is admitted, and 0 is entered. */
  lemma RunIsEnteredUnderMissedTime()
    ensures var rule: Rule := t => Some(t + 3_600_000);
      var task := Task(true, Some(rule), Some(0), None, [], Missed([], 0));
      var due, w := DueTask(task, 3_600_000), RunTask(task, true, 3_600_000, Starts);
      && due.recorded == [0] && due.admitted && due.task.next == Some(3_600_000)
      && w.admitted && w.task.running == Some(0) && w.task.missed.rows == [0]
  {
    var rule: Rule := t => Some(t + 3_600_000);
    var task := Task(true, Some(rule), Some(0), None, [], Missed([], 0));
    var turned := WithMissed(task, 0).(next := rule(0));
    assert Walk(turned, rule, 3_600_000, 3_600_000) == Walked(turned, [], true);
    assert Walk(task, rule, 0, 3_600_000) == Prepend(0, Walk(turned, rule, 3_600_000, 3_600_000));
  }
}
