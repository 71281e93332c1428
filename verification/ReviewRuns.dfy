/**
 Runs of the review store (crates/host-core/src/review.rs): any interleaving of
 captures, edits by tools or by the user, records, rollbacks and removals. A run
 remembers what each place really held when a snapshot was captured and when it
 was recorded, so that rollback can be judged against the facts and not against
 the metadata.
 */
module ReviewRuns {
  import opened Text
  import opened ReviewStore
  import opened Wrappers

  /** The node really found before the tool, and after it. */
  datatype Facts = Facts(place: Place, pre: Option<Node>, post: Option<Node>)

  datatype World = World(
    files: Files, pendings: map<SnapshotKey, Pending>, captured: map<SnapshotKey, Option<Node>>,
    snapshots: Snapshots, facts: map<SnapshotKey, Facts>)

  datatype Event =
    | Capture(key: SnapshotKey, message: string, place: Place, tool: string, pio: PrepareIo)
    | Change(where: Place, node: Option<Node>)
    | Record(key: SnapshotKey, fio: FinalizeIo)
    | RollBack(key: SnapshotKey, root: Option<string>, rio: RollbackIo)
    | Forget(session: string)

  /** Snapshot ids are fresh: a captured key is never captured again. */
  predicate Enabled(w: World, e: Event) {
    match e
    case Capture(key, _, _, _, _) => key !in w.captured
    case Record(key, _) => key in w.pendings
    case _ => true
  }

  function Step(h: Hash, w: World, e: Event): World
    requires Enabled(w, e)
  {
    match e
    case Capture(key, message, place, tool, io) =>
      if !Captures(key, tool, io) then w
      else w.(pendings :=
                w.pendings[key := Captured(h, w.files, key, message, place, ToolOperation(tool).value, io)],
              captured := w.captured[key := NodeAt(w.files, place)])
    case Change(where, node) => w.(files := Put(w.files, where, node))
    case Record(key, io) =>
      var p := w.pendings[key];
      var w' := w.(pendings := map k | k in w.pendings && k != key :: w.pendings[k]);
      if (IsFile(NodeAt(w.files, p.place)) && !io.hashOk) || !io.metaOk || key !in w.captured then w'
      else w'.(snapshots := w.snapshots[key := Recorded(h, w.files, p)],
               facts := w.facts[key := Facts(p.place, w.captured[key], NodeAt(w.files, p.place))])
    case RollBack(key, root, io) =>
      var r := Rollback(h, w.files, w.snapshots, key, root, io);
      w.(files := r.files, snapshots := r.snapshots)
    case Forget(session) =>
      w.(snapshots := map k | k in w.snapshots && k.session != session :: w.snapshots[k])
  }

  ghost predicate Injective(h: Hash) {
    forall x, y :: h(x) == h(y) ==> x == y
  }

  /** A name that is a single component of a path: ASCII letters, digits, hyphens and underscores. */
  predicate Plain(s: string) {
    s != "" && forall c :: c in s ==>
      'a' <= c <= 'z' || 'A' <= c <= 'Z' || '0' <= c <= '9' || c == '-' || c == '_'
  }

  predicate PlainKey(key: SnapshotKey) {
    Plain(key.session) && Plain(key.id)
  }

  predicate HexDigit(c: char) {
    '0' <= c <= '9' || 'a' <= c <= 'f'
  }

  /** The form of the ids the host makes: 36 characters, hexadecimal in groups of 8, 4, 4, 4 and 12. */
  predicate Minted(s: string) {
    |s| == 36 && forall i :: 0 <= i < 36 ==> if i in {8, 13, 18, 23} then s[i] == '-' else HexDigit(s[i])
  }

  lemma MintedIsPlain(s: string)
    requires Minted(s)
    ensures Plain(s)
  {
    forall c | c in s
      ensures HexDigit(c) || c == '-'
    {
      var i :| 0 <= i < |s| && s[i] == c;
      assert if i in {8, 13, 18, 23} then s[i] == '-' else HexDigit(s[i]);
    }
  }

  lemma PlainIsSafe(s: string)
    ensures Plain(s) <==> SafeComponent(s)
  {
    if SafeComponent(s) {
      forall c | c in s
        ensures 'a' <= c <= 'z' || 'A' <= c <= 'Z' || '0' <= c <= '9' || c == '-' || c == '_'
      {
        var i :| 0 <= i < |s| && s[i] == c;
      }
    } else {
      assert forall i :: 0 <= i < |s| ==> s[i] in s;
    }
  }

  /** The metadata tells the truth about the facts. */
  ghost predicate Truthful(h: Hash, key: SnapshotKey, s: Snapshot, f: Facts) {
    && PlainKey(key) && s.meta.session == key.session && s.meta.path == f.place.path
    && s.meta.beforeExists == IsFile(f.pre)
    && (s.copy.Some? ==> f.pre == Some(File(s.copy.value)) && |s.copy.value| <= 16_777_216)
    && s.meta.afterExists == IsFile(f.post)
    && s.meta.afterHash == (if IsFile(f.post) then Some(h(f.post.value.bytes)) else None)
    && s.meta.reversible == (if IsFile(f.pre) then s.copy.Some? else IsFile(f.post))
  }

  ghost predicate Inv(h: Hash, w: World) {
    && (forall k :: k in w.pendings ==>
          && k in w.captured && w.pendings[k].key == k && PlainKey(k) && k !in w.snapshots && k !in w.facts
          && w.pendings[k].beforeExists == IsFile(w.captured[k])
          && (w.pendings[k].copy.Some? ==>
                && w.captured[k] == Some(File(w.pendings[k].copy.value))
                && |w.pendings[k].copy.value| <= 16_777_216))
    && (forall k :: k in w.facts ==> k in w.captured)
    && (forall k :: k in w.snapshots ==> k in w.facts && Truthful(h, k, w.snapshots[k], w.facts[k]))
  }

  lemma StepKeepsInv(h: Hash, w: World, e: Event)
    requires Inv(h, w) && Enabled(w, e)
    ensures Inv(h, Step(h, w, e))
  {
    if e.RollBack? {
      SnapshotsAfter(h, w.files, w.snapshots, e.key, e.root, e.rio);
    } else if e.Record? {
      RecordKeepsInv(h, w, e.key, e.fio);
    } else if e.Capture? {
      PlainIsSafe(e.key.session);
      PlainIsSafe(e.key.id);
    }
  }

  lemma RecordKeepsInv(h: Hash, w: World, key: SnapshotKey, io: FinalizeIo)
    requires Inv(h, w) && key in w.pendings
    ensures Inv(h, Step(h, w, Record(key, io)))
  {
    var w' := Step(h, w, Record(key, io));
    assert key in w'.snapshots ==> Truthful(h, key, w'.snapshots[key], w'.facts[key]);
    forall k | k in w'.snapshots && k != key
      ensures k in w'.facts && Truthful(h, k, w'.snapshots[k], w'.facts[k])
    {
      assert w'.snapshots[k] == w.snapshots[k] && w'.facts[k] == w.facts[k];
    }
  }

  /** A rollback touches no snapshot but its own, and of that only the state. */
  lemma SnapshotsAfter(
    h: Hash, files: Files, snapshots: Snapshots, key: SnapshotKey, root: Option<string>, io: RollbackIo)
    ensures var r := Rollback(h, files, snapshots, key, root, io);
      && r.snapshots.Keys == snapshots.Keys
      && (forall k :: k in snapshots && k != key ==> r.snapshots[k] == snapshots[k])
      && (r.outcome == Done <==> r.snapshots != snapshots)
      && (r.outcome == Done ==>
            && key in snapshots && snapshots[key].meta.state == Active
            && r.snapshots[key] == snapshots[key].(meta := snapshots[key].meta.(state := RolledBack)))
  {
  }

  /** States a run can reach from a store without snapshots. */
  function Run(h: Hash, w: World, events: seq<Event>): Option<World>
    decreases |events|
  {
    if events == [] then Some(w)
    else if !Enabled(w, events[0]) then None
    else Run(h, Step(h, w, events[0]), events[1..])
  }

  predicate Fresh(w: World) {
    w.pendings == map[] && w.captured == map[] && w.snapshots == map[] && w.facts == map[]
  }

  /** A run from a store without snapshots leads here. */
  ghost predicate Reachable(h: Hash, w: World) {
    exists start, events :: Fresh(start) && Run(h, start, events) == Some(w)
  }

  lemma {:induction false} RunKeepsInv(h: Hash, w: World, events: seq<Event>)
    requires Inv(h, w) && Run(h, w, events).Some?
    ensures Inv(h, Run(h, w, events).value)
    decreases |events|
  {
    if events != [] {
      StepKeepsInv(h, w, events[0]);
      RunKeepsInv(h, Step(h, w, events[0]), events[1..]);
    }
  }

  /** Main result: in every reachable store the metadata of every snapshot is true to the facts. */
  lemma ReachableHasInv(h: Hash, w: World)
    requires Reachable(h, w)
    ensures Inv(h, w)
  {
    var start, events :| Fresh(start) && Run(h, start, events) == Some(w);
    RunKeepsInv(h, start, events);
  }

  // ---- Safety of one rollback -------------------------------------------------

  /** The place is as the tool left it: the same bytes, or still no file. */
  predicate AsToolLeft(now: Option<Node>, post: Option<Node>) {
    if IsFile(post) then now == post else !IsFile(now)
  }

  /** What a rollback may do to the place: the old bytes come back, or the created file goes. */
  function Restored(files: Files, target: Place, pre: Option<Node>): Files {
    Put(files, target, if IsFile(pre) then pre else None)
  }

  lemma PutNothing(files: Files, p: Place)
    requires p !in files
    ensures Put(files, p, None) == files
  {
  }

  /** The hash check never takes other bytes for the tool's. */
  lemma GuardIsSound(h: Hash, key: SnapshotKey, s: Snapshot, f: Facts, now: Option<Node>, hashOk: bool)
    requires Injective(h) && Truthful(h, key, s, f)
    ensures LooksUntouched(h, s.meta, now, hashOk) ==> AsToolLeft(now, f.post)
    ensures AsToolLeft(now, f.post) && hashOk ==> LooksUntouched(h, s.meta, now, hashOk)
  {
  }

  lemma UndoEffects(
    files: Files, snapshots: Snapshots, key: SnapshotKey, target: Place, io: RollbackIo, pre: Option<Node>)
    requires key in snapshots && snapshots[key].meta.beforeExists == IsFile(pre)
    requires snapshots[key].copy.Some? ==> pre == Some(File(snapshots[key].copy.value))
    ensures var r := Undo(files, snapshots, key, target, io);
      && (r.files == files || r.files == Restored(files, target, pre) ||
          (r.outcome == Failed && io.restore.Torn? && r.files == Put(files, target, Some(File(io.restore.left)))))
      && (r.outcome == Done ==>
            r.files == Restored(files, target, pre) && r.snapshots[key].meta.state == RolledBack)
      && (r.outcome != Done ==> r.snapshots == snapshots)
      && (r.outcome in {AlreadyRolledBack, Unavailable, Conflict} ==> r.files == files)
      && (r.outcome == Failed && io.metaOk && !io.restore.Torn? ==> r.files == files)
  {
    if target !in files { PutNothing(files, target); }
  }

  /** What a rollback may do. */
  ghost predicate SafeRollback(h: Hash, w: World, key: SnapshotKey, root: Option<string>, io: RollbackIo) {
    var r := Rollback(h, w.files, w.snapshots, key, root, io);
    // Nothing else changes, and nothing changes unless the place is as the tool left it.
    && (r.files != w.files ==>
          && key in w.snapshots && key in w.facts && w.snapshots[key].meta.state == Active && root.Some?
          && var target := Place(root.value, w.snapshots[key].meta.path);
             && AsToolLeft(NodeAt(w.files, target), w.facts[key].post)
             && (r.files == Restored(w.files, target, w.facts[key].pre) ||
                 (r.outcome == Failed && io.restore.Torn? &&
                  r.files == Put(w.files, target, Some(File(io.restore.left))))))
    // A reported success restored exactly the old bytes or absence.
    && (r.outcome == Done ==>
          && key in w.snapshots && key in w.facts && root.Some? && r.snapshots[key].meta.state == RolledBack
          && r.files == Restored(w.files, Place(root.value, w.snapshots[key].meta.path), w.facts[key].pre))
    // A refusal left every file alone; an error did too unless a write tore or its record was lost.
    && (r.outcome != Done ==> r.snapshots == w.snapshots)
    && (r.outcome in {AlreadyRolledBack, Unavailable, Conflict} ==> r.files == w.files)
    && (r.outcome == Failed && io.metaOk && !io.restore.Torn? ==> r.files == w.files)
  }

  /** Either a rollback is refused, or it passes its guard and does the part behind it. */
  lemma RollbackCases(
    h: Hash, files: Files, snapshots: Snapshots, key: SnapshotKey, root: Option<string>, io: RollbackIo)
    ensures var r := Rollback(h, files, snapshots, key, root, io);
      || (r.files == files && r.snapshots == snapshots && r.outcome != Done)
      || (&& key in snapshots && snapshots[key].meta.state == Active && root.Some?
          && var target := Place(root.value, snapshots[key].meta.path);
             && LooksUntouched(h, snapshots[key].meta, NodeAt(files, target), io.hashOk)
             && r == Undo(files, snapshots, key, target, io))
  {
  }

  lemma SafeFromInv(h: Hash, w: World, key: SnapshotKey, root: Option<string>, io: RollbackIo)
    requires Injective(h) && Inv(h, w)
    ensures SafeRollback(h, w, key, root, io)
  {
    RollbackCases(h, w.files, w.snapshots, key, root, io);
    var r := Rollback(h, w.files, w.snapshots, key, root, io);
    if !(r.files == w.files && r.snapshots == w.snapshots && r.outcome != Done) {
      var target := Place(root.value, w.snapshots[key].meta.path);
      GuardIsSound(h, key, w.snapshots[key], w.facts[key], NodeAt(w.files, target), io.hashOk);
      UndoEffects(w.files, w.snapshots, key, target, io, w.facts[key].pre);
    }
  }

  /** Main result: every rollback in every reachable store is safe. */
  lemma RollbackIsSafe(h: Hash, w: World, key: SnapshotKey, root: Option<string>, io: RollbackIo)
    requires Injective(h) && Reachable(h, w)
    ensures SafeRollback(h, w, key, root, io)
  {
    ReachableHasInv(h, w);
    SafeFromInv(h, w, key, root, io);
  }

  /** A key with another character in it, or with an empty part, names no snapshot. */
  lemma OtherKeysFail(
    h: Hash, files: Files, snapshots: Snapshots, key: SnapshotKey, root: Option<string>, io: RollbackIo)
    requires !PlainKey(key)
    ensures Rollback(h, files, snapshots, key, root, io) == RollbackResult(files, snapshots, Failed)
  {
    PlainIsSafe(key.session);
    PlainIsSafe(key.id);
  }

  /** The answer to a rollback, from what its place held before and after the tool and holds now. */
  ghost function Answer(w: World, key: SnapshotKey, root: Option<string>, io: RollbackIo): Outcome
    requires key in w.snapshots ==> key in w.facts
  {
    if key !in w.snapshots || Blank(w.snapshots[key].meta.message) then Failed
    else if w.snapshots[key].meta.state == RolledBack then AlreadyRolledBack
    else
      var (pre, post) := (w.facts[key].pre, w.facts[key].post);
      if root.None? || (if IsFile(pre) then w.snapshots[key].copy.None? else !IsFile(post)) then Unavailable
      else
        var now := NodeAt(w.files, Place(root.value, w.facts[key].place.path));
        if !AsToolLeft(now, post) || (IsFile(post) && !io.hashOk) then Conflict
        else if IsFile(pre) && (now == Some(Dir) || !io.restore.Whole?) then Failed
        else if !IsFile(pre) && !io.removeOk then Failed
        else if io.metaOk then Done
        else Failed
  }

  /** Main result: in every reachable store that is the answer of a rollback; so it succeeds
      exactly when the place is as the tool left it and the disk does its part. */
  lemma AnswerFollowsFacts(h: Hash, w: World, key: SnapshotKey, root: Option<string>, io: RollbackIo)
    requires Injective(h) && Reachable(h, w)
    ensures key in w.snapshots ==> key in w.facts && PlainKey(key)
    ensures Rollback(h, w.files, w.snapshots, key, root, io).outcome == Answer(w, key, root, io)
  {
    ReachableHasInv(h, w);
    PlainIsSafe(key.session);
    PlainIsSafe(key.id);
    if key in w.snapshots {
      KnownAnswer(h, w, key, root, io, w.snapshots[key], w.facts[key]);
    }
  }

  lemma KnownAnswer(
    h: Hash, w: World, key: SnapshotKey, root: Option<string>, io: RollbackIo, s: Snapshot, f: Facts)
    requires Injective(h) && key in w.snapshots && key in w.facts && s == w.snapshots[key] && f == w.facts[key]
    requires Truthful(h, key, s, f) && SafeComponent(key.session) && SafeComponent(key.id)
    ensures Rollback(h, w.files, w.snapshots, key, root, io).outcome == Answer(w, key, root, io)
  {
    if root.Some? {
      var now := NodeAt(w.files, Place(root.value, f.place.path));
      GuardIsSound(h, key, s, f, now, io.hashOk);
      assert LooksUntouched(h, s.meta, now, io.hashOk) <==> AsToolLeft(now, f.post) && (IsFile(f.post) ==> io.hashOk);
    }
  }

  /** A user edit in between is never overwritten; a rollback that could be done answers with a conflict. */
  lemma UserEditsSurvive(h: Hash, w: World, key: SnapshotKey, root: string, io: RollbackIo)
    requires Injective(h) && Reachable(h, w) && key in w.snapshots
    requires key in w.facts ==> !AsToolLeft(NodeAt(w.files, Place(root, w.snapshots[key].meta.path)), w.facts[key].post)
    ensures var meta := w.snapshots[key].meta;
      Rollback(h, w.files, w.snapshots, key, Some(root), io) == RollbackResult(w.files, w.snapshots,
        if Blank(meta.message) then Failed
        else if meta.state == RolledBack then AlreadyRolledBack
        else if !meta.reversible then Unavailable
        else Conflict)
  {
    ReachableHasInv(h, w);
    PlainIsSafe(key.session);
    PlainIsSafe(key.id);
    var target := Place(root, w.snapshots[key].meta.path);
    GuardIsSound(h, key, w.snapshots[key], w.facts[key], NodeAt(w.files, target), io.hashOk);
  }

  // ---- At most once -------------------------------------------------------------

  function Successes(h: Hash, w: World, events: seq<Event>, key: SnapshotKey): nat
    decreases |events|
  {
    if events == [] || !Enabled(w, events[0]) then 0
    else
      (if events[0].RollBack? && events[0].key == key &&
          Rollback(h, w.files, w.snapshots, key, events[0].root, events[0].rio).outcome == Done then 1 else 0)
      + Successes(h, Step(h, w, events[0]), events[1..], key)
  }

  /** The snapshot can no longer take effect. */
  ghost predicate Spent(w: World, key: SnapshotKey) {
    key in w.captured && key !in w.pendings &&
    (key in w.snapshots ==> w.snapshots[key].meta.state == RolledBack)
  }

  lemma SpentStep(h: Hash, w: World, e: Event, key: SnapshotKey)
    requires Enabled(w, e) && Spent(w, key)
    ensures Spent(Step(h, w, e), key)
    ensures e.RollBack? && e.key == key ==>
      Rollback(h, w.files, w.snapshots, key, e.root, e.rio).outcome != Done
  {
    if e.RollBack? {
      SnapshotsAfter(h, w.files, w.snapshots, e.key, e.root, e.rio);
    }
  }

  lemma {:induction false} SpentStays(h: Hash, w: World, events: seq<Event>, key: SnapshotKey)
    requires Spent(w, key)
    ensures Successes(h, w, events, key) == 0
    decreases |events|
  {
    if events != [] && Enabled(w, events[0]) {
      SpentStep(h, w, events[0], key);
      SpentStays(h, Step(h, w, events[0]), events[1..], key);
    }
  }

  lemma SuccessSpends(h: Hash, w: World, e: Event)
    requires Inv(h, w) && e.RollBack?
    requires Rollback(h, w.files, w.snapshots, e.key, e.root, e.rio).outcome == Done
    ensures Spent(Step(h, w, e), e.key)
  {
    SnapshotsAfter(h, w.files, w.snapshots, e.key, e.root, e.rio);
  }

  lemma {:induction false} AtMostOneSuccess(h: Hash, w: World, events: seq<Event>, key: SnapshotKey)
    requires Inv(h, w)
    ensures Successes(h, w, events, key) <= 1
    decreases |events|
  {
    if events != [] && Enabled(w, events[0]) {
      var e := events[0];
      StepKeepsInv(h, w, e);
      if e.RollBack? && e.key == key && Rollback(h, w.files, w.snapshots, key, e.root, e.rio).outcome == Done {
        SuccessSpends(h, w, e);
        SpentStays(h, Step(h, w, e), events[1..], key);
      } else {
        AtMostOneSuccess(h, Step(h, w, e), events[1..], key);
      }
    }
  }

  /** Main result: over any run, from any reachable store on, a snapshot is rolled back
      successfully at most once. */
  lemma RolledBackAtMostOnce(h: Hash, w: World, events: seq<Event>, key: SnapshotKey)
    requires Reachable(h, w)
    ensures Successes(h, w, events, key) <= 1
  {
    ReachableHasInv(h, w);
    AtMostOneSuccess(h, w, events, key);
  }

  const ALL_OK := RollbackIo(true, Whole, true, true)

  /** Where a rollback of this snapshot works. */
  function Target(w: World, key: SnapshotKey, root: string): Place
    requires key in w.snapshots
  {
    Place(root, w.snapshots[key].meta.path)
  }

  /** A rollback that changed a file leaves its snapshot as it was exactly when it could not finish. */
  lemma UnfinishedStaysActive(h: Hash, w: World, key: SnapshotKey, root: string, io: RollbackIo)
    requires Rollback(h, w.files, w.snapshots, key, Some(root), io).files != w.files
    ensures key in w.snapshots && w.snapshots[key].meta.state == Active
    ensures var r := Rollback(h, w.files, w.snapshots, key, Some(root), io);
      r.snapshots == w.snapshots <==> !io.metaOk || (w.snapshots[key].meta.beforeExists && io.restore.Torn?)
    ensures PlainKey(key) && w.snapshots[key].meta.reversible
    ensures w.snapshots[key].meta.session == key.session && !Blank(w.snapshots[key].meta.message)
    ensures w.snapshots[key].meta.beforeExists ==>
      w.snapshots[key].copy.Some? && |w.snapshots[key].copy.value| <= MAX_SNAPSHOT_BYTES
  {
    PlainIsSafe(key.session);
    PlainIsSafe(key.id);
    if key in w.snapshots {
      var meta := w.snapshots[key].meta;
      assert w.snapshots[key].(meta := meta.(state := RolledBack)).meta.state == RolledBack;
    }
  }

  /** With the tool's result back in its place, an active snapshot passes the guard. */
  lemma ActiveTakesEffect(h: Hash, w: World, key: SnapshotKey, root: string)
    requires Inv(h, w) && key in w.snapshots && w.snapshots[key].meta.state == Active
    requires PlainKey(key) && w.snapshots[key].meta.reversible
    requires w.snapshots[key].meta.session == key.session && !Blank(w.snapshots[key].meta.message)
    requires w.snapshots[key].meta.beforeExists ==>
      w.snapshots[key].copy.Some? && |w.snapshots[key].copy.value| <= MAX_SNAPSHOT_BYTES
    requires NodeAt(w.files, Target(w, key, root)) == if IsFile(w.facts[key].post) then w.facts[key].post else None
    ensures Rollback(h, w.files, w.snapshots, key, Some(root), ALL_OK).outcome == Done
  {
    PlainIsSafe(key.session);
    PlainIsSafe(key.id);
  }

  /** Main result: a rollback that changed the files can be made to take effect again exactly
      when it could not finish: its metadata could not be written, or the write of the
      old content tore. The snapshot is then still active, and whoever puts the tool's
      result back makes the guard pass once more. */
  lemma EffectRepeatsIffUnfinished(h: Hash, w: World, key: SnapshotKey, root: string, io: RollbackIo)
    requires Reachable(h, w)
    requires Rollback(h, w.files, w.snapshots, key, Some(root), io).files != w.files
    ensures key in w.snapshots
    ensures var w1 := Step(h, w, RollBack(key, Some(root), io));
      (exists node :: var w2 := Step(h, w1, Change(Target(w, key, root), node));
         Rollback(h, w2.files, w2.snapshots, key, Some(root), ALL_OK).outcome == Done)
      <==> !io.metaOk || (w.snapshots[key].meta.beforeExists && io.restore.Torn?)
  {
    ReachableHasInv(h, w);
    UnfinishedStaysActive(h, w, key, root, io);
    SnapshotsAfter(h, w.files, w.snapshots, key, Some(root), io);
    var w1 := Step(h, w, RollBack(key, Some(root), io));
    if w1.snapshots == w.snapshots {
      var node := if IsFile(w.facts[key].post) then w.facts[key].post else None;
      var w2 := Step(h, w1, Change(Target(w, key, root), node));
      StepKeepsInv(h, w, RollBack(key, Some(root), io));
      StepKeepsInv(h, w1, Change(Target(w, key, root), node));
      ActiveTakesEffect(h, w2, key, root);
    } else {
      forall node
        ensures var w2 := Step(h, w1, Change(Target(w, key, root), node));
          Rollback(h, w2.files, w2.snapshots, key, Some(root), ALL_OK).outcome != Done
      {
        var w2 := Step(h, w1, Change(Target(w, key, root), node));
        SnapshotsAfter(h, w2.files, w2.snapshots, key, Some(root), ALL_OK);
      }
    }
  }

  /** Such a loss, concretely: the file a tool created is removed twice by one snapshot. */
  lemma RecordLossRemovesTwice(h: Hash, session: string, id: string, b: Bytes)
    requires Plain(session) && Minted(id)
    ensures Plain(id)
    ensures var key := SnapshotKey(session, id); var p := Place("r", "a");
      var made := AfterCall(h, World(map[], map[], map[], map[], map[]), ToolCall(key, "m", p, "Write", Some(File(b))));
      var lost := Step(h, made, RollBack(key, Some("r"), ALL_OK.(metaOk := false)));
      var again := Step(h, lost, Change(p, Some(File(b))));
      var end := Step(h, again, RollBack(key, Some("r"), ALL_OK));
      p in made.files && p !in lost.files && p in again.files && p !in end.files
  {
    MintedIsPlain(id);
    PlainIsSafe(session);
    PlainIsSafe(id);
    var key := SnapshotKey(session, id);
    var made := AfterCall(h, World(map[], map[], map[], map[], map[]),
                          ToolCall(key, "m", Place("r", "a"), "Write", Some(File(b))));
    assert !IsWhitespace("m"[0]);
    assert made.snapshots[key].meta.reversible && !Blank("m");
  }

  /** And such a tear: the file is overwritten with something else, the snapshot is still
      active, and once the tool's bytes are back it overwrites the file again. */
  lemma TornRestoreWritesTwice(h: Hash, session: string, id: string, old_: Bytes, new_: Bytes, left: Bytes)
    requires Plain(session) && Minted(id) && |old_| <= 16_777_216
    ensures Plain(id)
    ensures var key := SnapshotKey(session, id); var p := Place("r", "a");
      var start := World(map[p := File(old_)], map[], map[], map[], map[]);
      var made := AfterCall(h, start, ToolCall(key, "m", p, "Write", Some(File(new_))));
      var torn := Step(h, made, RollBack(key, Some("r"), ALL_OK.(restore := Torn(left))));
      var again := Step(h, torn, Change(p, Some(File(new_))));
      && torn.files == map[p := File(left)] && torn.snapshots == made.snapshots
      && Rollback(h, again.files, again.snapshots, key, Some("r"), ALL_OK).outcome == Done
      && Rollback(h, again.files, again.snapshots, key, Some("r"), ALL_OK).files == map[p := File(old_)]
  {
    MintedIsPlain(id);
    PlainIsSafe(session);
    PlainIsSafe(id);
    var key, p := SnapshotKey(session, id), Place("r", "a");
    var start := World(map[p := File(old_)], map[], map[], map[], map[]);
    var c := ToolCall(key, "m", p, "Write", Some(File(new_)));
    assert !IsWhitespace("m"[0]);
    assert !Blank("m");
    CallLeaves(h, start, c);
    var made := AfterCall(h, start, c);
    assert made.files == map[p := File(new_)];
  }

  // ---- Undoing a chain ------------------------------------------------------------

  /** One tool call on a file: captured, changed and recorded without a failure. */
  datatype ToolCall = ToolCall(
    key: SnapshotKey, message: string, place: Place, tool: string, result: Option<Node>)

  function AfterCall(h: Hash, w: World, c: ToolCall): World
    requires PlainKey(c.key) && (c.tool == "Write" || c.tool == "Edit") && c.key !in w.captured
  {
    PlainIsSafe(c.key.session);
    PlainIsSafe(c.key.id);
    var w1 := Step(h, w, Capture(c.key, c.message, c.place, c.tool, PrepareIo(true, true, true)));
    var w2 := Step(h, w1, Change(c.place, c.result));
    Step(h, w2, Record(c.key, FinalizeIo(true, true)))
  }

  /** A reversible call: an existing file of at most 16 MiB, or a new file. */
  predicate Undoable(w: World, c: ToolCall) {
    && PlainKey(c.key) && (c.tool == "Write" || c.tool == "Edit") && !Blank(c.message)
    && c.key !in w.captured
    && NodeAt(w.files, c.place) != Some(Dir) && c.result != Some(Dir)
    && (c.place in w.files || c.result.Some?)
    && (c.place in w.files ==> |w.files[c.place].bytes| <= 16_777_216)
  }

  /** The snapshot a reversible call leaves behind at a place that held `was`. */
  function LeftBy(h: Hash, was: Option<Node>, c: ToolCall): Snapshot {
    Snapshot(
      Meta(c.key.session, c.message, c.place.path, if c.tool == "Write" then Write else Edit, IsFile(was),
           if IsFile(was) then Some(h(was.value.bytes)) else None,
           IsFile(c.result), if IsFile(c.result) then Some(h(c.result.value.bytes)) else None, true, Active),
      if IsFile(was) then Some(was.value.bytes) else None)
  }

  lemma CallLeaves(h: Hash, w: World, c: ToolCall)
    requires Undoable(w, c)
    ensures var w' := AfterCall(h, w, c); var was := NodeAt(w.files, c.place);
      && w'.files == Put(w.files, c.place, c.result)
      && w'.captured == w.captured[c.key := was]
      && w'.snapshots == w.snapshots[c.key := LeftBy(h, was, c)]
  {
    PlainIsSafe(c.key.session);
    PlainIsSafe(c.key.id);
  }

  /** Putting back what a place held undoes putting something there. */
  lemma PutTwice(files: Files, p: Place, n: Option<Node>)
    ensures Put(Put(files, p, n), p, NodeAt(files, p)) == files
  {
    if p !in files {
      assert Put(Put(files, p, n), p, None) == files;
    } else {
      assert Put(files, p, n)[p := files[p]] == files;
    }
  }

  /** One call undone, among the files and snapshots it left. */
  lemma UndoOne(h: Hash, w: World, c: ToolCall, files: Files, snapshots: Snapshots)
    requires Undoable(w, c) && files == Put(w.files, c.place, c.result)
    requires c.key in snapshots && snapshots[c.key] == LeftBy(h, NodeAt(w.files, c.place), c)
    ensures var r := Rollback(h, files, snapshots, c.key, Some(c.place.root), ALL_OK);
      r.outcome == Done && r.files == w.files
  {
    PlainIsSafe(c.key.session);
    PlainIsSafe(c.key.id);
    PutTwice(w.files, c.place, c.result);
    assert NodeAt(files, c.place) == c.result && Place(c.place.root, c.place.path) == c.place;
    assert Rollback(h, files, snapshots, c.key, Some(c.place.root), ALL_OK)
        == Undo(files, snapshots, c.key, c.place, ALL_OK);
  }

  // The chain, with what one call and one undoing do as parameters.

  type Doing = (World, ToolCall) -> World

  function DoneBy(can: (World, ToolCall) -> bool, does: Doing, w: World, calls: seq<ToolCall>): Option<World>
    decreases |calls|
  {
    if calls == [] then Some(w)
    else if !can(w, calls[0]) then None
    else DoneBy(can, does, does(w, calls[0]), calls[1..])
  }

  function UndoneBy(undoes: Doing, w: World, calls: seq<ToolCall>): World {
    if calls == [] then w else undoes(UndoneBy(undoes, w, calls[1..]), calls[0])
  }

  predicate KeepsSnapshot(w: World, w': World, key: SnapshotKey) {
    key in w.snapshots && key in w'.snapshots && w'.snapshots[key] == w.snapshots[key]
  }

  predicate AddsOne(w: World, w': World, key: SnapshotKey) {
    && key !in w.captured && key in w'.captured && key in w'.snapshots
    && (forall k :: k in w.captured ==> k in w'.captured)
    && (forall k :: k in w.captured && k in w.snapshots ==> KeepsSnapshot(w, w', k))
  }

  /** Each call adds one snapshot under a new key. */
  ghost predicate OneByOne(can: (World, ToolCall) -> bool, does: Doing) {
    forall w, c {:trigger does(w, c)} :: can(w, c) ==> AddsOne(w, does(w, c), c.key)
  }

  /** Undoing a call changes no other snapshot. */
  ghost predicate KeepsOthers(undoes: Doing) {
    forall w: World, c: ToolCall, key {:trigger undoes(w, c), key in w.snapshots} ::
      key in w.snapshots && key != c.key ==> KeepsSnapshot(w, undoes(w, c), key)
  }

  /** Undoing a call in any world with its files and its snapshot gives back the files before it. */
  ghost predicate UndoesEach(can: (World, ToolCall) -> bool, does: Doing, undoes: Doing) {
    forall w: World, c: ToolCall, later: World {:trigger does(w, c), undoes(later, c)} ::
      can(w, c) && later.files == does(w, c).files && KeepsSnapshot(does(w, c), later, c.key)
      ==> undoes(later, c).files == w.files
  }

  lemma {:induction false} KeepsForward(
    can: (World, ToolCall) -> bool, does: Doing, w: World, calls: seq<ToolCall>, key: SnapshotKey)
    requires OneByOne(can, does) && DoneBy(can, does, w, calls).Some?
    requires key in w.captured && key in w.snapshots
    ensures KeepsSnapshot(w, DoneBy(can, does, w, calls).value, key)
    decreases |calls|
  {
    if calls != [] {
      KeepsForward(can, does, does(w, calls[0]), calls[1..], key);
    }
  }

  lemma {:induction false} KeepsBack(
    can: (World, ToolCall) -> bool, does: Doing, undoes: Doing, w: World, end: World, calls: seq<ToolCall>,
    key: SnapshotKey)
    requires OneByOne(can, does) && KeepsOthers(undoes) && DoneBy(can, does, w, calls).Some?
    requires key in w.captured && key in end.snapshots
    ensures KeepsSnapshot(end, UndoneBy(undoes, end, calls), key)
    decreases |calls|
  {
    if calls != [] {
      KeepsBack(can, does, undoes, does(w, calls[0]), end, calls[1..], key);
      var rest := UndoneBy(undoes, end, calls[1..]);
      assert KeepsSnapshot(rest, undoes(rest, calls[0]), key);
    }
  }

  lemma {:induction false} ChainUndone(
    can: (World, ToolCall) -> bool, does: Doing, undoes: Doing, w: World, calls: seq<ToolCall>)
    requires OneByOne(can, does) && KeepsOthers(undoes) && UndoesEach(can, does, undoes)
    requires DoneBy(can, does, w, calls).Some?
    ensures UndoneBy(undoes, DoneBy(can, does, w, calls).value, calls).files == w.files
    ensures calls != [] ==>
      var w1, rest := does(w, calls[0]), UndoneBy(undoes, DoneBy(can, does, w, calls).value, calls[1..]);
      rest.files == w1.files && KeepsSnapshot(w1, rest, calls[0].key)
    decreases |calls|
  {
    if calls != [] {
      var c, w1 := calls[0], does(w, calls[0]);
      var end := DoneBy(can, does, w, calls).value;
      ChainUndone(can, does, undoes, w1, calls[1..]);
      KeepsForward(can, does, w1, calls[1..], c.key);
      KeepsBack(can, does, undoes, w1, end, calls[1..], c.key);
      assert undoes(UndoneBy(undoes, end, calls[1..]), c).files == w.files;
    }
  }

  // Calls of tools, and rollbacks.

  function Calling(h: Hash): Doing {
    (w: World, c: ToolCall) => if Undoable(w, c) then AfterCall(h, w, c) else w
  }

  function RollingBack(h: Hash): Doing {
    (w: World, c: ToolCall) => Step(h, w, RollBack(c.key, Some(c.place.root), ALL_OK))
  }

  /** The world after a chain of reversible calls, if they all are. */
  function AfterCalls(h: Hash, w: World, calls: seq<ToolCall>): Option<World> {
    DoneBy(Undoable, Calling(h), w, calls)
  }

  /** Rolls the calls back, last one first. */
  function UndoAll(h: Hash, w: World, calls: seq<ToolCall>): World {
    UndoneBy(RollingBack(h), w, calls)
  }

  lemma CallAddsOne(h: Hash, w: World, c: ToolCall)
    requires Undoable(w, c)
    ensures AddsOne(w, AfterCall(h, w, c), c.key)
  {
    CallLeaves(h, w, c);
  }

  lemma CallsAreOneByOne(h: Hash)
    ensures OneByOne(Undoable, Calling(h))
  {
    forall w, c | Undoable(w, c)
      ensures AddsOne(w, AfterCall(h, w, c), c.key)
    {
      CallAddsOne(h, w, c);
    }
  }

  lemma RollbacksKeepOthers(h: Hash)
    ensures KeepsOthers(RollingBack(h))
  {
    forall w: World, c: ToolCall, key | key in w.snapshots && key != c.key
      ensures KeepsSnapshot(w, Step(h, w, RollBack(c.key, Some(c.place.root), ALL_OK)), key)
    {
      SnapshotsAfter(h, w.files, w.snapshots, c.key, Some(c.place.root), ALL_OK);
    }
  }

  lemma UndoLater(h: Hash, w: World, c: ToolCall, later: World)
    requires Undoable(w, c) && later.files == AfterCall(h, w, c).files
    requires KeepsSnapshot(AfterCall(h, w, c), later, c.key)
    ensures var r := Rollback(h, later.files, later.snapshots, c.key, Some(c.place.root), ALL_OK);
      r.outcome == Done && r.files == w.files
  {
    CallLeaves(h, w, c);
    UndoOne(h, w, c, later.files, later.snapshots);
  }

  lemma RollbacksUndoEach(h: Hash)
    ensures UndoesEach(Undoable, Calling(h), RollingBack(h))
  {
    forall w: World, c: ToolCall, later: World | Undoable(w, c) && later.files == AfterCall(h, w, c).files
                         && KeepsSnapshot(AfterCall(h, w, c), later, c.key)
      ensures Step(h, later, RollBack(c.key, Some(c.place.root), ALL_OK)).files == w.files
    {
      UndoLater(h, w, c, later);
    }
  }

  /** Main result: undoing any chain of reversible changes, last first, gives back
      the original files, every rollback of the chain reporting success. */
  lemma UndoChainRestores(h: Hash, w: World, calls: seq<ToolCall>)
    requires AfterCalls(h, w, calls).Some?
    ensures UndoAll(h, AfterCalls(h, w, calls).value, calls).files == w.files
    ensures calls != [] ==>
      var rest := UndoAll(h, AfterCalls(h, w, calls).value, calls[1..]);
      Rollback(h, rest.files, rest.snapshots, calls[0].key, Some(calls[0].place.root), ALL_OK).outcome == Done
  {
    CallsAreOneByOne(h);
    RollbacksKeepOthers(h);
    RollbacksUndoEach(h);
    ChainUndone(Undoable, Calling(h), RollingBack(h), w, calls);
    if calls != [] {
      UndoLater(h, w, calls[0], UndoAll(h, AfterCalls(h, w, calls).value, calls[1..]));
    }
  }
}
