/**
 Who writes what in the approval pipeline (crates/host-core/src/plans.rs), in terms of the
 words that callers use: the exact conditions under which an operation is accepted, the rows it
 leaves, and, over any run, where the mode and the permission of a session come from.
 */
module PlanEffects {
  import opened Text
  import opened Plans
  import opened PlanRuns
  import opened Wrappers

  // ---- Sessions -------------------------------------------------------------------

  function Lookup(db: Database, s: Id): Option<Session> {
    if s in db.sessions then Some(db.sessions[s]) else None
  }

  /** The mode that a configuration asks for. */
  function ModeNamed(name: string): Mode {
    match name
    case "plan" => Contract(Plan)
    case "chat" => Contract(Plan)
    case "goal" => Contract(Goal)
    case _ => Agent
  }

  /** The decision approves a proposal that was still pending. */
  ghost predicate Approves(h: string -> string, db: Database, r: Resolution, io: ResolveIo) {
    && r.proposal in db.approvals && db.approvals[r.proposal].status == Pending
    && r.action == "approve" && Resolve(h, db, r, io).1.Ok?
  }

  /** The mode an operation brings to a session. */
  ghost function ModeBrought(h: string -> string, db: Database, op: Op, s: Id): Option<Mode> {
    match op
    case CreateSession(session, row) => if session == s && s !in db.sessions then Some(row.mode) else None
    case DoEnter(session, turn, call, kindName, commit) =>
      if session == s && Enter(db, session, turn, call, kindName, commit).1.Ok?
      then Some(if kindName == "goal" then Contract(Goal) else Contract(Plan)) else None
    case DoResolve(r, io) => if r.session == s && Approves(h, db, r, io) then Some(Agent) else None
    case DoConfigure(session, settings, now, expire) =>
      if session == s && s in db.sessions && Configure(db, session, settings, now, expire).1.Ok?
      then Some(ModeNamed(settings.mode)) else None
    case _ => None
  }

  /** The permission an operation brings to a session. */
  ghost function PermissionBrought(h: string -> string, db: Database, op: Op, s: Id): Option<string> {
    match op
    case CreateSession(session, row) => if session == s && s !in db.sessions then Some(row.permission) else None
    case DoResolve(r, io) => if r.session == s && Approves(h, db, r, io) then r.target else None
    case DoConfigure(session, settings, now, expire) =>
      if session == s && s in db.sessions && Configure(db, session, settings, now, expire).1.Ok?
      then settings.permission else None
    case _ => None
  }

  function OrElse<T>(first: Option<T>, second: T): T {
    if first.Some? then first.value else second
  }

  /** A session before and after an operation that brings this mode and this permission. */
  predicate Changes(was: Option<Session>, mode: Option<Mode>, permission: Option<string>, now: Option<Session>) {
    match (was, now)
    case (Some(w), Some(n)) => n.mode == OrElse(mode, w.mode) && n.permission == OrElse(permission, w.permission)
    case (Some(_), None) => false
    case (None, Some(n)) => mode == Some(n.mode) && permission == Some(n.permission)
    case (None, None) => mode.None? && permission.None?
  }

  lemma RefusedChanges(h: string -> string, db: Database, r: Resolution, io: ResolveIo)
    requires Resolve(h, db, r, io).1.Err? || (r.proposal in db.approvals ==> db.approvals[r.proposal].status != Pending)
    ensures Resolve(h, db, r, io).0.sessions == db.sessions
  {
  }

  lemma ApprovalChanges(h: string -> string, db: Database, r: Resolution, io: ResolveIo, s: Id)
    requires Inv(db) && Injective(h) && Anchored(h, db.approvals) && Approves(h, db, r, io)
    ensures r.target.Some? && r.session in db.sessions
    ensures Changes(Lookup(db, s),
                    if r.session == s then Some(Agent) else None, if r.session == s then r.target else None,
                    Lookup(Resolve(h, db, r, io).0, s))
  {
    var p := db.approvals[r.proposal];
    DecidedIffFits(h, db, r, io, p);
    DecisionsAreSound(h, db, r, io, p);
  }

  lemma RejectionChanges(h: string -> string, db: Database, r: Resolution, io: ResolveIo)
    requires Inv(db) && Injective(h) && Anchored(h, db.approvals) && !Approves(h, db, r, io)
    ensures Resolve(h, db, r, io).0.sessions == db.sessions
  {
    if r.proposal in db.approvals && db.approvals[r.proposal].status == Pending && Resolve(h, db, r, io).1.Ok? {
      DecisionsAreSound(h, db, r, io, db.approvals[r.proposal]);
    } else {
      RefusedChanges(h, db, r, io);
    }
  }

  lemma EnterChanges(
    db: Database, session: Id, turn: Id, call: Id, kindName: string, commit: bool, s: Id)
    ensures var (db', reply) := Enter(db, session, turn, call, kindName, commit);
      Changes(Lookup(db, s),
              if session == s && reply.Ok?
              then Some(if kindName == "goal" then Contract(Goal) else Contract(Plan)) else None,
              None, Lookup(db', s))
  {
  }

  lemma ConfigureChanges(db: Database, session: Id, settings: Settings, now: int, expire: bool, s: Id)
    ensures var (db', reply) := Configure(db, session, settings, now, expire);
      var written := session == s && s in db.sessions && reply.Ok?;
      Changes(Lookup(db, s), if written then Some(ModeNamed(settings.mode)) else None,
              if written then settings.permission else None, Lookup(db', s))
  {
  }

  /** Any other operation brings nothing to a session that is there. */
  lemma OtherChanges(h: string -> string, db: Database, op: Op, s: Id)
    requires !op.DoEnter? && !op.DoResolve? && !op.DoConfigure?
    ensures Changes(Lookup(db, s), ModeBrought(h, db, op, s), PermissionBrought(h, db, op, s),
                    Lookup(Apply(h, db, op), s))
  {
  }

  lemma StepChanges(h: string -> string, db: Database, op: Op, s: Id)
    requires Inv(db) && Injective(h) && Anchored(h, db.approvals)
    ensures Changes(Lookup(db, s), ModeBrought(h, db, op, s), PermissionBrought(h, db, op, s),
                    Lookup(Apply(h, db, op), s))
  {
    match op
    case DoEnter(session, turn, call, kindName, commit) =>
      EnterChanges(db, session, turn, call, kindName, commit, s);
    case DoResolve(r, io) =>
      if Approves(h, db, r, io) {
        ApprovalChanges(h, db, r, io, s);
      } else {
        RejectionChanges(h, db, r, io);
      }
    case DoConfigure(session, settings, now, expire) => ConfigureChanges(db, session, settings, now, expire, s);
    case _ => OtherChanges(h, db, op, s);
  }

  // ---- Over runs ------------------------------------------------------------------------

  /** The last mode that a run brings to a session. */
  ghost function LastMode(h: string -> string, db: Database, ops: seq<Op>, s: Id): Option<Mode>
    decreases |ops|
  {
    if ops == [] then None
    else
      var later := LastMode(h, Apply(h, db, ops[0]), ops[1..], s);
      if later.Some? then later else ModeBrought(h, db, ops[0], s)
  }

  ghost function LastPermission(h: string -> string, db: Database, ops: seq<Op>, s: Id): Option<string>
    decreases |ops|
  {
    if ops == [] then None
    else
      var later := LastPermission(h, Apply(h, db, ops[0]), ops[1..], s);
      if later.Some? then later else PermissionBrought(h, db, ops[0], s)
  }

  lemma {:induction false} RunChanges(h: string -> string, db: Database, ops: seq<Op>, s: Id)
    requires Inv(db) && Injective(h) && Anchored(h, db.approvals)
    ensures Changes(Lookup(db, s), LastMode(h, db, ops, s), LastPermission(h, db, ops, s), Lookup(Run(h, db, ops), s))
    decreases |ops|
  {
    if ops != [] {
      var next := Apply(h, db, ops[0]);
      EveryStep(h, db, ops[0], Middle(db, ops[0]), next);
      StepForward(h, db, Middle(db, ops[0]), next);
      StepChanges(h, db, ops[0], s);
      RunChanges(h, next, ops[1..], s);
    }
  }

  /** Main result: over any run from an empty database, the permission of a session is the one brought by
      its last approval or configuration that named one, or by its creation; its mode is the one
      brought by its last entry, approval or configuration, or by its creation. */
  lemma SessionsKeepWhatWasBrought(h: string -> string, ops: seq<Op>, s: Id)
    requires Injective(h)
    ensures var end := Run(h, EMPTY_DATABASE, ops);
      var (mode, permission) := (LastMode(h, EMPTY_DATABASE, ops, s), LastPermission(h, EMPTY_DATABASE, ops, s));
      if s in end.sessions then mode == Some(end.sessions[s].mode) && permission == Some(end.sessions[s].permission)
      else mode.None? && permission.None?
  {
    RunChanges(h, EMPTY_DATABASE, ops, s);
  }

  // ---- What may change a session ------------------------------------------------------------

  /** A proposal still waits for its decision at this time. */
  predicate Awaited(p: Proposal, now: int) {
    p.status == Pending && now < p.expiresAt
  }

  predicate UnderWay(p: Proposal) {
    p.state == Some(Queued) || p.state == Some(Running)
  }

  /** A session is at rest: nothing awaits a decision, is queued or running, and no turn runs. */
  ghost predicate AtRest(db: Database, session: Id, now: int) {
    && (forall q :: q in db.approvals && db.approvals[q].session == session ==>
          !Awaited(db.approvals[q], now) && !UnderWay(db.approvals[q]))
    && (forall t :: t in db.turns && db.turns[t].session == session ==> !db.turns[t].running)
  }

  /** The row that a configuration asks for. */
  function Wanted(s: Session, r: Settings): Session {
    Session(ModeNamed(r.mode),
            if r.provider.Some? then r.provider else s.provider, if r.model.Some? then r.model else s.model,
            OrElse(r.thinking, s.thinking), OrElse(r.permission, s.permission))
  }

  /** Main result: a configuration that would change a session is refused exactly when the session is
      not at rest; otherwise the session becomes what was asked for. */
  lemma ConfiguredIffAtRest(db: Database, session: Id, r: Settings, now: int)
    requires session in db.sessions
    ensures var (db', reply) := Configure(db, session, r, now, true); var was := db.sessions[session];
      if Wanted(was, r) == was || AtRest(db, session, now)
      then reply == Ok(()) && db'.sessions == db.sessions[session := Wanted(was, r)]
      else reply == Err(ConfigurationBlocked) && db'.sessions == db.sessions
  {
    var mid := Expire(db, now);
    assert Configured(db.sessions[session], r) == Wanted(db.sessions[session], r);
    assert forall q :: q in db.approvals ==>
      && mid.approvals[q].session == db.approvals[q].session
      && (mid.approvals[q].status == Pending <==> Awaited(db.approvals[q], now))
      && (Active(mid.approvals[q]) <==> UnderWay(db.approvals[q]));
    assert mid.approvals.Keys == db.approvals.Keys;
  }

  /** Main result: a session enters a contract mode exactly when all identifiers are given, the kind is
      known, the session is in Agent mode with this turn running, and no execution of it is
      queued or running. */
  lemma EntersIff(db: Database, session: Id, turn: Id, call: Id, kindName: string)
    ensures Enter(db, session, turn, call, kindName, true).1.Ok? <==>
      && !Blank(session) && !Blank(turn) && !Blank(call) && (kindName == "plan" || kindName == "goal")
      && session in db.sessions && db.sessions[session].mode == Agent
      && turn in db.turns && db.turns[turn] == Turn(session, true)
      && forall q :: q in db.approvals && db.approvals[q].session == session ==> !UnderWay(db.approvals[q])
  {
  }

  // ---- The reasons for a refusal -------------------------------------------------------------

  /** Why a decision on a proposal is refused, as far as its words and the time tell. */
  function WordsRefused(p: Proposal, r: Resolution, now: int): Option<Error> {
    if r.session != p.session || r.turn != p.turn || r.call != p.call then Some(ApprovalStale)
    else if r.action != "approve" && r.action != "reject" then Some(InvalidAction)
    else if p.status == Expired || (p.status == Pending && p.expiresAt <= now) then Some(ApprovalTimeout)
    else if r.action == "approve" && r.target.None? then Some(PermissionModeRequired)
    else if r.action == "approve" && r.target.value !in {"ask", "accept-edits", "auto"} then Some(PermissionModeInvalid)
    else None
  }

  /** Why a decision on an awaited proposal is refused after that. */
  ghost function FactsRefused(db: Database, p: Proposal, r: Resolution, io: ResolveIo): Option<Error> {
    if r.version.Some? && r.version.value != 1 then Some(ApprovalStale)
    else if r.action == "approve" && !r.workspace then Some(WorkspaceRequired)
    else if r.action == "approve" && p.artifact.path !in db.files then Some(ArtifactNotReady)
    else if r.action == "approve" && db.files[p.artifact.path] != p.plan then Some(ArtifactHashMismatch)
    else if p.expiresAt <= io.now2 then Some(ApprovalStale)
    else if r.action == "approve" && exists q :: q in db.approvals && db.approvals[q].execution == Some(io.execution)
      then Some(Storage)
    else if !io.commit then Some(Storage)
    else None
  }

  predicate SameDecision(p: Proposal, r: Resolution) {
    if r.action == "approve" then p.action == Some(Approve) && p.target == r.target else p.action == Some(Reject)
  }

  /** The answer to a decision, from the facts. */
  ghost function Answer(db: Database, r: Resolution, io: ResolveIo): Reply<Id> {
    if r.proposal !in db.approvals then Err(NotFound)
    else
      var p := db.approvals[r.proposal];
      var words := WordsRefused(p, r, io.now1);
      if words.Some? then Err(words.value)
      else if p.status != Pending then (if SameDecision(p, r) then Ok(r.proposal) else Err(ApprovalConflict))
      else
        var facts := FactsRefused(db, p, r, io);
        if facts.Some? then Err(facts.value) else Ok(r.proposal)
  }

  lemma WordsDecide(p: Proposal, r: Resolution, now: int)
    requires p.status == Pending ==> now < p.expiresAt
    ensures match WordsRefused(p, r, now)
      case Some(e) => Decide(p, r) == Err(e)
      case None =>
        && (r.action == "approve" ==> r.target.Some? && Decide(p, r) == Ok((Approve, r.target)))
        && (r.action == "reject" ==> Decide(p, r) == Ok((Reject, None)))
        && (r.action == "approve" || r.action == "reject")
  {
  }

  lemma VerifiedBy(h: string -> string, files: Files, p: Proposal)
    requires Injective(h) && HoldsPlan(h, p)
    ensures VerifyArtifact(h, files, p.artifact)
      == if p.artifact.path !in files then Some(ArtifactNotReady)
         else if files[p.artifact.path] != p.plan then Some(ArtifactHashMismatch) else None
  {
  }

  lemma LiveAnswer(h: string -> string, db: Database, r: Resolution, io: ResolveIo, p: Proposal)
    requires Injective(h) && HoldsPlan(h, p) && r.proposal in db.approvals && p == db.approvals[r.proposal]
    requires WordsRefused(p, r, io.now1).None? && p.status == Pending && p.version == 1
    requires p.session in db.sessions && db.sessions[p.session].mode == Contract(p.kind)
    requires !HasActive(db.approvals, p.session)
    ensures ResolveLive(h, db, r, io).1
      == match FactsRefused(db, p, r, io) case Some(e) => Err(e) case None => Ok(r.proposal)
  {
    WordsDecide(p, r, io.now1);
    VerifiedBy(h, db.files, p);
  }

  lemma SettledAnswer(h: string -> string, db: Database, r: Resolution, io: ResolveIo, p: Proposal)
    requires r.proposal in db.approvals && p == db.approvals[r.proposal]
    requires p.status != Pending || WordsRefused(p, r, io.now1).Some?
    requires p.status == Pending ==> io.now1 < p.expiresAt
    ensures ResolveLive(h, db, r, io).1 == match WordsRefused(p, r, io.now1)
      case Some(e) => Err(e)
      case None => if SameDecision(p, r) then Ok(r.proposal) else Err(ApprovalConflict)
  {
    WordsDecide(p, r, io.now1);
  }

  lemma OverdueAnswer(h: string -> string, db: Database, r: Resolution, io: ResolveIo, p: Proposal)
    requires r.proposal in db.approvals && p == db.approvals[r.proposal] && p.status == Pending
    requires p.expiresAt <= io.now1
    ensures ResolveLive(h, Expire(db, io.now1), r, io).1
      == match WordsRefused(p, r, io.now1) case Some(e) => Err(e) case None => Ok(r.proposal)
    ensures WordsRefused(p, r, io.now1).Some?
  {
    var q := Expire(db, io.now1).approvals[r.proposal];
    assert WordsRefused(q, r, io.now1) == WordsRefused(p, r, io.now1);
    SettledAnswer(h, Expire(db, io.now1), r, io, q);
  }

  lemma AwaitedAnswer(h: string -> string, db: Database, r: Resolution, io: ResolveIo, p: Proposal)
    requires Inv(db) && Injective(h) && Anchored(h, db.approvals)
    requires r.proposal in db.approvals && p == db.approvals[r.proposal]
    requires Awaited(p, io.now1) && WordsRefused(p, r, io.now1).None?
    ensures ResolveLive(h, Expire(db, io.now1), r, io).1
      == match FactsRefused(db, p, r, io) case Some(e) => Err(e) case None => Ok(r.proposal)
  {
    StillPending(db, r, io, p);
    ExpireStep(db, io.now1);
    PendingIsFree(Expire(db, io.now1), r.proposal);
    LiveAnswer(h, Expire(db, io.now1), r, io, p);
    FactsAfterExpiry(db, r, io, p);
  }

  lemma FactsAfterExpiry(db: Database, r: Resolution, io: ResolveIo, p: Proposal)
    ensures FactsRefused(Expire(db, io.now1), p, r, io) == FactsRefused(db, p, r, io)
  {
    SameExecutions(db, io.now1);
  }

  /** Main result: in any reachable database every decision is answered by the first thing that stands
      against it, in this order: its words, the deadline, an earlier decision, the version,
      the workspace, the artifact, the deadline again, and storage. */
  lemma DecisionsAreAnswered(h: string -> string, db: Database, r: Resolution, io: ResolveIo)
    requires Inv(db) && Injective(h) && Anchored(h, db.approvals)
    ensures Resolve(h, db, r, io).1 == if io.expire then Answer(db, r, io) else Err(Storage)
  {
    if io.expire && r.proposal in db.approvals {
      var p, mid := db.approvals[r.proposal], Expire(db, io.now1);
      if p.status == Pending && p.expiresAt <= io.now1 {
        OverdueAnswer(h, db, r, io, p);
      } else if p.status == Pending && WordsRefused(p, r, io.now1).None? {
        AwaitedAnswer(h, db, r, io, p);
      } else {
        assert mid.approvals[r.proposal] == p;
        SettledAnswer(h, mid, r, io, p);
      }
    }
  }

  // ---- Submissions ----------------------------------------------------------------------------

  /** The name of an artifact; the first one has no number. */
  function NameOf(kindName: string, stem: string, k: nat): string {
    ".pi/" + kindName + "/" + stem + (if k == 1 then "" else "-" + Decimal(k)) + ".md"
  }

  ghost predicate SomeNameFree(files: Files, kindName: string, stem: string) {
    exists k :: 1 <= k <= 10_000 && NameOf(kindName, stem, k) !in files
  }

  /** The first free name of an artifact, with every smaller number taken. */
  ghost predicate FirstName(files: Files, kindName: string, stem: string, path: string) {
    exists k :: 1 <= k <= 10_000 && path == NameOf(kindName, stem, k) && path !in files &&
      forall j :: 1 <= j < k ==> NameOf(kindName, stem, j) in files
  }

  /** What a submission must bring along, besides working storage. */
  ghost predicate SubmissionFits(db: Database, s: Submission, io: SubmitIo) {
    && (forall text :: text in {s.session, s.turn, s.call, s.title, s.markdown, s.question} ==> !Blank(text))
    && (s.kindName == "plan" || s.kindName == "goal") && Utf8Length(s.markdown) <= 524_288
    && s.session in db.sessions
    && db.sessions[s.session].mode == (if s.kindName == "plan" then Contract(Plan) else Contract(Goal))
    && s.turn in db.turns && db.turns[s.turn] == Turn(s.session, true)
    && (forall q :: q in db.approvals ==>
          && (db.approvals[q].session == s.session ==> !Awaited(db.approvals[q], io.now1))
          && db.approvals[q].call != s.call)
    && io.id !in db.approvals && SomeNameFree(db.files, s.kindName, io.stem)
  }

  lemma NamesAgree(kindName: string, kind: Kind, stem: string, k: nat)
    requires NormalizeKind(kindName) == Some(kind)
    ensures ArtifactPath(kind, stem, k) == NameOf(kindName, stem, k)
  {
  }

  lemma FirstFreeMeans(files: Files, kindName: string, kind: Kind, stem: string)
    requires NormalizeKind(kindName) == Some(kind)
    ensures var suffix := FirstFree(files, kind, stem, 1);
      && (suffix.Some? <==> SomeNameFree(files, kindName, stem))
      && (suffix.Some? ==> FirstName(files, kindName, stem, ArtifactPath(kind, stem, suffix.value)))
  {
    forall k | 1 <= k <= 10_000
      ensures ArtifactPath(kind, stem, k) == NameOf(kindName, stem, k)
    {
      NamesAgree(kindName, kind, stem, k);
    }
    var suffix := FirstFree(files, kind, stem, 1);
    if suffix.Some? {
      assert NameOf(kindName, stem, suffix.value) !in files;
    }
  }

  /** Publishing works exactly when a name is free and the disk does its part. */
  lemma PublishedIff(
    hash: string -> string, files: Files, kindName: string, kind: Kind, stem: string, markdown: string, io: PublishIo)
    requires NormalizeKind(kindName) == Some(kind) && markdown != "" && Utf8Length(markdown) <= 524_288
    ensures var (files', artifact) := Publish(hash, files, kind, stem, markdown, io);
      && (artifact.Ok? <==> io == Written && SomeNameFree(files, kindName, stem))
      && (artifact.Ok? ==>
            && FirstName(files, kindName, stem, artifact.value.path)
            && artifact.value == Artifact(artifact.value.path, hash(markdown), Utf8Length(markdown))
            && files' == files[artifact.value.path := markdown])
  {
    FirstFreeMeans(files, kindName, kind, stem);
  }

  lemma LiveSubmittedIff(hash: string -> string, db: Database, s: Submission, kind: Kind, io: SubmitIo)
    requires NormalizeKind(s.kindName) == Some(kind) && s.markdown != "" && Utf8Length(s.markdown) <= 524_288
    ensures SubmitLive(hash, db, s, kind, io).1.Ok? <==>
      && io.publish == Written && io.commit
      && s.session in db.sessions && db.sessions[s.session].mode == Contract(kind) && LiveTurn(db, s.session, s.turn)
      && Insertable(db.approvals, io.id, s.session, s.call) && SomeNameFree(db.files, s.kindName, io.stem)
  {
    PublishedIff(hash, db.files, s.kindName, kind, io.stem, s.markdown, io.publish);
  }

  lemma InsertableAfterExpiry(db: Database, now: int, id: Id, session: Id, call: Id)
    ensures Insertable(Expire(db, now).approvals, id, session, call) <==>
      id !in db.approvals && forall q :: q in db.approvals ==>
        (db.approvals[q].session == session ==> !Awaited(db.approvals[q], now)) && db.approvals[q].call != call
  {
    var mid := Expire(db, now);
    assert mid.approvals.Keys == db.approvals.Keys;
    forall q | q in db.approvals
      ensures mid.approvals[q].session == db.approvals[q].session && mid.approvals[q].call == db.approvals[q].call
      ensures mid.approvals[q].status == Pending <==> Awaited(db.approvals[q], now)
    {
    }
  }

  /** Main result: a plan is submitted exactly when the submission fits and disk and storage do their part. */
  lemma SubmitsIffFits(hash: string -> string, db: Database, s: Submission, io: SubmitIo)
    ensures Submit(hash, db, s, io).1.Ok? <==>
      io.expire && io.publish == Written && io.commit && SubmissionFits(db, s, io)
  {
    assert Incomplete(s) <==>
      exists text :: text in {s.session, s.turn, s.call, s.title, s.markdown, s.question} && Blank(text);
    if !Incomplete(s) && NormalizeKind(s.kindName).Some? && Utf8Length(s.markdown) <= 524_288 && io.expire {
      InsertableAfterExpiry(db, io.now1, io.id, s.session, s.call);
      LiveSubmittedIff(hash, Expire(db, io.now1), s, NormalizeKind(s.kindName).value, io);
    }
  }

  /** Main result: an accepted submission adds one pending row, due half an hour later, whose artifact is
      the one new file, and changes no other row but those that expired. */
  lemma SubmissionWritten(hash: string -> string, db: Database, s: Submission, io: SubmitIo, db': Database)
    requires Submit(hash, db, s, io) == (db', Ok(io.id))
    ensures db'.sessions == db.sessions && db'.turns == db.turns
    ensures db'.approvals.Keys == db.approvals.Keys + {io.id} && io.id !in db.approvals
    ensures forall q :: q in db.approvals ==> db'.approvals[q] == RowAt(db.approvals, q, io.now1)
    ensures var row := db'.approvals[io.id]; var path := row.artifact.path;
      && row == Proposal(s.session, s.turn, s.call, if s.kindName == "goal" then Goal else Plan, s.markdown, Pending,
                         io.now2 + 1_800_000, None, None, None, None,
                         Artifact(path, hash(s.markdown), Utf8Length(s.markdown)), 1, None, None)
      && FirstName(db.files, s.kindName, io.stem, path) && db'.files == db.files[path := s.markdown]
  {
    var kind := NormalizeKind(s.kindName).value;
    assert (db', Ok(io.id)) == SubmitLive(hash, Expire(db, io.now1), s, kind, io);
    assert s.markdown != "";
    LiveSubmissionWrites(hash, Expire(db, io.now1), s, kind, io, db');
  }

  lemma LiveSubmissionWrites(
    hash: string -> string, db: Database, s: Submission, kind: Kind, io: SubmitIo, db': Database)
    requires NormalizeKind(s.kindName) == Some(kind) && s.markdown != "" && Utf8Length(s.markdown) <= 524_288
    requires SubmitLive(hash, db, s, kind, io) == (db', Ok(io.id))
    ensures db'.sessions == db.sessions && db'.turns == db.turns && io.id !in db.approvals
    ensures io.id in db'.approvals && db'.approvals == db.approvals[io.id := db'.approvals[io.id]]
    ensures var row := db'.approvals[io.id]; var path := row.artifact.path;
      && row == Proposal(s.session, s.turn, s.call, if s.kindName == "goal" then Goal else Plan, s.markdown, Pending,
                         io.now2 + 1_800_000, None, None, None, None,
                         Artifact(path, hash(s.markdown), Utf8Length(s.markdown)), 1, None, None)
      && FirstName(db.files, s.kindName, io.stem, path) && db'.files == db.files[path := s.markdown]
  {
    PublishedIff(hash, db.files, s.kindName, kind, io.stem, s.markdown, io.publish);
  }

  // ---- Executions, aborts and restarts --------------------------------------------------------

  /** Main result: an execution is claimed exactly when it is queued; it then runs. */
  lemma ClaimsIffQueued(db: Database, e: Id, p: Id, commit: bool)
    requires Inv(db) && p in db.approvals && db.approvals[p].execution == Some(e)
    ensures var (db', reply) := Claim(db, e, commit); var row := db.approvals[p];
      && (reply.Ok? <==> row.state == Some(Queued) && commit)
      && db'.approvals == (if reply.Ok? then db.approvals[p := row.(state := Some(Running), version := 3)]
                           else db.approvals)
      && db'.sessions == db.sessions && db'.turns == db.turns && db'.files == db.files
  {
    OwnerIsUnique(db.approvals, e, p);
    assert Shape(db.approvals[p]);
  }

  /** Main result: "completed" completes and "interrupted" interrupts an execution that is under way, with
      the given reason; an ended one only accepts its own end again, and other words are refused. */
  lemma EndsAsNamed(db: Database, e: Id, status: string, error: Option<string>, p: Id, commit: bool)
    requires Inv(db) && p in db.approvals && db.approvals[p].execution == Some(e)
    ensures var (db', reply) := Finish(db, e, status, error, commit); var row := db.approvals[p];
      if status != "completed" && status != "interrupted" then db' == db && reply == Err(ExecutionStatusInvalid)
      else
        var end := if status == "completed" then Completed else ExecutionInterrupted;
        if !UnderWay(row) then db' == db && reply == if row.state == Some(end) then Ok(p) else Err(ExecutionConflict)
        else if !commit then db' == db && reply == Err(Storage)
        else
          && reply == Ok(p) && db'.sessions == db.sessions && db'.turns == db.turns && db'.files == db.files
          && db'.approvals == db.approvals[p := row.(
               state := Some(end), version := row.version + 1,
               error := if status == "completed" then None else Some(OrElse(error, "PLAN_EXECUTION_INTERRUPTED")))]
  {
    OwnerIsUnique(db.approvals, e, p);
    var row := db.approvals[p];
    assert Shape(row);
    match row.state
    case None =>
    case Some(Completed) =>
    case Some(ExecutionInterrupted) =>
    case Some(_) =>
  }

  /** Main result: an abort interrupts exactly the awaited proposals of its session. */
  lemma AbortsAwaited(db: Database, session: Id, now1: int, now2: int, p: Id)
    requires p in db.approvals
    ensures var db' := Abort(db, session, now1, now2, true, true).0; var row := db.approvals[p];
      && db'.sessions == db.sessions && db'.turns == db.turns && db'.files == db.files && p in db'.approvals
      && db'.approvals[p] == if row.session == session && Awaited(row, now1)
           then row.(status := Interrupted, resolvedAt := Some(now2), error := Some("PLAN_APPROVAL_INTERRUPTED"),
                     version := row.version + 1)
           else RowAt(db.approvals, p, now1)
  {
    assert Abort(db, session, now1, now2, true, true).0 == AbortLive(Expire(db, now1), session, now2, true).0;
    LiveAborts(Expire(db, now1), session, now2, p);
  }

  lemma LiveAborts(db: Database, session: Id, now: int, p: Id)
    requires p in db.approvals
    ensures var db' := AbortLive(db, session, now, true).0; var row := db.approvals[p];
      && p in db'.approvals && db'.sessions == db.sessions && db'.turns == db.turns && db'.files == db.files
      && db'.approvals[p] == if row.session == session && row.status == Pending
           then row.(status := Interrupted, resolvedAt := Some(now), error := Some("PLAN_APPROVAL_INTERRUPTED"),
                     version := row.version + 1)
           else row
  {
    var ids := PendingIds(db.approvals, session);
    assert p in ids <==> db.approvals[p].session == session && db.approvals[p].status == Pending;
    if ids != {} {
      AbortedAt(db, session, now, p, ids);
    }
  }

  lemma AbortedAt(db: Database, session: Id, now: int, p: Id, ids: set<Id>)
    requires p in db.approvals && ids == PendingIds(db.approvals, session) && ids != {}
    ensures var db' := AbortLive(db, session, now, true).0;
      p in db'.approvals && db'.approvals[p] == if p in ids then AbortedRow(db.approvals[p], now) else db.approvals[p]
  {
  }

  /** Main result: a restart interrupts every pending proposal and every execution that is under way, and
      leaves no turn running; it touches nothing else. */
  lemma RestartInterrupts(db: Database, now: int, p: Id)
    requires Inv(db) && p in db.approvals
    ensures var db' := Reboot(db, now); var row := db.approvals[p];
      && db'.sessions == db.sessions && db'.files == db.files && db'.turns.Keys == db.turns.Keys
      && (forall t :: t in db.turns ==> db'.turns[t] == Turn(db.turns[t].session, false))
      && db'.approvals.Keys == db.approvals.Keys
      && db'.approvals[p] == if row.status == Pending
           then row.(status := Interrupted, resolvedAt := Some(now), error := Some("PLAN_APPROVAL_INTERRUPTED"),
                     version := 2)
           else if UnderWay(row)
           then row.(state := Some(ExecutionInterrupted), error := Some("PLAN_EXECUTION_INTERRUPTED"),
                     version := row.version + 1)
           else row
  {
    assert Shape(db.approvals[p]);
  }

  // ---- Turns ----------------------------------------------------------------------------------

  /** A turn begins exactly when its session is there and has no turn running. */
  lemma TurnBeginsIffIdle(db: Database, session: Id, turn: Id)
    requires turn !in db.turns
    ensures var (db', reply) := BeginTurn(db, session, turn);
      if session !in db.sessions then db' == db && reply == Err(SessionNotFound)
      else if exists t :: t in db.turns && db.turns[t] == Turn(session, true) then db' == db && reply == Err(AgentBusy)
      else reply == Ok(()) && db' == db.(turns := db.turns[turn := Turn(session, true)])
  {
    if t :| t in db.turns && db.turns[t].session == session && db.turns[t].running {
      assert db.turns[t] == Turn(session, true);
    }
  }
}
