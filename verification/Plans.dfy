/**
 Plan and Goal approvals and their executions (crates/host-core/src/plans.rs,
 with the crash recovery of crates/host-core/src/db.rs): the tables, and every
 operation as a function from the database and the outcome of its fallible parts
 to the new database and the reply. Transactions are all or nothing.
 */
module Plans {
  import opened Text
  import opened Wrappers

  const PLAN_MAX_MARKDOWN_BYTES: nat := 512 * 1024
  const PLAN_APPROVAL_TIMEOUT_MS: nat := 30 * 60 * 1000
  const MAX_ARTIFACT_SUFFIX: nat := 10_000

  type Id = string
  datatype Reply<T> = Ok(value: T) | Err(error: Error)

  datatype Error =
    | InvalidArgument | SessionNotFound | AlreadyActive | ApprovalStale | NotActive | KindMismatch
    | AlreadyPending | MarkdownTooLarge | ArtifactPathUnsafe | ArtifactWriteFailed | ArtifactCollisionLimit
    | WorkspaceRequired | NotFound | InvalidAction | ApprovalTimeout | PermissionModeRequired
    | PermissionModeInvalid | ApprovalConflict | ArtifactNotReady | ArtifactHashMismatch | ExecutionActive
    | ExecutionNotFound | ExecutionStale | ExecutionStatusInvalid | ExecutionConflict | ConfigurationBlocked
    | AgentBusy | Storage

  datatype Kind = Plan | Goal
  datatype Mode = Agent | Contract(kind: Kind)
  datatype Status = Pending | Approved | Rejected | Expired | Interrupted
  datatype ExecutionState = Queued | Running | Completed | ExecutionInterrupted
  datatype Action = Approve | Reject

  datatype Session = Session(
    mode: Mode, provider: Option<string>, model: Option<string>, thinking: string, permission: string)
  datatype Turn = Turn(session: Id, running: bool)
  datatype Artifact = Artifact(path: string, hash: string, size: nat)

  datatype Proposal = Proposal(
    session: Id, turn: Id, call: Id, kind: Kind, plan: string, status: Status, expiresAt: int, resolvedAt: Option<int>,
    action: Option<Action>, target: Option<string>, error: Option<string>, artifact: Artifact, version: nat,
    execution: Option<Id>, state: Option<ExecutionState>)

  /** One audit record; all but the first belong to a proposal. */
  datatype Audit =
    | PlanEntered(session: Id, kind: Kind)
    | PlanSubmitted(proposal: Id) | ApprovalExpired(proposal: Id) | ApprovalResolved(proposal: Id)
    | ApprovalTerminal(proposal: Id) | ApprovalInterrupted(proposal: Id)
    | ExecutionClaimed(proposal: Id) | ExecutionFinished(proposal: Id) | ExecutionCut(proposal: Id)

  type Approvals = map<Id, Proposal>
  type Files = map<string, string>

  datatype Database = Database(
    sessions: map<Id, Session>, turns: map<Id, Turn>, approvals: Approvals, audit: multiset<Audit>, files: Files)

  // ---- Small readers ------------------------------------------------------------

  function NormalizeKind(value: string): Option<Kind> {
    if value == "plan" then Some(Plan) else if value == "goal" then Some(Goal) else None
  }

  function KindName(k: Kind): string {
    match k case Plan => "plan" case Goal => "goal"
  }

  function NormalizeMode(value: string): Mode {
    if value == "plan" || value == "chat" then Contract(Plan)
    else if value == "goal" then Contract(Goal)
    else Agent
  }

  predicate ValidPermission(value: string) {
    value in {"ask", "accept-edits", "auto"}
  }

  predicate Active(p: Proposal) {
    p.state == Some(Queued) || p.state == Some(Running)
  }

  predicate HasPending(a: Approvals, session: Id) {
    exists id :: id in a && a[id].session == session && a[id].status == Pending
  }

  predicate HasActive(a: Approvals, session: Id) {
    exists id :: id in a && a[id].session == session && Active(a[id])
  }

  predicate LiveTurn(db: Database, session: Id, turn: Id) {
    turn in db.turns && db.turns[turn].session == session && db.turns[turn].running
  }

  predicate BusySession(db: Database, session: Id) {
    exists t :: t in db.turns && db.turns[t].session == session && db.turns[t].running
  }

  // ---- Expiry ---------------------------------------------------------------------

  predicate Overdue(p: Proposal, now: int) {
    p.status == Pending && p.expiresAt <= now
  }

  function ExpiredRow(p: Proposal, now: int): Proposal {
    p.(status := Expired, resolvedAt := Some(now), error := Some("PLAN_APPROVAL_TIMEOUT"), version := p.version + 1)
  }

  function ExpireRows(a: Approvals, now: int): Approvals {
    map id | id in a :: if Overdue(a[id], now) then ExpiredRow(a[id], now) else a[id]
  }

  function OverdueIds(a: Approvals, now: int): set<Id> {
    set id | id in a && Overdue(a[id], now)
  }

  /** One record per expired approval. */
  function ExpiryRecords(ids: set<Id>): multiset<Audit> {
    multiset(set id | id in ids :: ApprovalExpired(id))
  }

  function Expire(db: Database, now: int): Database {
    db.(approvals := ExpireRows(db.approvals, now),
        audit := db.audit + ExpiryRecords(OverdueIds(db.approvals, now)))
  }

  // ---- Enter ------------------------------------------------------------------------

  function Enter(db: Database, session: Id, turn: Id, call: Id, kindName: string, commit: bool): (Database, Reply<()>) {
    if Blank(session) || Blank(turn) || Blank(call) || NormalizeKind(kindName).None? then (db, Err(InvalidArgument))
    else if session !in db.sessions then (db, Err(SessionNotFound))
    else if db.sessions[session].mode != Agent then (db, Err(AlreadyActive))
    else if !LiveTurn(db, session, turn) || HasActive(db.approvals, session) then (db, Err(ApprovalStale))
    else if !commit then (db, Err(Storage))
    else
      var kind := NormalizeKind(kindName).value;
      (db.(sessions := db.sessions[session := db.sessions[session].(mode := Contract(kind))],
           audit := db.audit + multiset{PlanEntered(session, kind)}),
       Ok(()))
  }

  // ---- Artifacts ----------------------------------------------------------------------

  datatype PublishIo = DirectoryUnsafe | OpenFails | WriteFails | Written

  function ArtifactPath(kind: Kind, stem: string, suffix: nat): string {
    ".pi/" + KindName(kind) + "/" + stem + (if suffix == 1 then "" else "-" + Decimal(suffix)) + ".md"
  }

  /** The first suffix from `from` on whose name is not taken. */
  function FirstFree(files: Files, kind: Kind, stem: string, from: nat): (s: Option<nat>)
    ensures s.Some? ==>
      && from <= s.value <= MAX_ARTIFACT_SUFFIX && ArtifactPath(kind, stem, s.value) !in files
      && (forall k :: from <= k < s.value ==> ArtifactPath(kind, stem, k) in files)
    ensures s.None? ==> forall k :: from <= k <= MAX_ARTIFACT_SUFFIX ==> ArtifactPath(kind, stem, k) in files
    decreases MAX_ARTIFACT_SUFFIX + 1 - from
  {
    if from > MAX_ARTIFACT_SUFFIX then None
    else if ArtifactPath(kind, stem, from) !in files then Some(from)
    else FirstFree(files, kind, stem, from + 1)
  }

  /** The published artifact, or why there is none; files change only by the new one. */
  function Publish(hash: string -> string, files: Files, kind: Kind, stem: string, markdown: string, io: PublishIo)
    : (Files, Reply<Artifact>)
  {
    if markdown == "" then (files, Err(InvalidArgument))
    else if Utf8Length(markdown) > PLAN_MAX_MARKDOWN_BYTES then (files, Err(MarkdownTooLarge))
    else if io == DirectoryUnsafe then (files, Err(ArtifactPathUnsafe))
    else
      var suffix := FirstFree(files, kind, stem, 1);
      if suffix.None? then (files, Err(ArtifactCollisionLimit))
      else if io == OpenFails || io == WriteFails then (files, Err(ArtifactWriteFailed))
      else
        var path := ArtifactPath(kind, stem, suffix.value);
        (files[path := markdown], Ok(Artifact(path, hash(markdown), Utf8Length(markdown))))
  }

  function VerifyArtifact(hash: string -> string, files: Files, a: Artifact): Option<Error> {
    if a.path !in files then Some(ArtifactNotReady)
    else if Utf8Length(files[a.path]) != a.size || hash(files[a.path]) != a.hash then Some(ArtifactHashMismatch)
    else None
  }

  // ---- Submit -----------------------------------------------------------------------

  datatype Submission = Submission(
    session: Id, turn: Id, call: Id, kindName: string, title: string, markdown: string, question: string)

  /** Fresh id, name stem, clock readings and failures of one submit. */
  datatype SubmitIo = SubmitIo(
    id: Id, stem: string, now1: int, now2: int, expire: bool, publish: PublishIo, commit: bool)

  /** The constraints of the approvals table on a new pending row. */
  predicate Insertable(a: Approvals, id: Id, session: Id, call: Id) {
    id !in a && !HasPending(a, session) && forall q :: q in a ==> a[q].call != call
  }

  function NewProposal(s: Submission, kind: Kind, artifact: Artifact, now: int): Proposal {
    Proposal(s.session, s.turn, s.call, kind, s.markdown, Pending, now + PLAN_APPROVAL_TIMEOUT_MS,
             None, None, None, None, artifact, 1, None, None)
  }

  predicate Incomplete(s: Submission) {
    Blank(s.session) || Blank(s.turn) || Blank(s.call) || Blank(s.title) || Blank(s.markdown) || Blank(s.question)
  }

  function Submit(hash: string -> string, db: Database, s: Submission, io: SubmitIo): (Database, Reply<Id>) {
    if Incomplete(s) || NormalizeKind(s.kindName).None? then (db, Err(InvalidArgument))
    else if Utf8Length(s.markdown) > PLAN_MAX_MARKDOWN_BYTES then (db, Err(MarkdownTooLarge))
    else if !io.expire then (db, Err(Storage))
    else SubmitLive(hash, Expire(db, io.now1), s, NormalizeKind(s.kindName).value, io)
  }

  /** The part of a submit after expiry. */
  function SubmitLive(
    hash: string -> string, db: Database, s: Submission, kind: Kind, io: SubmitIo): (Database, Reply<Id>)
  {
    if s.session !in db.sessions then (db, Err(SessionNotFound))
    else if db.sessions[s.session].mode == Agent then (db, Err(NotActive))
    else if db.sessions[s.session].mode != Contract(kind) then (db, Err(KindMismatch))
    else if !LiveTurn(db, s.session, s.turn) then (db, Err(ApprovalStale))
    else if HasPending(db.approvals, s.session) then (db, Err(AlreadyPending))
    else
      var (files, artifact) := Publish(hash, db.files, kind, io.stem, s.markdown, io.publish);
      if artifact.Err? then (db, Err(artifact.error))
      else if !Insertable(db.approvals, io.id, s.session, s.call) || !io.commit then (db, Err(Storage))
      else
        (db.(approvals := db.approvals[io.id := NewProposal(s, kind, artifact.value, io.now2)],
             audit := db.audit + multiset{PlanSubmitted(io.id)},
             files := files),
         Ok(io.id))
  }

  // ---- Resolve ------------------------------------------------------------------------

  datatype Resolution = Resolution(
    workspace: bool, proposal: Id, session: Id, turn: Id, call: Id, version: Option<nat>,
    action: string, target: Option<string>)

  datatype ResolveIo = ResolveIo(execution: Id, now1: int, now2: int, expire: bool, commit: bool)

  function ParseAction(value: string): Option<Action> {
    if value == "approve" then Some(Approve) else if value == "reject" then Some(Reject) else None
  }

  function ResolvedRow(p: Proposal, action: Action, target: Option<string>, execution: Id, now: int): Proposal {
    p.(status := if action == Approve then Approved else Rejected, action := Some(action), target := target,
       resolvedAt := Some(now), error := None, version := p.version + 1,
       execution := if action == Approve then Some(execution) else None,
       state := if action == Approve then Some(Queued) else None)
  }

  /** Why a decision on `p` is refused before its transaction, or what it decides. */
  function Decide(p: Proposal, r: Resolution): Reply<(Action, Option<string>)> {
    if p.session != r.session || p.turn != r.turn || p.call != r.call then Err(ApprovalStale)
    else if ParseAction(r.action).None? then Err(InvalidAction)
    else if p.status == Expired then Err(ApprovalTimeout)
    else
      var action := ParseAction(r.action).value;
      if action == Approve && r.target.None? then Err(PermissionModeRequired)
      else if action == Approve && !ValidPermission(r.target.value) then Err(PermissionModeInvalid)
      else Ok((action, if action == Approve then r.target else None))
  }

  predicate SameResolution(p: Proposal, action: Action, target: Option<string>) {
    p.action == Some(action) && (action != Approve || p.target == target)
  }

  /** The transaction of an accepted decision. */
  function Commit(db: Database, id: Id, r: Resolution, action: Action, target: Option<string>, io: ResolveIo)
    : (Database, Reply<Id>)
    requires id in db.approvals
  {
    var p := db.approvals[id];
    if action == Approve && HasActive(db.approvals, r.session) then (db, Err(ExecutionActive))
    else if action == Approve &&
            (r.session !in db.sessions || db.sessions[r.session].mode != Contract(p.kind)) then (db, Err(NotActive))
    else if p.expiresAt <= io.now2 then (db, Err(ApprovalStale))
    else if action == Approve && (exists q :: q in db.approvals && db.approvals[q].execution == Some(io.execution)) then
      (db, Err(Storage))
    else if !io.commit then (db, Err(Storage))
    else
      (db.(sessions := if action == Approve && r.session in db.sessions && target.Some?
                       then db.sessions[r.session := db.sessions[r.session].(mode := Agent, permission := target.value)]
                       else db.sessions,
           approvals := db.approvals[id := ResolvedRow(p, action, target, io.execution, io.now2)],
           audit := db.audit + multiset{ApprovalResolved(id)}),
       Ok(id))
  }

  function Resolve(hash: string -> string, db: Database, r: Resolution, io: ResolveIo): (Database, Reply<Id>) {
    if !io.expire then (db, Err(Storage)) else ResolveLive(hash, Expire(db, io.now1), r, io)
  }

  /** The part of a resolve after expiry. */
  function ResolveLive(hash: string -> string, db: Database, r: Resolution, io: ResolveIo): (Database, Reply<Id>) {
    if r.proposal !in db.approvals then (db, Err(NotFound))
    else
      var p := db.approvals[r.proposal];
      var decision := Decide(p, r);
      if decision.Err? then (db, Err(decision.error))
      else
        var (action, target) := decision.value;
        if p.status != Pending then
          (db, if SameResolution(p, action, target) then Ok(r.proposal) else Err(ApprovalConflict))
        else if r.version.Some? && r.version.value != p.version then (db, Err(ApprovalStale))
        else if action == Approve && !r.workspace then (db, Err(WorkspaceRequired))
        else if action == Approve && VerifyArtifact(hash, db.files, p.artifact).Some? then
          (db, Err(VerifyArtifact(hash, db.files, p.artifact).value))
        else Commit(db, r.proposal, r, action, target, io)
  }

  // ---- Abort ----------------------------------------------------------------------------

  function AbortedRow(p: Proposal, now: int): Proposal {
    p.(status := Interrupted, resolvedAt := Some(now), error := Some("PLAN_APPROVAL_INTERRUPTED"),
       version := p.version + 1)
  }

  function PendingIds(a: Approvals, session: Id): set<Id> {
    set id | id in a && a[id].session == session && a[id].status == Pending
  }

  function Abort(db: Database, session: Id, now1: int, now2: int, expire: bool, commit: bool): (Database, Reply<bool>) {
    if !expire then (db, Err(Storage)) else AbortLive(Expire(db, now1), session, now2, commit)
  }

  /** The part of an abort after expiry. */
  function AbortLive(db: Database, session: Id, now: int, commit: bool): (Database, Reply<bool>) {
    var ids := PendingIds(db.approvals, session);
    if ids == {} then (db, Ok(false))
    else if !commit then (db, Err(Storage))
    else
      (db.(approvals := map id | id in db.approvals ::
             if id in ids then AbortedRow(db.approvals[id], now) else db.approvals[id],
           audit := db.audit + multiset(set id | id in ids :: ApprovalTerminal(id))),
       Ok(true))
  }

  // ---- Executions ---------------------------------------------------------------------

  /** The proposal an execution belongs to. */
  ghost function Owner(a: Approvals, e: Id): Option<Id> {
    if id :| id in a && a[id].execution == Some(e) then Some(id) else None
  }

  ghost function Claim(db: Database, e: Id, commit: bool): (Database, Reply<Id>) {
    var owner := Owner(db.approvals, e);
    if owner.None? then (db, Err(ExecutionNotFound))
    else
      var p := db.approvals[owner.value];
      if p.state != Some(Queued) then (db, Err(ExecutionStale))
      else if !commit then (db, Err(Storage))
      else
        (db.(approvals := db.approvals[owner.value := p.(state := Some(Running), version := p.version + 1)],
             audit := db.audit + multiset{ExecutionClaimed(owner.value)}),
         Ok(owner.value))
  }

  function ParseEnd(status: string): Option<ExecutionState> {
    if status == "completed" then Some(Completed)
    else if status == "interrupted" then Some(ExecutionInterrupted)
    else None
  }

  function FinishedRow(p: Proposal, end: ExecutionState, error: Option<string>): Proposal {
    p.(state := Some(end), version := p.version + 1,
       error := if end == ExecutionInterrupted
                then Some(if error.Some? then error.value else "PLAN_EXECUTION_INTERRUPTED") else None)
  }

  ghost function Finish(
    db: Database, e: Id, status: string, error: Option<string>, commit: bool): (Database, Reply<Id>)
  {
    var end := ParseEnd(status);
    var owner := Owner(db.approvals, e);
    if end.None? then (db, Err(ExecutionStatusInvalid))
    else if owner.None? then (db, Err(ExecutionNotFound))
    else
      var p := db.approvals[owner.value];
      if p.state in {Some(Completed), Some(ExecutionInterrupted)} then
        (db, if p.state == end then Ok(owner.value) else Err(ExecutionConflict))
      else if !Active(p) then (db, Err(ExecutionStale))
      else if !commit then (db, Err(Storage))
      else
        (db.(approvals := db.approvals[owner.value := FinishedRow(p, end.value, error)],
             audit := db.audit + multiset{ExecutionFinished(owner.value)}),
         Ok(owner.value))
  }

  // ---- Configuration ----------------------------------------------------------------------

  datatype Settings = Settings(
    mode: string, provider: Option<string>, model: Option<string>, thinking: Option<string>, permission: Option<string>)

  function Configured(s: Session, r: Settings): Session {
    Session(NormalizeMode(r.mode),
            if r.provider.Some? then r.provider else s.provider,
            if r.model.Some? then r.model else s.model,
            if r.thinking.Some? then r.thinking.value else s.thinking,
            if r.permission.Some? then r.permission.value else s.permission)
  }

  /** The gate in front of every configuration write, and the write. */
  function Configure(db: Database, session: Id, r: Settings, now: int, expire: bool): (Database, Reply<()>) {
    if !expire then (db, Err(Storage)) else ConfigureLive(Expire(db, now), session, r)
  }

  /** The part of a configuration after expiry. */
  function ConfigureLive(db: Database, session: Id, r: Settings): (Database, Reply<()>) {
    if session !in db.sessions then (db, Ok(()))
    else
      var was := db.sessions[session];
      if Configured(was, r) != was &&
         (HasPending(db.approvals, session) || HasActive(db.approvals, session) || BusySession(db, session))
      then (db, Err(ConfigurationBlocked))
      else (db.(sessions := db.sessions[session := Configured(was, r)]), Ok(()))
  }

  // ---- Turns, sessions and restart ----------------------------------------------------------

  function BeginTurn(db: Database, session: Id, turn: Id): (Database, Reply<()>) {
    if session !in db.sessions then (db, Err(SessionNotFound))
    else if BusySession(db, session) then (db, Err(AgentBusy))
    else if turn in db.turns then (db, Err(Storage))
    else (db.(turns := db.turns[turn := Turn(session, true)]), Ok(()))
  }

  function RebootedRow(p: Proposal, now: int): Proposal {
    if p.status == Pending || Active(p) then
      p.(status := if p.status == Pending then Interrupted else p.status,
         resolvedAt := if p.status == Pending then Some(now) else p.resolvedAt,
         state := if Active(p) then Some(ExecutionInterrupted) else p.state,
         version := p.version + 1,
         error := Some(if p.status == Pending then "PLAN_APPROVAL_INTERRUPTED" else "PLAN_EXECUTION_INTERRUPTED"))
    else p
  }

  function RebootRecords(a: Approvals): multiset<Audit> {
    multiset(set id | id in a && a[id].status == Pending :: ApprovalInterrupted(id))
    + multiset(set id | id in a && Active(a[id]) :: ExecutionCut(id))
  }

  function Reboot(db: Database, now: int): Database {
    db.(turns := map t | t in db.turns :: db.turns[t].(running := false),
        approvals := map id | id in db.approvals :: RebootedRow(db.approvals[id], now),
        audit := db.audit + RebootRecords(db.approvals))
  }
}
