/**
 What holds over every run of the approval pipeline
 (crates/host-core/src/plans.rs, crates/host-core/src/db.rs).
 */
module PlanRuns {
  import opened Text
  import opened Plans
  import opened Wrappers

  // ---- The invariant --------------------------------------------------------------

  ghost predicate OnePending(a: Approvals) {
    forall p, q :: p in a && q in a && a[p].status == Pending && a[q].status == Pending && a[p].session == a[q].session
      ==> p == q
  }

  ghost predicate OneActive(a: Approvals) {
    forall p, q :: p in a && q in a && a[p].session == a[q].session && Active(a[p]) && Active(a[q]) ==> p == q
  }

  ghost predicate UniqueExecutions(a: Approvals) {
    forall p, q :: p in a && q in a && a[p].execution.Some? && a[p].execution == a[q].execution ==> p == q
  }

  /** A pending proposal owns its session's mode; an active execution runs in Agent mode. */
  ghost predicate ModesAgree(db: Database) {
    forall p :: p in db.approvals ==>
      var row := db.approvals[p];
      && row.session in db.sessions
      && (row.status == Pending ==> db.sessions[row.session].mode == Contract(row.kind))
      && (Active(row) ==> db.sessions[row.session].mode == Agent)
  }

  /** The rows that can exist, with the number of transitions each has seen. */
  predicate Shape(p: Proposal) {
    match p.status
    case Pending => p.version == 1 && p.execution.None? && p.state.None? && p.action.None?
    case Approved =>
      && p.execution.Some? && p.action == Some(Approve) && p.target.Some?
      && (p.state == Some(Queued) ==> p.version == 2)
      && (p.state == Some(Running) ==> p.version == 3)
      && (p.state in {Some(Completed), Some(ExecutionInterrupted)} ==> 3 <= p.version <= 4)
      && p.state.Some?
    case Rejected => p.version == 2 && p.execution.None? && p.state.None? && p.action == Some(Reject)
    case _ => p.version == 2 && p.execution.None? && p.state.None? && p.action.None?
  }

  /** Audit records that belong to a proposal. */
  function RecordsOf(audit: multiset<Audit>, p: Id): nat {
    audit[PlanSubmitted(p)] + audit[ApprovalExpired(p)] + audit[ApprovalResolved(p)] + audit[ApprovalTerminal(p)] +
    audit[ApprovalInterrupted(p)] + audit[ExecutionClaimed(p)] + audit[ExecutionFinished(p)] + audit[ExecutionCut(p)]
  }

  function VersionOf(a: Approvals, p: Id): nat {
    if p in a then a[p].version else 0
  }

  ghost predicate Audited(db: Database) {
    forall p :: RecordsOf(db.audit, p) == VersionOf(db.approvals, p)
  }

  ghost predicate OneRunningTurn(turns: map<Id, Turn>) {
    forall t, u ::
      t in turns && u in turns && turns[t].running && turns[u].running && turns[t].session == turns[u].session
      ==> t == u
  }

  ghost predicate Inv(db: Database) {
    && OnePending(db.approvals) && OneActive(db.approvals) && UniqueExecutions(db.approvals)
    && ModesAgree(db) && Audited(db) && OneRunningTurn(db.turns)
    && forall p :: p in db.approvals ==> Shape(db.approvals[p])
  }

  // ---- Operations as one type --------------------------------------------------------

  datatype Op =
    | CreateSession(session: Id, row: Session)
    | DoEnter(session: Id, turn: Id, call: Id, kindName: string, commit: bool)
    | DoSubmit(s: Submission, sio: SubmitIo)
    | DoResolve(r: Resolution, rio: ResolveIo)
    | DoExpire(now: int)
    | DoAbort(session: Id, now1: int, now2: int, expire: bool, commit: bool)
    | DoClaim(execution: Id, commit: bool)
    | DoFinish(execution: Id, status: string, error: Option<string>, commit: bool)
    | DoConfigure(session: Id, settings: Settings, now: int, expire: bool)
    | DoBeginTurn(session: Id, turn: Id)
    | EndTurn(turn: Id)
    | DoReboot(now: int)
    | EditFiles(files: Files)

  ghost function Apply(h: string -> string, db: Database, op: Op): Database {
    match op
    case CreateSession(session, row) =>
      if session in db.sessions then db else db.(sessions := db.sessions[session := row])
    case DoEnter(session, turn, call, kindName, commit) => Enter(db, session, turn, call, kindName, commit).0
    case DoSubmit(s, io) => Submit(h, db, s, io).0
    case DoResolve(r, io) => Resolve(h, db, r, io).0
    case DoExpire(now) => Expire(db, now)
    case DoAbort(session, now1, now2, expire, commit) => Abort(db, session, now1, now2, expire, commit).0
    case DoClaim(e, commit) => Claim(db, e, commit).0
    case DoFinish(e, status, error, commit) => Finish(db, e, status, error, commit).0
    case DoConfigure(session, settings, now, expire) => Configure(db, session, settings, now, expire).0
    case DoBeginTurn(session, turn) => BeginTurn(db, session, turn).0
    case EndTurn(turn) =>
      if turn in db.turns then db.(turns := db.turns[turn := db.turns[turn].(running := false)]) else db
    case DoReboot(now) => Reboot(db, now)
    case EditFiles(files) => db.(files := files)
  }

  // ---- Transitions of one proposal ---------------------------------------------------------

  /** The edges of the lifecycle. */
  ghost predicate Edge(p: Proposal, q: Proposal) {
    && q.version == p.version + 1
    && ((p.status == Pending && q.status in {Rejected, Expired, Interrupted} && q.execution.None? && q.state.None?)
        || (p.status == Pending && q.status == Approved && q.execution.Some? && q.state == Some(Queued))
        || (p.status == Approved && q.status == Approved && q.execution == p.execution &&
            q.action == p.action && q.target == p.target &&
            ((p.state == Some(Queued) && q.state == Some(Running)) ||
             (Active(p) && q.state in {Some(Completed), Some(ExecutionInterrupted)}))))
  }

  /** Nothing about what identifies a proposal ever changes. */
  predicate SameIdentity(p: Proposal, q: Proposal) {
    p.session == q.session && p.turn == q.turn && p.call == q.call && p.kind == q.kind &&
    p.plan == q.plan && p.expiresAt == q.expiresAt && p.artifact == q.artifact
  }

  predicate Terminal(p: Proposal) {
    p.status in {Rejected, Expired, Interrupted} || p.state in {Some(Completed), Some(ExecutionInterrupted)}
  }

  /** Every row stays, and either stays as it is or takes one edge, with as many
      new audit records as versions; only a submission adds a row. */
  ghost predicate Advances(db: Database, db': Database) {
    && (forall p :: p in db.approvals ==>
          && p in db'.approvals
          && (db'.approvals[p] == db.approvals[p] ||
              (Edge(db.approvals[p], db'.approvals[p]) && SameIdentity(db.approvals[p], db'.approvals[p]))))
    && (forall p :: p in db'.approvals && p !in db.approvals ==>
          db'.approvals[p].status == Pending && db'.approvals[p].version == 1)
    && Accounted(db, db')
  }

  ghost predicate Accounted(db: Database, db': Database) {
    forall p ::
      RecordsOf(db'.audit, p) - RecordsOf(db.audit, p) == VersionOf(db'.approvals, p) - VersionOf(db.approvals, p)
  }

  lemma Unmoved(db: Database)
    ensures Advances(db, db)
  {
  }

  /** The row stays, or takes an edge that neither opens an approval nor queues an execution. */
  ghost predicate Settles(p: Proposal, q: Proposal) {
    q == p || (Edge(p, q) && SameIdentity(p, q) && Shape(q) && q.state != Some(Queued))
  }

  /** Steps that only settle rows keep the invariant. */
  lemma SettlingStep(db: Database, db': Database)
    requires Inv(db) && db'.sessions == db.sessions && OneRunningTurn(db'.turns) && Accounted(db, db')
    requires db'.approvals.Keys == db.approvals.Keys
    requires forall p :: p in db.approvals ==> Settles(db.approvals[p], db'.approvals[p])
    ensures Inv(db') && Advances(db, db')
  {
    var a, a' := db.approvals, db'.approvals;
    forall p | p in a'
      ensures a'[p].session == a[p].session && a'[p].kind == a[p].kind && a'[p].execution == a[p].execution
      ensures a'[p].status == Pending ==> a[p].status == Pending
      ensures Active(a'[p]) ==> Active(a[p])
      ensures Shape(a'[p])
    {
      assert Settles(a[p], a'[p]);
    }
    forall p
      ensures RecordsOf(db'.audit, p) == VersionOf(a', p)
    {
      assert RecordsOf(db.audit, p) == VersionOf(a, p);
    }
  }

  // ---- Expiry and restart change many rows -------------------------------------------------

  lemma RecordsAdd(a: multiset<Audit>, b: multiset<Audit>, p: Id)
    ensures RecordsOf(a + b, p) == RecordsOf(a, p) + RecordsOf(b, p)
  {
  }

  lemma ExpireRecords(a: Approvals, now: int, p: Id)
    ensures RecordsOf(ExpiryRecords(OverdueIds(a, now)), p)
      == if p in a && Overdue(a[p], now) then 1 else 0
  {
    var s := set id | id in OverdueIds(a, now) :: ApprovalExpired(id);
    assert ApprovalExpired(p) in s <==> p in OverdueIds(a, now);
  }

  lemma ExpireStep(db: Database, now: int)
    requires Inv(db)
    ensures Inv(Expire(db, now)) && Advances(db, Expire(db, now))
  {
    var db' := Expire(db, now);
    forall p
      ensures RecordsOf(db'.audit, p) - RecordsOf(db.audit, p)
        == VersionOf(db'.approvals, p) - VersionOf(db.approvals, p)
    {
      RecordsAdd(db.audit, ExpiryRecords(OverdueIds(db.approvals, now)), p);
      ExpireRecords(db.approvals, now, p);
    }
    SettlingStep(db, db');
  }

  lemma RebootRecordsCount(a: Approvals, p: Id)
    requires forall q :: q in a ==> Shape(a[q])
    ensures RecordsOf(RebootRecords(a), p) == if p in a && (a[p].status == Pending || Active(a[p])) then 1 else 0
  {
    var s := set id | id in a && a[id].status == Pending :: ApprovalInterrupted(id);
    var t := set id | id in a && Active(a[id]) :: ExecutionCut(id);
    assert ApprovalInterrupted(p) in s <==> p in a && a[p].status == Pending;
    assert ExecutionCut(p) in t <==> p in a && Active(a[p]);
  }

  lemma RebootSettles(p: Proposal, now: int)
    requires Shape(p)
    ensures Settles(p, RebootedRow(p, now)) && Terminal(RebootedRow(p, now))
  {
    match p.state
    case Some(Queued) =>
    case _ =>
  }

  lemma RebootStep(db: Database, now: int)
    requires Inv(db)
    ensures Inv(Reboot(db, now)) && Advances(db, Reboot(db, now))
    ensures forall p :: p in db.approvals ==> Terminal(Reboot(db, now).approvals[p])
  {
    var db' := Reboot(db, now);
    assert Accounted(db, db') by {
      forall p
        ensures RecordsOf(db'.audit, p) - RecordsOf(db.audit, p)
          == VersionOf(db'.approvals, p) - VersionOf(db.approvals, p)
      {
        RecordsAdd(db.audit, RebootRecords(db.approvals), p);
        RebootRecordsCount(db.approvals, p);
      }
    }
    forall p | p in db.approvals
      ensures Settles(db.approvals[p], db'.approvals[p]) && Terminal(db'.approvals[p])
    {
      RebootSettles(db.approvals[p], now);
    }
    SettlingStep(db, db');
  }

  lemma AbortRecords(ids: set<Id>, p: Id)
    ensures RecordsOf(multiset(set id | id in ids :: ApprovalTerminal(id)), p) == if p in ids then 1 else 0
  {
    var s := set id | id in ids :: ApprovalTerminal(id);
    assert ApprovalTerminal(p) in s <==> p in ids;
  }

  lemma AbortAccounted(db: Database, ids: set<Id>, db': Database)
    requires ids == set p | p in db.approvals && p in ids
    requires db'.audit == db.audit + multiset(set id | id in ids :: ApprovalTerminal(id))
    requires db'.approvals.Keys == db.approvals.Keys
    requires forall p :: p in db.approvals ==>
      db'.approvals[p].version == db.approvals[p].version + if p in ids then 1 else 0
    ensures Accounted(db, db')
  {
    forall p
      ensures RecordsOf(db'.audit, p) - RecordsOf(db.audit, p)
        == VersionOf(db'.approvals, p) - VersionOf(db.approvals, p)
    {
      RecordsAdd(db.audit, multiset(set id | id in ids :: ApprovalTerminal(id)), p);
      AbortRecords(ids, p);
    }
  }

  lemma AbortStep(db: Database, session: Id, now: int, commit: bool)
    requires Inv(db)
    ensures var db' := AbortLive(db, session, now, commit).0;
      Inv(db') && Advances(db, db') && db'.approvals.Keys == db.approvals.Keys
  {
    var ids := PendingIds(db.approvals, session);
    if ids != {} && commit {
      var db' := AbortLive(db, session, now, commit).0;
      AbortAccounted(db, ids, db');
      SettlingStep(db, db');
    } else {
      Unmoved(db);
    }
  }

  // ---- One row changes --------------------------------------------------------------------

  lemma OneRecord(audit: multiset<Audit>, record: Audit, p: Id)
    requires record in {PlanSubmitted(p), ApprovalResolved(p), ExecutionClaimed(p), ExecutionFinished(p)}
    ensures RecordsOf(audit + multiset{record}, p) == RecordsOf(audit, p) + 1
    ensures forall q :: q != p ==> RecordsOf(audit + multiset{record}, q) == RecordsOf(audit, q)
  {
  }

  lemma SettleOne(db: Database, db': Database, p: Id, row: Proposal, record: Audit)
    requires Inv(db) && p in db.approvals && row != db.approvals[p] && Settles(db.approvals[p], row)
    requires record in {ApprovalResolved(p), ExecutionClaimed(p), ExecutionFinished(p)}
    requires db' == db.(approvals := db.approvals[p := row], audit := db.audit + multiset{record})
    ensures Inv(db') && Advances(db, db')
  {
    OneRecord(db.audit, record, p);
    assert Accounted(db, db') && db'.approvals.Keys == db.approvals.Keys;
    SettlingStep(db, db');
  }

  lemma OwnerIsUnique(a: Approvals, e: Id, p: Id)
    requires UniqueExecutions(a) && p in a && a[p].execution == Some(e)
    ensures Owner(a, e) == Some(p)
  {
  }

  lemma ClaimStep(db: Database, e: Id, commit: bool)
    requires Inv(db)
    ensures var db' := Claim(db, e, commit).0; Inv(db') && Advances(db, db') && db'.approvals.Keys == db.approvals.Keys
  {
    var (db', r) := Claim(db, e, commit);
    if r.Ok? {
      var p := r.value;
      assert Shape(db.approvals[p]);
      SettleOne(db, db', p, db'.approvals[p], ExecutionClaimed(p));
    }
  }

  lemma FinishStep(db: Database, e: Id, status: string, error: Option<string>, commit: bool)
    requires Inv(db)
    ensures var db' := Finish(db, e, status, error, commit).0;
      Inv(db') && Advances(db, db') && db'.approvals.Keys == db.approvals.Keys
  {
    var (db', r) := Finish(db, e, status, error, commit);
    if db' != db {
      var p := r.value;
      assert Shape(db.approvals[p]);
      SettleOne(db, db', p, db'.approvals[p], ExecutionFinished(p));
    }
  }

  /** What becomes of the rows when one pending proposal turns into a queued execution. */
  lemma ApproveRows(a: Approvals, p: Id, row: Proposal)
    requires OnePending(a) && OneActive(a) && UniqueExecutions(a) && p in a
    requires row.session == a[p].session && row.status != Pending && row.execution.Some?
    requires !HasActive(a, row.session) && forall q :: q in a ==> a[q].execution != row.execution
    ensures OnePending(a[p := row]) && OneActive(a[p := row]) && UniqueExecutions(a[p := row])
  {
    assert forall q :: q in a && a[q].session == row.session ==> !Active(a[q]);
  }

  /** The approving branch: the session leaves its contract mode as the execution is queued. */
  lemma ApproveStep(db: Database, db': Database, p: Id, target: string, e: Id, now: int)
    requires Inv(db) && p in db.approvals && db.approvals[p].status == Pending
    requires var row := db.approvals[p];
      && !HasActive(db.approvals, row.session)
      && (forall q :: q in db.approvals ==> db.approvals[q].execution != Some(e))
      && db' == db.(
           sessions := db.sessions[row.session := db.sessions[row.session].(mode := Agent, permission := target)],
           approvals := db.approvals[p := ResolvedRow(row, Approve, Some(target), e, now)],
           audit := db.audit + multiset{ApprovalResolved(p)})
    ensures Inv(db') && Advances(db, db')
  {
    OneRecord(db.audit, ApprovalResolved(p), p);
    ApproveRows(db.approvals, p, db'.approvals[p]);
    ApproveModes(db, db', p);
    assert Shape(db.approvals[p]);
  }

  lemma ApproveModes(db: Database, db': Database, p: Id)
    requires OnePending(db.approvals) && ModesAgree(db) && p in db.approvals && db.approvals[p].status == Pending
    requires db'.approvals.Keys == db.approvals.Keys
    requires forall q :: q in db.approvals && q != p ==> db'.approvals[q] == db.approvals[q]
    requires var s := db.approvals[p].session;
      && db'.approvals[p].session == s && db'.approvals[p].status != Pending
      && s in db'.sessions && db'.sessions[s].mode == Agent && db'.sessions == db.sessions[s := db'.sessions[s]]
    ensures ModesAgree(db')
  {
  }

  lemma ResolveStep(h: string -> string, db: Database, r: Resolution, io: ResolveIo)
    requires Inv(db)
    ensures var db' := ResolveLive(h, db, r, io).0;
      Inv(db') && Advances(db, db') && db'.approvals.Keys == db.approvals.Keys
  {
    var (db', reply) := ResolveLive(h, db, r, io);
    if db' != db {
      var p := db.approvals[r.proposal];
      var (action, target) := Decide(p, r).value;
      assert Shape(p);
      if action == Approve {
        ApproveStep(db, db', r.proposal, target.value, io.execution, io.now2);
      } else {
        SettleOne(db, db', r.proposal, ResolvedRow(p, action, target, io.execution, io.now2),
                  ApprovalResolved(r.proposal));
      }
    }
  }

  lemma SubmitRows(a: Approvals, p: Id, row: Proposal)
    requires OnePending(a) && OneActive(a) && UniqueExecutions(a)
    requires p !in a && row.status == Pending && row.execution.None? && !Active(row) && !HasPending(a, row.session)
    ensures OnePending(a[p := row]) && OneActive(a[p := row]) && UniqueExecutions(a[p := row])
  {
    assert forall q :: q in a && a[q].session == row.session ==> a[q].status != Pending;
  }

  /** A new pending proposal in a session whose mode is its kind's. */
  lemma NewRowStep(db: Database, db': Database, p: Id, row: Proposal)
    requires Inv(db) && p !in db.approvals && row.status == Pending && Shape(row)
    requires !HasPending(db.approvals, row.session)
    requires row.session in db.sessions && db.sessions[row.session].mode == Contract(row.kind)
    requires db'.approvals == db.approvals[p := row] && db'.audit == db.audit + multiset{PlanSubmitted(p)}
    requires db'.sessions == db.sessions && db'.turns == db.turns
    ensures Inv(db') && Advances(db, db')
  {
    OneRecord(db.audit, PlanSubmitted(p), p);
    SubmitRows(db.approvals, p, row);
    assert Audited(db) && Accounted(db, db');
  }

  lemma SubmitStep(h: string -> string, db: Database, s: Submission, kind: Kind, io: SubmitIo, db': Database)
    requires Inv(db) && db' == SubmitLive(h, db, s, kind, io).0
    ensures Inv(db') && Advances(db, db')
  {
    if db' != db {
      NewRowStep(db, db', io.id, db'.approvals[io.id]);
    } else {
      Unmoved(db);
    }
  }

  lemma SubmitAnchors(h: string -> string, db: Database, s: Submission, kind: Kind, io: SubmitIo, db': Database)
    requires db' == SubmitLive(h, db, s, kind, io).0
    ensures forall p :: p in db'.approvals && p !in db.approvals ==> HoldsPlan(h, db'.approvals[p])
  {
  }

  /** Writers of a session's mode keep away from sessions with approvals or executions. */
  lemma SessionStep(db: Database, db': Database, session: Id)
    requires Inv(db) && !HasPending(db.approvals, session) && !HasActive(db.approvals, session)
    requires db'.approvals == db.approvals && db'.turns == db.turns
    requires session in db'.sessions && db'.sessions == db.sessions[session := db'.sessions[session]]
    requires forall p :: RecordsOf(db'.audit, p) == RecordsOf(db.audit, p)
    ensures Inv(db') && Advances(db, db')
  {
  }

  // ---- Runs ----------------------------------------------------------------------------------

  /** When an operation expires overdue approvals before its own transaction. */
  function Expiry(op: Op): Option<int> {
    match op
    case DoSubmit(s, io) =>
      if Incomplete(s) || NormalizeKind(s.kindName).None? ||
         Utf8Length(s.markdown) > PLAN_MAX_MARKDOWN_BYTES || !io.expire
      then None else Some(io.now1)
    case DoResolve(r, io) => if io.expire then Some(io.now1) else None
    case DoAbort(_, now1, _, expire, _) => if expire then Some(now1) else None
    case DoConfigure(_, _, now, expire) => if expire then Some(now) else None
    case _ => None
  }

  /** The database once that expiry has committed. */
  function Middle(db: Database, op: Op): Database {
    if Expiry(op).Some? then Expire(db, Expiry(op).value) else db
  }

  /** The stored hash and size are those of the stored plan. */
  predicate HoldsPlan(h: string -> string, p: Proposal) {
    p.artifact.hash == h(p.plan) && p.artifact.size == Utf8Length(p.plan)
  }

  /** What every operation guarantees. */
  ghost predicate Sound(h: string -> string, db: Database, mid: Database, next: Database) {
    && Inv(mid) && Inv(next)
    && Advances(db, mid) && Advances(mid, next)
    && (forall p :: p in next.approvals && p !in db.approvals ==>
          HoldsPlan(h, next.approvals[p]))
  }

  lemma MiddleStep(db: Database, op: Op)
    requires Inv(db)
    ensures Inv(Middle(db, op)) && Advances(db, Middle(db, op)) && Middle(db, op).approvals.Keys == db.approvals.Keys
  {
    if Expiry(op).Some? {
      ExpireStep(db, Expiry(op).value);
    } else {
      Unmoved(db);
    }
  }

  lemma SoundBy(h: string -> string, db: Database, mid: Database, next: Database)
    requires Inv(mid) && Inv(next) && Advances(db, mid) && Advances(mid, next)
    requires mid.approvals.Keys == db.approvals.Keys && next.approvals.Keys == mid.approvals.Keys
    ensures Sound(h, db, mid, next)
  {
  }

  /** The operation, the database after its expiry, and the database after it. */
  ghost predicate Did(h: string -> string, db: Database, op: Op, mid: Database, next: Database) {
    Inv(db) && mid == Middle(db, op) && next == Apply(h, db, op)
  }

  lemma SubmitOp(h: string -> string, db: Database, op: Op, mid: Database, next: Database)
    requires Did(h, db, op, mid, next) && op.DoSubmit?
    ensures Sound(h, db, mid, next)
  {
    MiddleStep(db, op);
    if Expiry(op).Some? {
      var kind := NormalizeKind(op.s.kindName).value;
      assert next == SubmitLive(h, mid, op.s, kind, op.sio).0;
      SubmitStep(h, mid, op.s, kind, op.sio, next);
      SubmitAnchors(h, mid, op.s, kind, op.sio, next);
    } else {
      Unmoved(db);
    }
  }

  lemma ResolveOp(h: string -> string, db: Database, op: Op, mid: Database, next: Database)
    requires Did(h, db, op, mid, next) && op.DoResolve?
    ensures Sound(h, db, mid, next)
  {
    MiddleStep(db, op);
    if op.rio.expire {
      assert next == ResolveLive(h, mid, op.r, op.rio).0;
      ResolveStep(h, mid, op.r, op.rio);
    } else {
      Unmoved(db);
    }
    SoundBy(h, db, mid, next);
  }

  lemma AbortOp(h: string -> string, db: Database, op: Op, mid: Database, next: Database)
    requires Did(h, db, op, mid, next) && op.DoAbort?
    ensures Sound(h, db, mid, next)
  {
    MiddleStep(db, op);
    if op.expire {
      assert next == AbortLive(mid, op.session, op.now2, op.commit).0;
      AbortStep(mid, op.session, op.now2, op.commit);
    } else {
      Unmoved(db);
    }
    SoundBy(h, db, mid, next);
  }

  lemma ConfigureMeans(db: Database, session: Id, settings: Settings, now: int)
    ensures Configure(db, session, settings, now, true).0 == ConfigureLive(Expire(db, now), session, settings).0
  {
  }

  lemma ConfigureOp(h: string -> string, db: Database, op: Op, mid: Database, next: Database)
    requires Did(h, db, op, mid, next) && op.DoConfigure?
    ensures Sound(h, db, mid, next)
  {
    MiddleStep(db, op);
    if op.expire {
      ConfigureMeans(db, op.session, op.settings, op.now);
      ConfigureStep(mid, op.session, op.settings);
    } else {
      assert next == mid;
      Unmoved(mid);
    }
    SoundBy(h, db, mid, next);
  }

  /** An operation that expires nothing first. */
  lemma SoundAlone(h: string -> string, db: Database, next: Database)
    requires Inv(db) && Inv(next) && Advances(db, next) && next.approvals.Keys == db.approvals.Keys
    ensures Sound(h, db, db, next)
  {
    Unmoved(db);
    SoundBy(h, db, db, next);
  }

  lemma ClaimOp(h: string -> string, db: Database, op: Op, mid: Database, next: Database)
    requires Did(h, db, op, mid, next) && op.DoClaim?
    ensures Sound(h, db, mid, next)
  {
    assert mid == db && next == Claim(db, op.execution, op.commit).0;
    ClaimStep(db, op.execution, op.commit);
    SoundAlone(h, db, next);
  }

  lemma FinishOp(h: string -> string, db: Database, op: Op, mid: Database, next: Database)
    requires Did(h, db, op, mid, next) && op.DoFinish?
    ensures Sound(h, db, mid, next)
  {
    assert mid == db && next == Finish(db, op.execution, op.status, op.error, op.commit).0;
    FinishStep(db, op.execution, op.status, op.error, op.commit);
    SoundAlone(h, db, next);
  }

  /** Operations on sessions, turns and files leave the approvals alone. */
  lemma OtherStep(db: Database, db': Database)
    requires Inv(db) && db'.approvals == db.approvals && db'.audit == db.audit && OneRunningTurn(db'.turns)
    requires forall s :: s in db.sessions ==> s in db'.sessions && db'.sessions[s] == db.sessions[s]
    ensures Inv(db') && Advances(db, db')
  {
  }

  lemma OtherFacts(h: string -> string, db: Database, op: Op, next: Database)
    requires next == Apply(h, db, op) && OneRunningTurn(db.turns)
    requires op.CreateSession? || op.DoBeginTurn? || op.EndTurn? || op.EditFiles?
    ensures next.approvals == db.approvals && next.audit == db.audit && OneRunningTurn(next.turns)
    ensures forall s :: s in db.sessions ==> s in next.sessions && next.sessions[s] == db.sessions[s]
  {
  }

  lemma OtherOp(h: string -> string, db: Database, op: Op, mid: Database, next: Database)
    requires Did(h, db, op, mid, next) && (op.CreateSession? || op.DoBeginTurn? || op.EndTurn? || op.EditFiles?)
    ensures Sound(h, db, mid, next)
  {
    assert mid == db;
    OtherFacts(h, db, op, next);
    OtherStep(db, next);
    SoundAlone(h, db, next);
  }

  lemma EnterOp(h: string -> string, db: Database, op: Op, mid: Database, next: Database)
    requires Did(h, db, op, mid, next) && op.DoEnter?
    ensures Sound(h, db, mid, next)
  {
    EnterStep(db, op.session, op.turn, op.call, op.kindName, op.commit, next);
    Unmoved(db);
    SoundBy(h, db, mid, next);
  }

  lemma ExpireOp(h: string -> string, db: Database, op: Op, mid: Database, next: Database)
    requires Did(h, db, op, mid, next) && op.DoExpire?
    ensures Sound(h, db, mid, next)
  {
    assert mid == db && next == Expire(db, op.now);
    ExpireStep(db, op.now);
    SoundAlone(h, db, next);
  }

  lemma RebootOp(h: string -> string, db: Database, op: Op, mid: Database, next: Database)
    requires Did(h, db, op, mid, next) && op.DoReboot?
    ensures Sound(h, db, mid, next)
  {
    assert mid == db && next == Reboot(db, op.now);
    RebootStep(db, op.now);
    SoundAlone(h, db, next);
  }

  /** Main result: every operation keeps the invariant, and moves each proposal
      along at most one lifecycle edge by its expiry and one by its own transaction. */
  lemma EveryStep(h: string -> string, db: Database, op: Op, mid: Database, next: Database)
    requires Did(h, db, op, mid, next)
    ensures Sound(h, db, mid, next)
  {
    match op
    case DoEnter(_, _, _, _, _) => EnterOp(h, db, op, mid, next);
    case DoSubmit(_, _) => SubmitOp(h, db, op, mid, next);
    case DoResolve(_, _) => ResolveOp(h, db, op, mid, next);
    case DoExpire(_) => ExpireOp(h, db, op, mid, next);
    case DoAbort(_, _, _, _, _) => AbortOp(h, db, op, mid, next);
    case DoClaim(_, _) => ClaimOp(h, db, op, mid, next);
    case DoFinish(_, _, _, _) => FinishOp(h, db, op, mid, next);
    case DoConfigure(_, _, _, _) => ConfigureOp(h, db, op, mid, next);
    case DoReboot(_) => RebootOp(h, db, op, mid, next);
    case _ => OtherOp(h, db, op, mid, next);
  }

  lemma EnterStep(
    db: Database, session: Id, turn: Id, call: Id, kindName: string, commit: bool, db': Database)
    requires Inv(db) && db' == Enter(db, session, turn, call, kindName, commit).0
    ensures Inv(db') && Advances(db, db') && db'.approvals == db.approvals
  {
    if db' != db {
      SessionStep(db, db', session);
    }
  }

  lemma ConfigureStep(db: Database, session: Id, settings: Settings)
    requires Inv(db)
    ensures var db' := ConfigureLive(db, session, settings).0;
      Inv(db') && Advances(db, db') && db'.approvals.Keys == db.approvals.Keys
  {
    var db' := ConfigureLive(db, session, settings).0;
    if session in db.sessions && Configured(db.sessions[session], settings) != db.sessions[session] && db' != db {
      SessionStep(db, db', session);
    } else {
      assert db'.sessions == db.sessions;
    }
  }

  // ---- Forward only ------------------------------------------------------------------------

  /** How far a proposal has come; no edge leads back or sideways. */
  function Stage(p: Proposal): nat {
    if p.status == Pending then 0
    else if p.state == Some(Queued) then 1
    else if p.state == Some(Running) then 2
    else 3
  }

  /** Everything a run can do to a proposal. */
  ghost predicate Later(p: Proposal, q: Proposal) {
    && SameIdentity(p, q) && Stage(p) <= Stage(q) && p.version <= q.version
    && (Stage(p) == Stage(q) ==> p == q)
    && (Stage(p) >= 1 ==>
          q.status == p.status && q.execution == p.execution && q.action == p.action && q.target == p.target)
  }

  lemma EdgeIsLater(p: Proposal, q: Proposal)
    requires p == q || (Edge(p, q) && SameIdentity(p, q))
    requires Shape(p) && Shape(q)
    ensures Later(p, q)
  {
  }

  ghost predicate Forward(db: Database, db': Database) {
    forall p :: p in db.approvals ==> p in db'.approvals && Later(db.approvals[p], db'.approvals[p])
  }

  lemma StepForward(h: string -> string, db: Database, mid: Database, next: Database)
    requires Inv(db) && Sound(h, db, mid, next)
    ensures Forward(db, next)
    ensures Anchored(h, db.approvals) ==> Anchored(h, next.approvals)
  {
    forall p | p in db.approvals
      ensures p in next.approvals && Later(db.approvals[p], next.approvals[p])
    {
      EdgeIsLater(db.approvals[p], mid.approvals[p]);
      EdgeIsLater(mid.approvals[p], next.approvals[p]);
    }
  }

  ghost predicate Anchored(h: string -> string, a: Approvals) {
    forall p :: p in a ==> HoldsPlan(h, a[p])
  }

  lemma ForwardTransitive(a: Database, b: Database, c: Database)
    requires Forward(a, b) && Forward(b, c)
    ensures Forward(a, c)
  {
    forall p | p in a.approvals
      ensures p in c.approvals && Later(a.approvals[p], c.approvals[p])
    {
      assert Later(b.approvals[p], c.approvals[p]);
    }
  }

  ghost function Run(h: string -> string, db: Database, ops: seq<Op>): Database
    decreases |ops|
  {
    if ops == [] then db else Run(h, Apply(h, db, ops[0]), ops[1..])
  }

  lemma {:induction false} RunForward(h: string -> string, db: Database, ops: seq<Op>)
    requires Inv(db)
    ensures Inv(Run(h, db, ops)) && Forward(db, Run(h, db, ops))
    ensures Anchored(h, db.approvals) ==> Anchored(h, Run(h, db, ops).approvals)
    decreases |ops|
  {
    if ops == [] {
      assert forall p :: p in db.approvals ==> Later(db.approvals[p], db.approvals[p]);
    } else {
      var next := Apply(h, db, ops[0]);
      EveryStep(h, db, ops[0], Middle(db, ops[0]), next);
      StepForward(h, db, Middle(db, ops[0]), next);
      RunForward(h, next, ops[1..]);
      ForwardTransitive(db, next, Run(h, db, ops));
    }
  }

  const EMPTY_DATABASE := Database(map[], map[], map[], multiset{}, map[])

  /** Main result: the invariant holds in every database reachable from an empty one;
      in particular a session never has a pending approval and an active execution. */
  lemma ReachableHasInv(h: string -> string, ops: seq<Op>)
    ensures var end := Run(h, EMPTY_DATABASE, ops);
      && Inv(end) && Anchored(h, end.approvals)
      && forall s :: !(HasPending(end.approvals, s) && HasActive(end.approvals, s))
  {
    RunForward(h, EMPTY_DATABASE, ops);
  }

  lemma ShapeBounds(p: Proposal)
    requires Shape(p)
    ensures 1 <= p.version <= 4
    ensures Terminal(p) <==> Stage(p) == 3
  {
    match p.state
    case None =>
    case Some(Queued) =>
    case Some(_) =>
  }

  /** Main result: over any run a proposal keeps its identity, moves only forward,
      never leaves a terminal state, and has one audit record per version. */
  lemma ProposalsMoveForward(h: string -> string, db: Database, ops: seq<Op>, p: Id)
    requires Inv(db) && p in db.approvals
    ensures var end := Run(h, db, ops);
      && p in end.approvals && Later(db.approvals[p], end.approvals[p]) && end.approvals[p].version <= 4
      && (Terminal(db.approvals[p]) ==> end.approvals[p] == db.approvals[p])
      && RecordsOf(end.audit, p) == end.approvals[p].version
  {
    RunForward(h, db, ops);
    var end := Run(h, db, ops);
    ShapeBounds(db.approvals[p]);
    ShapeBounds(end.approvals[p]);
    assert RecordsOf(end.audit, p) == VersionOf(end.approvals, p);
  }

  // ---- Exactly once --------------------------------------------------------------------------

  /** A claim of the execution that succeeds. */
  ghost predicate ClaimsNow(db: Database, op: Op, e: Id) {
    op.DoClaim? && op.execution == e && Claim(db, e, op.commit).1.Ok?
  }

  /** A call that moves the execution to its end. */
  ghost predicate FinishesNow(db: Database, op: Op, e: Id) {
    op.DoFinish? && op.execution == e && Finish(db, e, op.status, op.error, op.commit).0 != db
  }

  ghost function Claims(h: string -> string, db: Database, ops: seq<Op>, e: Id): nat
    decreases |ops|
  {
    if ops == [] then 0
    else (if ClaimsNow(db, ops[0], e) then 1 else 0) + Claims(h, Apply(h, db, ops[0]), ops[1..], e)
  }

  ghost function Finishes(h: string -> string, db: Database, ops: seq<Op>, e: Id): nat
    decreases |ops|
  {
    if ops == [] then 0
    else (if FinishesNow(db, ops[0], e) then 1 else 0) + Finishes(h, Apply(h, db, ops[0]), ops[1..], e)
  }

  ghost predicate Reached(db: Database, e: Id, stage: nat) {
    exists p :: p in db.approvals && db.approvals[p].execution == Some(e) && Stage(db.approvals[p]) >= stage
  }

  lemma ReachedStays(db: Database, next: Database, e: Id, stage: nat)
    requires Forward(db, next) && Reached(db, e, stage) && stage >= 1
    ensures Reached(next, e, stage)
  {
    var p :| p in db.approvals && db.approvals[p].execution == Some(e) && Stage(db.approvals[p]) >= stage;
    assert Later(db.approvals[p], next.approvals[p]);
  }

  lemma ClaimOnce(db: Database, op: Op, e: Id)
    requires Inv(db) && ClaimsNow(db, op, e)
    ensures !Reached(db, e, 2) && Reached(Claim(db, e, op.commit).0, e, 2)
  {
    var (db', r) := Claim(db, e, op.commit);
    assert db'.approvals[r.value].execution == Some(e);
    forall p | p in db.approvals && db.approvals[p].execution == Some(e)
      ensures p == r.value
    {
      OwnerIsUnique(db.approvals, e, p);
    }
  }

  lemma FinishOnce(db: Database, op: Op, e: Id)
    requires Inv(db) && FinishesNow(db, op, e)
    ensures !Reached(db, e, 3) && Reached(Finish(db, e, op.status, op.error, op.commit).0, e, 3)
  {
    var (db', r) := Finish(db, e, op.status, op.error, op.commit);
    assert db'.approvals[r.value].execution == Some(e);
    assert Shape(db.approvals[r.value]);
    forall p | p in db.approvals && db.approvals[p].execution == Some(e)
      ensures p == r.value
    {
      OwnerIsUnique(db.approvals, e, p);
    }
  }

  lemma StageStays(h: string -> string, db: Database, op: Op, e: Id, next: Database)
    requires Inv(db) && next == Apply(h, db, op)
    ensures Inv(next)
    ensures Reached(db, e, 2) ==> Reached(next, e, 2)
    ensures Reached(db, e, 3) ==> Reached(next, e, 3)
  {
    EveryStep(h, db, op, Middle(db, op), next);
    StepForward(h, db, Middle(db, op), next);
    if Reached(db, e, 2) { ReachedStays(db, next, e, 2); }
    if Reached(db, e, 3) { ReachedStays(db, next, e, 3); }
  }

  lemma ClaimOnceStep(h: string -> string, db: Database, op: Op, e: Id, next: Database)
    requires Inv(db) && next == Apply(h, db, op) && ClaimsNow(db, op, e)
    ensures !Reached(db, e, 2) && Reached(next, e, 2)
  {
    assert next == Claim(db, e, op.commit).0;
    ClaimOnce(db, op, e);
  }

  lemma FinishOnceStep(h: string -> string, db: Database, op: Op, e: Id, next: Database)
    requires Inv(db) && next == Apply(h, db, op) && FinishesNow(db, op, e)
    ensures !Reached(db, e, 3) && Reached(next, e, 3)
  {
    assert next == Finish(db, e, op.status, op.error, op.commit).0;
    FinishOnce(db, op, e);
  }

  /** Main result: over any run each execution is claimed at most once and finished at most once. */
  lemma {:induction false} ExecutedAtMostOnce(h: string -> string, db: Database, ops: seq<Op>, e: Id)
    requires Inv(db)
    ensures Claims(h, db, ops, e) <= 1 && Finishes(h, db, ops, e) <= 1
    ensures Reached(db, e, 2) ==> Claims(h, db, ops, e) == 0
    ensures Reached(db, e, 3) ==> Finishes(h, db, ops, e) == 0
    decreases |ops|
  {
    if ops != [] {
      StageStays(h, db, ops[0], e, Apply(h, db, ops[0]));
      if ClaimsNow(db, ops[0], e) {
        ClaimOnceStep(h, db, ops[0], e, Apply(h, db, ops[0]));
      }
      if FinishesNow(db, ops[0], e) {
        FinishOnceStep(h, db, ops[0], e, Apply(h, db, ops[0]));
      }
      ExecutedAtMostOnce(h, Apply(h, db, ops[0]), ops[1..], e);
    }
  }

  // ---- Decisions -------------------------------------------------------------------------------

  ghost predicate Injective(h: string -> string) {
    forall x, y :: h(x) == h(y) ==> x == y
  }

  /** A refused or failed decision leaves what the expiry before it left. */
  lemma RefusedDecisionsChangeNothing(h: string -> string, db: Database, r: Resolution, io: ResolveIo)
    requires Resolve(h, db, r, io).1.Err?
    ensures Resolve(h, db, r, io).0 == if io.expire then Expire(db, io.now1) else db
  {
  }

  /** What a decision on a pending proposal must bring along, besides working storage. */
  predicate DecisionFits(db: Database, r: Resolution, io: ResolveIo, p: Proposal) {
    && io.now2 < p.expiresAt && r.session == p.session && r.turn == p.turn && r.call == p.call
    && (r.version.Some? ==> r.version.value == 1)
    && (r.action == "reject" ||
        (&& r.action == "approve" && r.workspace && r.target.Some? && r.target.value in {"ask", "accept-edits", "auto"}
         && p.artifact.path in db.files && db.files[p.artifact.path] == p.plan
         && forall q :: q in db.approvals ==> db.approvals[q].execution != Some(io.execution)))
  }

  /** In a database with the invariant nothing active and no other mode stands against a pending proposal. */
  lemma PendingIsFree(db: Database, id: Id)
    requires Inv(db) && id in db.approvals && db.approvals[id].status == Pending
    ensures var p := db.approvals[id];
      && p.version == 1 && p.session in db.sessions && db.sessions[p.session].mode == Contract(p.kind)
      && !HasActive(db.approvals, p.session)
  {
    var p := db.approvals[id];
    assert Shape(p);
    forall q | q in db.approvals && db.approvals[q].session == p.session
      ensures !Active(db.approvals[q])
    {
    }
  }

  /** The stored artifact is accepted exactly when its file still holds the plan. */
  lemma VerifiedIffSame(h: string -> string, files: Files, p: Proposal)
    requires Injective(h) && HoldsPlan(h, p)
    ensures VerifyArtifact(h, files, p.artifact).None? <==>
      p.artifact.path in files && files[p.artifact.path] == p.plan
  {
  }

  lemma LiveDecidedIff(h: string -> string, db: Database, r: Resolution, io: ResolveIo, p: Proposal)
    requires Injective(h) && HoldsPlan(h, p) && r.proposal in db.approvals && p == db.approvals[r.proposal]
    requires p.status == Pending && p.version == 1 && p.session in db.sessions
    requires db.sessions[p.session].mode == Contract(p.kind) && !HasActive(db.approvals, p.session)
    ensures ResolveLive(h, db, r, io).1.Ok? <==> io.commit && DecisionFits(db, r, io, p)
    ensures ResolveLive(h, db, r, io).1 !in {Err(ExecutionActive), Err(NotActive)}
  {
    VerifiedIffSame(h, db.files, p);
  }

  /** After its deadline a proposal is not decided. */
  lemma LateIsRefused(h: string -> string, db: Database, r: Resolution, io: ResolveIo)
    requires r.proposal in db.approvals && db.approvals[r.proposal].status == Expired
    ensures ResolveLive(h, db, r, io).1.Err?
    ensures ResolveLive(h, db, r, io).1 !in {Err(ExecutionActive), Err(NotActive)}
  {
  }

  /** Expiry changes nothing that a decision on another proposal looks at. */
  lemma FitsAfterExpiry(db: Database, r: Resolution, io: ResolveIo, p: Proposal)
    ensures DecisionFits(Expire(db, io.now1), r, io, p) <==> DecisionFits(db, r, io, p)
  {
    SameExecutions(db, io.now1);
  }

  /**
   Main result: in any reachable database a pending proposal is decided exactly when the expiry and the
   transaction commit, the deadline is still to come at both clock readings, and the decision fits: it
   names the proposal, and an approval brings a permission, a workspace whose artifact still holds the
   plan, and a new execution. It is never refused for an active execution or for the session's mode.
   */
  lemma DecidedIffFits(h: string -> string, db: Database, r: Resolution, io: ResolveIo, p: Proposal)
    requires Inv(db) && Injective(h) && Anchored(h, db.approvals)
    requires r.proposal in db.approvals && p == db.approvals[r.proposal] && p.status == Pending
    ensures Resolve(h, db, r, io).1.Ok? <==>
      io.expire && io.commit && io.now1 < p.expiresAt && DecisionFits(db, r, io, p)
    ensures Resolve(h, db, r, io).1 !in {Err(ExecutionActive), Err(NotActive)}
    ensures Resolve(h, db, r, io).1.Err? ==> Resolve(h, db, r, io).0 == if io.expire then Expire(db, io.now1) else db
  {
    if Resolve(h, db, r, io).1.Err? {
      RefusedDecisionsChangeNothing(h, db, r, io);
    }
    if io.expire {
      var mid := Expire(db, io.now1);
      StillPending(db, r, io, p);
      SameExecutions(db, io.now1);
      if mid.approvals[r.proposal].status == Expired {
        LateIsRefused(h, mid, r, io);
      } else {
        ExpireStep(db, io.now1);
        PendingIsFree(mid, r.proposal);
        LiveDecidedIff(h, mid, r, io, p);
        FitsAfterExpiry(db, r, io, p);
      }
    }
  }

  lemma SameExecutions(db: Database, now: int)
    ensures Expire(db, now).approvals.Keys == db.approvals.Keys
    ensures forall q :: q in db.approvals ==> Expire(db, now).approvals[q].execution == db.approvals[q].execution
  {
  }

  /** A row once the approvals that are overdue at this time have expired. */
  function RowAt(a: Approvals, id: Id, now: int): Proposal
    requires id in a
  {
    var p := a[id];
    if p.status == Pending && p.expiresAt <= now then
      p.(status := Expired, resolvedAt := Some(now), error := Some("PLAN_APPROVAL_TIMEOUT"), version := p.version + 1)
    else p
  }

  /** What a decision on the pending proposal `p` makes of the database `db`. */
  ghost predicate DecisionWritten(db: Database, r: Resolution, io: ResolveIo, p: Proposal, db': Database)
    requires r.proposal in db.approvals && p.session in db.sessions && (r.action == "approve" ==> r.target.Some?)
  {
    var was := db.sessions[p.session];
    && db'.turns == db.turns && db'.files == db.files && db'.approvals.Keys == db.approvals.Keys
    && (forall q :: q in db.approvals && q != r.proposal ==> db'.approvals[q] == RowAt(db.approvals, q, io.now1))
    && (r.action == "approve" ==>
          && db'.sessions
             == db.sessions[p.session := Session(Agent, was.provider, was.model, was.thinking, r.target.value)]
          && db'.approvals[r.proposal]
             == p.(status := Approved, action := Some(Approve), target := r.target, resolvedAt := Some(io.now2),
                   error := None, version := 2, execution := Some(io.execution), state := Some(Queued)))
    && (r.action == "reject" ==>
          && db'.sessions == db.sessions
          && db'.approvals[r.proposal]
             == p.(status := Rejected, action := Some(Reject), target := None, resolvedAt := Some(io.now2),
                   error := None, version := 2, execution := None, state := None))
  }

  /** Main result: a proposal is decided only before its deadline. An approval needs an artifact that
      still holds the submitted plan; it puts the session into Agent mode with the permission
      it brings, and queues a new execution. A rejection leaves every session alone. Beyond expired
      approvals no other row changes. */
  lemma DecisionsAreSound(h: string -> string, db: Database, r: Resolution, io: ResolveIo, p: Proposal)
    requires Inv(db) && Injective(h) && Anchored(h, db.approvals) && Resolve(h, db, r, io).1.Ok?
    requires r.proposal in db.approvals && p == db.approvals[r.proposal] && p.status == Pending
    ensures p.session in db.sessions && io.now1 < p.expiresAt && io.now2 < p.expiresAt
    ensures r.action == "approve" || r.action == "reject"
    ensures r.action == "approve" ==>
      && r.target.Some? && r.target.value in {"ask", "accept-edits", "auto"}
      && p.artifact.path in db.files && db.files[p.artifact.path] == p.plan
    ensures DecisionWritten(db, r, io, p, Resolve(h, db, r, io).0)
  {
    DecidedIffFits(h, db, r, io, p);
    PendingIsFree(db, r.proposal);
    StillPending(db, r, io, p);
    var mid := Expire(db, io.now1);
    LiveDecisionWrites(h, mid, r, io, p);
    forall q | q in db.approvals && q != r.proposal
      ensures Resolve(h, db, r, io).0.approvals[q] == RowAt(db.approvals, q, io.now1)
    {
      assert Resolve(h, db, r, io).0.approvals[q] == mid.approvals[q];
    }
  }

  /** A proposal that expiry leaves pending is the same as before, and its deadline is still to come. */
  lemma StillPending(db: Database, r: Resolution, io: ResolveIo, p: Proposal)
    requires r.proposal in db.approvals && p == db.approvals[r.proposal] && p.status == Pending
    ensures var q := Expire(db, io.now1).approvals[r.proposal];
      if io.now1 < p.expiresAt then q == p else q.status == Expired
  {
  }

  /** What a decision after expiry writes. */
  lemma LiveDecisionWrites(h: string -> string, db: Database, r: Resolution, io: ResolveIo, p: Proposal)
    requires ResolveLive(h, db, r, io).1.Ok? && r.proposal in db.approvals && p == db.approvals[r.proposal]
    requires p.status == Pending && p.version == 1 && p.session in db.sessions
    requires r.action == "reject" || (r.action == "approve" && r.target.Some?)
    ensures var db' := ResolveLive(h, db, r, io).0; var was := db.sessions[p.session];
      && db'.turns == db.turns && db'.files == db.files && db'.approvals.Keys == db.approvals.Keys
      && (forall q :: q in db.approvals && q != r.proposal ==> db'.approvals[q] == db.approvals[q])
      && db'.sessions == (if r.action == "reject" then db.sessions else
           db.sessions[p.session := Session(Agent, was.provider, was.model, was.thinking, r.target.value)])
      && db'.approvals[r.proposal] == (
           if r.action == "reject" then
             p.(status := Rejected, action := Some(Reject), target := None, resolvedAt := Some(io.now2),
                error := None, version := 2, execution := None, state := None)
           else
             p.(status := Approved, action := Some(Approve), target := r.target, resolvedAt := Some(io.now2),
                error := None, version := 2, execution := Some(io.execution), state := Some(Queued)))
  {
  }

  /** The proposal carries exactly this decision. */
  predicate CarriesDecision(p: Proposal, r: Resolution) {
    && p.status in {Approved, Rejected} && p.session == r.session && p.turn == r.turn && p.call == r.call
    && (r.action == "approve" || r.action == "reject")
    && p.action == Some(if r.action == "approve" then Approve else Reject)
    && (r.action == "approve" ==>
          r.target.Some? && r.target.value in {"ask", "accept-edits", "auto"} && p.target == r.target)
  }

  /** Main result: repeating a decision later, after any run, changes nothing and
      names the same execution. */
  lemma DecisionsRepeat(h: string -> string, db: Database, r: Resolution, io: ResolveIo,
                        db1: Database, ops: seq<Op>, db2: Database, again: ResolveIo)
    requires Inv(db) && Resolve(h, db, r, io) == (db1, Ok(r.proposal))
    requires db2 == Run(h, db1, ops) && again.expire
    ensures Resolve(h, db2, r, again) == (Expire(db2, again.now1), Ok(r.proposal))
    ensures r.proposal in db1.approvals && r.proposal in db2.approvals
    ensures Expire(db2, again.now1).approvals[r.proposal].execution == db1.approvals[r.proposal].execution
  {
    ResolveOp(h, db, DoResolve(r, io), Middle(db, DoResolve(r, io)), db1);
    DecidedBy(h, db, r, io);
    DecisionStays(h, db1, ops, r);
    RepeatedDecision(h, db2, r, again);
  }

  lemma DecisionStays(h: string -> string, db: Database, ops: seq<Op>, r: Resolution)
    requires Inv(db) && r.proposal in db.approvals && CarriesDecision(db.approvals[r.proposal], r)
    ensures var end := Run(h, db, ops);
      && r.proposal in end.approvals && CarriesDecision(end.approvals[r.proposal], r)
      && end.approvals[r.proposal].execution == db.approvals[r.proposal].execution
  {
    RunForward(h, db, ops);
    assert Later(db.approvals[r.proposal], Run(h, db, ops).approvals[r.proposal]);
  }

  /** Resolving what is already decided the same way. */
  lemma RepeatedDecision(h: string -> string, db: Database, r: Resolution, io: ResolveIo)
    requires io.expire && r.proposal in db.approvals && CarriesDecision(db.approvals[r.proposal], r)
    ensures Resolve(h, db, r, io) == (Expire(db, io.now1), Ok(r.proposal))
    ensures Expire(db, io.now1).approvals[r.proposal] == db.approvals[r.proposal]
  {
  }

  lemma LiveDecidedBy(h: string -> string, db: Database, r: Resolution, io: ResolveIo)
    requires ResolveLive(h, db, r, io).1.Ok? && forall p :: p in db.approvals ==> Shape(db.approvals[p])
    ensures var db1 := ResolveLive(h, db, r, io).0;
      r.proposal in db1.approvals && CarriesDecision(db1.approvals[r.proposal], r)
  {
    assert r.proposal in db.approvals;
    assert Shape(db.approvals[r.proposal]);
  }

  lemma DecidedBy(h: string -> string, db: Database, r: Resolution, io: ResolveIo)
    requires Inv(db) && Resolve(h, db, r, io).1.Ok?
    ensures var db1 := Resolve(h, db, r, io).0;
      r.proposal in db1.approvals && CarriesDecision(db1.approvals[r.proposal], r)
  {
    ExpireStep(db, io.now1);
    LiveDecidedBy(h, Expire(db, io.now1), r, io);
  }
}
