/**
 The plan manager over its tables (crates/host-core/src/plans.rs and the boot
 recovery of crates/host-core/src/db.rs): every method runs the source's checks
 and statements in order and is proved to do what the operation specifies.
 */
module PlanHost {
  import opened Text
  import opened Plans
  import PlanRuns
  import opened Wrappers

  class Host {
    const hash: string -> string
    var sessions: map<Id, Session>
    var turns: map<Id, Turn>
    var approvals: Approvals
    var audit: multiset<Audit>
    var files: Files

    function Db(): Database
      reads this
    {
      Database(sessions, turns, approvals, audit, files)
    }

    constructor (hash: string -> string)
      ensures Db() == PlanRuns.EMPTY_DATABASE && this.hash == hash
    {
      this.hash := hash;
      sessions, turns, approvals, audit, files := map[], map[], map[], multiset{}, map[];
    }

    method ExpirePendingApprovals(now: int)
      modifies this`approvals, this`audit
      ensures Db() == Expire(old(Db()), now)
    {
      var expired := OverdueIds(approvals, now);
      approvals := ExpireRows(approvals, now);
      var rest := expired;
      while rest != {}
        invariant rest <= expired && approvals == ExpireRows(old(approvals), now)
        invariant audit == old(audit) + ExpiryRecords(expired - rest)
      {
        var id :| id in rest;
        OneMoreExpired(expired - rest, id);
        assert expired - rest + {id} == expired - (rest - {id});
        rest := rest - {id};
        audit := audit + multiset{ApprovalExpired(id)};
      }
      assert expired - rest == expired;
    }

    method EnterPlan(session: Id, turn: Id, call: Id, kindName: string, commit: bool) returns (reply: Reply<()>)
      modifies this`sessions, this`audit
      ensures (Db(), reply) == Enter(old(Db()), session, turn, call, kindName, commit)
    {
      if Blank(session) || Blank(turn) || Blank(call) { return Err(InvalidArgument); }
      var kind := NormalizeKind(kindName);
      if kind.None? { return Err(InvalidArgument); }
      if session !in sessions { return Err(SessionNotFound); }
      if sessions[session].mode != Agent { return Err(AlreadyActive); }
      if !LiveTurn(Db(), session, turn) || HasActive(approvals, session) { return Err(ApprovalStale); }
      if !commit { return Err(Storage); }
      sessions := sessions[session := sessions[session].(mode := Contract(kind.value))];
      audit := audit + multiset{PlanEntered(session, kind.value)};
      reply := Ok(());
    }

    /** Creates the artifact under the first name not taken. */
    method PublishArtifact(kind: Kind, stem: string, markdown: string, io: PublishIo) returns (reply: Reply<Artifact>)
      modifies this`files
      ensures (files, reply) == Publish(hash, old(files), kind, stem, markdown, io)
      ensures forall f :: f in old(files) ==> f in files && files[f] == old(files)[f]
      ensures reply.Ok? ==>
        && reply.value.path !in old(files) && reply.value.path in files
        && files[reply.value.path] == markdown
    {
      if markdown == "" { return Err(InvalidArgument); }
      if Utf8Length(markdown) > PLAN_MAX_MARKDOWN_BYTES { return Err(MarkdownTooLarge); }
      if io == DirectoryUnsafe { return Err(ArtifactPathUnsafe); }
      var suffix := 1;
      while suffix <= MAX_ARTIFACT_SUFFIX
        invariant 1 <= suffix <= MAX_ARTIFACT_SUFFIX + 1
        invariant FirstFree(files, kind, stem, 1) == FirstFree(files, kind, stem, suffix)
        invariant files == old(files)
      {
        var path := ArtifactPath(kind, stem, suffix);
        if path !in files {
          if io == OpenFails { return Err(ArtifactWriteFailed); }
          if io == WriteFails { return Err(ArtifactWriteFailed); }
          files := files[path := markdown];
          return Ok(Artifact(path, hash(markdown), Utf8Length(markdown)));
        }
        suffix := suffix + 1;
      }
      reply := Err(ArtifactCollisionLimit);
    }

    method SubmitPlan(s: Submission, io: SubmitIo) returns (reply: Reply<Id>)
      modifies this`approvals, this`audit, this`files
      ensures (Db(), reply) == Submit(hash, old(Db()), s, io)
      ensures reply.Err? ==> files == old(files)
    {
      if Incomplete(s) { return Err(InvalidArgument); }
      var kind := NormalizeKind(s.kindName);
      if kind.None? { return Err(InvalidArgument); }
      if Utf8Length(s.markdown) > PLAN_MAX_MARKDOWN_BYTES { return Err(MarkdownTooLarge); }
      if !io.expire { return Err(Storage); }
      ExpirePendingApprovals(io.now1);
      if s.session !in sessions { return Err(SessionNotFound); }
      match sessions[s.session].mode {
        case Agent => return Err(NotActive);
        case Contract(active) => if active != kind.value { return Err(KindMismatch); }
      }
      if !LiveTurn(Db(), s.session, s.turn) { return Err(ApprovalStale); }
      if HasPending(approvals, s.session) { return Err(AlreadyPending); }
      var before := files;
      var artifact := PublishArtifact(kind.value, io.stem, s.markdown, io.publish);
      if artifact.Err? { return Err(artifact.error); }
      if !Insertable(approvals, io.id, s.session, s.call) || !io.commit {
        files := files - {artifact.value.path};
        assert files == before;
        return Err(Storage);
      }
      approvals := approvals[io.id := NewProposal(s, kind.value, artifact.value, io.now2)];
      audit := audit + multiset{PlanSubmitted(io.id)};
      reply := Ok(io.id);
    }

    method ResolvePlan(r: Resolution, io: ResolveIo) returns (reply: Reply<Id>)
      modifies this`sessions, this`approvals, this`audit
      ensures (Db(), reply) == Resolve(hash, old(Db()), r, io)
    {
      if !io.expire { return Err(Storage); }
      ExpirePendingApprovals(io.now1);
      if r.proposal !in approvals { return Err(NotFound); }
      var p := approvals[r.proposal];
      if p.session != r.session || p.turn != r.turn || p.call != r.call { return Err(ApprovalStale); }
      var action := ParseAction(r.action);
      if action.None? { return Err(InvalidAction); }
      if p.status == Expired { return Err(ApprovalTimeout); }
      var selected := None;
      if action.value == Approve {
        if r.target.None? { return Err(PermissionModeRequired); }
        if !ValidPermission(r.target.value) { return Err(PermissionModeInvalid); }
        selected := r.target;
      }
      if p.status != Pending {
        if SameResolution(p, action.value, selected) { return Ok(r.proposal); }
        return Err(ApprovalConflict);
      }
      if r.version.Some? && r.version.value != p.version { return Err(ApprovalStale); }
      if action.value == Approve {
        if !r.workspace { return Err(WorkspaceRequired); }
        var problem := VerifyArtifact(hash, files, p.artifact);
        if problem.Some? { return Err(problem.value); }
      }
      reply := CommitDecision(r, action.value, selected, io);
    }

    /** The transaction: the session's mode and the decision change together or not at all. */
    method CommitDecision(r: Resolution, action: Action, selected: Option<string>, io: ResolveIo)
      returns (reply: Reply<Id>)
      requires r.proposal in approvals
      modifies this`sessions, this`approvals, this`audit
      ensures (Db(), reply) == Commit(old(Db()), r.proposal, r, action, selected, io)
    {
      var p := approvals[r.proposal];
      var newSessions := sessions;
      if action == Approve {
        if HasActive(approvals, r.session) { return Err(ExecutionActive); }
        if r.session !in sessions || sessions[r.session].mode != Contract(p.kind) { return Err(NotActive); }
        if selected.Some? {
          newSessions := sessions[r.session := sessions[r.session].(mode := Agent, permission := selected.value)];
        }
      }
      if p.expiresAt <= io.now2 { return Err(ApprovalStale); }
      if action == Approve && (exists q :: q in approvals && approvals[q].execution == Some(io.execution)) {
        return Err(Storage);
      }
      if !io.commit { return Err(Storage); }
      sessions := newSessions;
      approvals := approvals[r.proposal := ResolvedRow(p, action, selected, io.execution, io.now2)];
      audit := audit + multiset{ApprovalResolved(r.proposal)};
      reply := Ok(r.proposal);
    }

    method AbortSession(session: Id, now1: int, now2: int, expire: bool, commit: bool) returns (reply: Reply<bool>)
      modifies this`approvals, this`audit
      ensures (Db(), reply) == Abort(old(Db()), session, now1, now2, expire, commit)
    {
      if !expire { return Err(Storage); }
      ExpirePendingApprovals(now1);
      var ids := PendingIds(approvals, session);
      if ids == {} { return Ok(false); }
      if !commit { return Err(Storage); }
      InterruptEach(ids, now2);
      reply := Ok(true);
    }

    /** One update and one record for every id. */
    method InterruptEach(ids: set<Id>, now: int)
      requires forall id :: id in ids ==> id in approvals
      modifies this`approvals, this`audit
      ensures approvals == map id | id in old(approvals) ::
        if id in ids then AbortedRow(old(approvals)[id], now) else old(approvals)[id]
      ensures audit == old(audit) + multiset(set id | id in ids :: ApprovalTerminal(id))
    {
      var rest := ids;
      while rest != {}
        invariant rest <= ids
        invariant approvals == map id | id in old(approvals) ::
          if id in ids - rest then AbortedRow(old(approvals)[id], now) else old(approvals)[id]
        invariant audit == old(audit) + multiset(set id | id in ids - rest :: ApprovalTerminal(id))
      {
        var id :| id in rest;
        ghost var done := set i | i in ids - rest :: ApprovalTerminal(i);
        rest := rest - {id};
        assert (set i | i in ids - rest :: ApprovalTerminal(i)) == done + {ApprovalTerminal(id)};
        approvals := approvals[id := AbortedRow(approvals[id], now)];
        audit := audit + multiset{ApprovalTerminal(id)};
      }
      assert ids - rest == ids;
    }

    method ClaimExecution(e: Id, commit: bool) returns (reply: Reply<Id>)
      requires PlanRuns.UniqueExecutions(approvals)
      modifies this`approvals, this`audit
      ensures (Db(), reply) == Claim(old(Db()), e, commit)
    {
      if !exists id :: id in approvals && approvals[id].execution == Some(e) { return Err(ExecutionNotFound); }
      var id :| id in approvals && approvals[id].execution == Some(e);
      PlanRuns.OwnerIsUnique(approvals, e, id);
      var p := approvals[id];
      if p.state != Some(Queued) { return Err(ExecutionStale); }
      if !commit { return Err(Storage); }
      approvals := approvals[id := p.(state := Some(Running), version := p.version + 1)];
      audit := audit + multiset{ExecutionClaimed(id)};
      reply := Ok(id);
    }

    method FinishExecution(e: Id, status: string, error: Option<string>, commit: bool) returns (reply: Reply<Id>)
      requires PlanRuns.UniqueExecutions(approvals)
      modifies this`approvals, this`audit
      ensures (Db(), reply) == Finish(old(Db()), e, status, error, commit)
    {
      var end := ParseEnd(status);
      if end.None? { return Err(ExecutionStatusInvalid); }
      if !exists id :: id in approvals && approvals[id].execution == Some(e) { return Err(ExecutionNotFound); }
      var id :| id in approvals && approvals[id].execution == Some(e);
      PlanRuns.OwnerIsUnique(approvals, e, id);
      var p := approvals[id];
      if p.state == Some(Completed) || p.state == Some(ExecutionInterrupted) {
        if p.state == end { return Ok(id); }
        return Err(ExecutionConflict);
      }
      if !Active(p) { return Err(ExecutionStale); }
      if !commit { return Err(Storage); }
      approvals := approvals[id := FinishedRow(p, end.value, error)];
      audit := audit + multiset{ExecutionFinished(id)};
      reply := Ok(id);
    }

    /** The gate, followed by the write it guards. */
    method ConfigureSession(session: Id, r: Settings, now: int, expire: bool) returns (reply: Reply<()>)
      modifies this`sessions, this`approvals, this`audit
      ensures (Db(), reply) == Configure(old(Db()), session, r, now, expire)
    {
      if !expire { return Err(Storage); }
      ExpirePendingApprovals(now);
      if session !in sessions { return Ok(()); }
      var was := sessions[session];
      var changes := was.mode != NormalizeMode(r.mode) || (r.provider.Some? && was.provider != r.provider)
        || (r.model.Some? && was.model != r.model) || (r.thinking.Some? && was.thinking != r.thinking.value)
        || (r.permission.Some? && was.permission != r.permission.value);
      if changes && (HasPending(approvals, session) || HasActive(approvals, session) || BusySession(Db(), session)) {
        return Err(ConfigurationBlocked);
      }
      sessions := sessions[session := Configured(was, r)];
      reply := Ok(());
    }

    /** Crash recovery at start. */
    method BootMaintenance(now: int)
      modifies this`turns, this`approvals, this`audit
      ensures Db() == Reboot(old(Db()), now)
    {
      turns := map t | t in turns :: turns[t].(running := false);
      var records := RebootRecords(approvals);
      approvals := map id | id in approvals :: RebootedRow(approvals[id], now);
      audit := audit + records;
    }
  }

  lemma OneMoreExpired(ids: set<Id>, id: Id)
    requires id !in ids
    ensures ExpiryRecords(ids + {id}) == ExpiryRecords(ids) + multiset{ApprovalExpired(id)}
  {
    var s := set x | x in ids :: ApprovalExpired(x);
    assert (set x | x in ids + {id} :: ApprovalExpired(x)) == s + {ApprovalExpired(id)};
  }
}
