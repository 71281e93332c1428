/**
 Where the mark of a superseded claim comes from (crates/host-core/src/context_vault.rs), and that
 projects do not touch each other's claims.
 */
module VaultMarks {
  import opened ContextVault
  import opened VaultRuns
  import opened Wrappers

  // ---- Projects ---------------------------------------------------------------------------

  /** What an accepted check says of each relationship. */
  lemma AcceptedTargets(claims: Claims, project: string, relations: seq<Relation>, r: Relation)
    requires Check(claims, project, None, relations).None? && r in relations
    ensures r.target in claims && claims[r.target].project == project
  {
    CheckMeansAllowed(claims, project, None, relations);
    var i :| 0 <= i < |relations| && relations[i] == r;
    assert Allowed(claims, project, None, relations[i]);
  }

  predicate OtherProjectsSame(claims: Claims, claims': Claims, project: string) {
    && (forall id :: id in claims && claims[id].project != project ==> id in claims' && claims'[id] == claims[id])
    && (forall id :: id in claims' && claims'[id].project != project ==> id in claims)
  }

  lemma CreateStaysInside(claims: Claims, project: string, relations: seq<Relation>, text: Text, id: Id)
    requires id !in claims
    ensures OtherProjectsSame(claims, CreateOp(claims, project, relations, text, id).0, project)
  {
    if Check(claims, project, None, relations).None? {
      forall r | r in relations
        ensures r.target in claims && claims[r.target].project == project
      {
        AcceptedTargets(claims, project, relations, r);
      }
    }
  }

  /** Importing leaves every claim that is there as it is. */
  lemma {:induction false} ImportAddsOnly(claims: Claims, project: string, entries: seq<(Id, Text)>)
    requires Distinct(seq(|entries|, i requires 0 <= i < |entries| => entries[i].0))
    requires forall i :: 0 <= i < |entries| ==> entries[i].0 !in claims
    ensures var claims' := ImportOp(claims, project, entries).0;
      && (forall id :: id in claims ==> id in claims' && claims'[id] == claims[id])
      && (forall id :: id in claims' && id !in claims ==> claims'[id] == Claim(project, [], false))
    decreases |entries|
  {
    if entries != [] {
      var first := CreateOp(claims, project, [], entries[0].1, entries[0].0);
      if first.1 != Refused {
        var ids := seq(|entries|, i requires 0 <= i < |entries| => entries[i].0);
        var rest := seq(|entries| - 1, i requires 0 <= i < |entries| - 1 => entries[1..][i].0);
        assert forall i :: 0 <= i < |rest| ==> rest[i] == ids[i + 1];
        assert forall i :: 0 < i < |entries| ==> entries[i] == entries[1..][i - 1] && ids[0] != ids[i];
        ImportAddsOnly(first.0, project, entries[1..]);
      }
    }
  }

  function ProjectOf(e: Event): string {
    match e
    case Create(project, _, _, _) => project
    case Update(project, _, _, _, _) => project
    case Review(project, _, _, _) => project
    case Delete(project, _) => project
    case Import(project, _) => project
  }

  lemma NewIdsAreNew(claims: Claims, used: set<Id>, e: Event)
    requires Inv(claims, used) && Unused(NewIds(e), used)
    ensures e.Create? ==> e.id !in claims
    ensures e.Import? ==> forall i :: 0 <= i < |e.entries| ==> e.entries[i].0 !in claims
    ensures e.Import? ==> Distinct(seq(|e.entries|, i requires 0 <= i < |e.entries| => e.entries[i].0))
  {
    var ids := NewIds(e);
    assert e.Create? ==> ids[0] == e.id;
    assert e.Import? ==> forall i :: 0 <= i < |e.entries| ==> e.entries[i].0 == ids[i];
  }

  lemma StepStaysInside(claims: Claims, used: set<Id>, e: Event)
    requires Inv(claims, used) && Unused(NewIds(e), used)
    ensures OtherProjectsSame(claims, Step(claims, e), ProjectOf(e))
  {
    NewIdsAreNew(claims, used, e);
    match e
    case Create(project, relations, text, id) => CreateStaysInside(claims, project, relations, text, id);
    case Import(project, entries) => ImportAddsOnly(claims, project, entries);
    case _ =>
  }

  /** Main result: over any run, an event of one project changes, adds and removes no claim of another. */
  lemma ProjectsStayApart(events: seq<Event>, n: nat)
    requires n < |events| && FreshIds(events, n + 1)
    ensures OtherProjectsSame(AfterBy(Step, events, n), AfterBy(Step, events, n + 1), ProjectOf(events[n]))
  {
    PrefixKeeps(events, n);
    StepStaysInside(AfterBy(Step, events, n), Used(events, n), events[n]);
  }

  // ---- Marks --------------------------------------------------------------------------------

  /** The mark that an event gives to a claim, true for a superseded one. */
  function MarkBrought(claims: Claims, e: Event, c: Id): Option<bool> {
    match e
    case Create(project, relations, text, id) =>
      if CreateOp(claims, project, relations, text, id).1 != Done then None
      else if c == id then Some(false)
      else if Relation(Supersedes, c) in relations then Some(true)
      else None
    case Update(project, id, relations, text, superseded) =>
      if c == id && UpdateOp(claims, project, id, relations, text, superseded).1 == Done then superseded else None
    case Review(project, id, state, noteOk) =>
      if c == id && ReviewOp(claims, project, id, state, noteOk).1 == Done then Some(state == "superseded") else None
    case Import(project, entries) =>
      if c !in claims && c in ImportOp(claims, project, entries).0 then Some(false) else None
    case Delete(_, _) => None
  }

  type Bringer = (Claims, Event, Id) -> Option<bool>

  /** The last mark given to a claim by the first `n` events. */
  function LastBrought(
    step: (Claims, Event) -> Claims, brings: Bringer, events: seq<Event>, n: nat, c: Id): Option<bool>
    requires n <= |events|
  {
    if n == 0 then None
    else
      var brought := brings(AfterBy(step, events, n - 1), events[n - 1], c);
      if brought.Some? then brought else LastBrought(step, brings, events, n - 1, c)
  }

  function LastMark(events: seq<Event>, n: nat, c: Id): Option<bool>
    requires n <= |events|
  {
    LastBrought(Step, MarkBrought, events, n, c)
  }

  lemma CreateMarks(claims: Claims, e: Event, c: Id)
    requires e.Create? && e.id !in claims && c in Step(claims, e)
    ensures var brought := MarkBrought(claims, e, c);
      if brought.Some? then Step(claims, e)[c].superseded == brought.value
      else c in claims && Step(claims, e)[c].superseded == claims[c].superseded
  {
    if CreateOp(claims, e.project, e.relations, e.text, e.id).1 == Done {
      forall r | r in e.relations
        ensures r.target in claims
      {
        AcceptedTargets(claims, e.project, e.relations, r);
      }
      assert Relation(Supersedes, c) in e.relations <==> c in SupersededBy(e.relations);
    }
  }

  /** A claim has the mark that an event brings, or the one it had before. */
  ghost predicate MarkedBy(claims: Claims, claims': Claims, brought: Option<bool>, c: Id) {
    c in claims' ==>
      if brought.Some? then claims'[c].superseded == brought.value
      else c in claims && claims'[c].superseded == claims[c].superseded
  }

  lemma StepMarks(claims: Claims, used: set<Id>, e: Event, c: Id)
    requires Inv(claims, used) && Unused(NewIds(e), used)
    ensures MarkedBy(claims, Step(claims, e), MarkBrought(claims, e, c), c)
  {
    NewIdsAreNew(claims, used, e);
    match e
    case Create(_, _, _, _) => if c in Step(claims, e) { CreateMarks(claims, e, c); }
    case Import(project, entries) => ImportAddsOnly(claims, project, entries);
    case _ =>
  }

  /** In the first `n` events each one marks as it brings. */
  ghost predicate AllMark(
    step: (Claims, Event) -> Claims, brings: Bringer, events: seq<Event>, n: nat, c: Id)
    requires n <= |events|
  {
    forall i {:trigger AfterBy(step, events, i)} :: 0 <= i < n ==>
      MarkedBy(AfterBy(step, events, i), step(AfterBy(step, events, i), events[i]),
               brings(AfterBy(step, events, i), events[i], c), c)
  }

  lemma {:induction false} LastOneMarks(
    step: (Claims, Event) -> Claims, brings: Bringer, events: seq<Event>, n: nat, c: Id)
    requires n <= |events| && AllMark(step, brings, events, n, c) && c in AfterBy(step, events, n)
    ensures LastBrought(step, brings, events, n, c) == Some(AfterBy(step, events, n)[c].superseded)
  {
    if n > 0 {
      var claims := AfterBy(step, events, n - 1);
      assert MarkedBy(claims, step(claims, events[n - 1]), brings(claims, events[n - 1], c), c);
      if brings(claims, events[n - 1], c).None? {
        LastOneMarks(step, brings, events, n - 1, c);
      }
    }
  }

  lemma {:induction false} FreshPrefix(events: seq<Event>, n: nat, i: nat)
    requires i < n <= |events| && FreshIds(events, n)
    ensures FreshIds(events, i) && Unused(NewIds(events[i]), Used(events, i))
  {
    if i < n - 1 {
      FreshPrefix(events, n - 1, i);
    }
  }

  /**
   Main result: over any run from an empty vault, a claim is marked as superseded exactly when the last event
   that gave it a mark did so: an accepted new claim that supersedes it, or an edit or a review of its own.
   */
  lemma MarkedByLast(events: seq<Event>, n: nat, c: Id)
    requires n <= |events| && FreshIds(events, n) && c in AfterBy(Step, events, n)
    ensures LastMark(events, n, c) == Some(AfterBy(Step, events, n)[c].superseded)
  {
    forall i | 0 <= i < n
      ensures var claims := AfterBy(Step, events, i);
        MarkedBy(claims, Step(claims, events[i]), MarkBrought(claims, events[i], c), c)
    {
      FreshPrefix(events, n, i);
      PrefixKeeps(events, i);
      StepMarks(AfterBy(Step, events, i), Used(events, i), events[i], c);
    }
    LastOneMarks(Step, MarkBrought, events, n, c);
  }

  // ---- Answers --------------------------------------------------------------------------------

  ghost predicate AllAllowed(claims: Claims, project: string, owner: Option<Id>, relations: seq<Relation>) {
    forall i :: 0 <= i < |relations| ==> Allowed(claims, project, owner, relations[i])
  }

  /** Main result: a new claim is refused exactly when its text is invalid or a relationship is not allowed; one that is
      said already changes nothing; any other is added, and of the claims that are there exactly those it
      supersedes are marked. */
  lemma CreateAnswers(claims: Claims, project: string, relations: seq<Relation>, text: Text, id: Id)
    requires id !in claims
    ensures var (claims', outcome) := CreateOp(claims, project, relations, text, id);
      if text == Invalid || !AllAllowed(claims, project, None, relations) then outcome == Refused && claims' == claims
      else if text == Duplicate || text == Overlapping then outcome == ContextVault.Known && claims' == claims
      else
        && outcome == Done && claims'.Keys == claims.Keys + {id} && claims'[id] == Claim(project, relations, false)
        && forall c :: c in claims ==>
             claims'[c] == if Relation(Supersedes, c) in relations
               then Claim(claims[c].project, claims[c].relations, true) else claims[c]
  {
    CheckMeansAllowed(claims, project, None, relations);
    if Check(claims, project, None, relations).None? {
      forall r | r in relations
        ensures r.target in claims
      {
        AcceptedTargets(claims, project, relations, r);
      }
      forall c | c in claims
        ensures Relation(Supersedes, c) in relations <==> c in SupersededBy(relations)
      {
      }
    }
  }

  /** Main result: an edit is answered by the first of: a missing claim, another project, an invalid text or a
      relationship that is not allowed; otherwise it replaces relationships and, if it brings one, the mark. */
  lemma UpdateAnswers(
    claims: Claims, project: string, id: Id, relations: seq<Relation>, text: Text, superseded: Option<bool>)
    ensures var (claims', outcome) := UpdateOp(claims, project, id, relations, text, superseded);
      if id !in claims then outcome == NotFound && claims' == claims
      else if claims[id].project != project then outcome == Elsewhere && claims' == claims
      else if text == Invalid || !AllAllowed(claims, project, Some(id), relations) then
        outcome == Refused && claims' == claims
      else
        var mark := if superseded.Some? then superseded.value else claims[id].superseded;
        outcome == Done && claims' == claims[id := Claim(project, relations, mark)]
  {
    if id in claims {
      CheckMeansAllowed(claims, project, Some(id), relations);
    }
  }
}
