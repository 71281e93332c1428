/** What the relationship check means, and what every run of vault operations keeps. */
module VaultRuns {

  import opened ContextVault
  import opened Wrappers

  // ---- What the walk decides -------------------------------------------------------------------

  /** Every claim that the chain from here leads to exists and is not the owner. */
  ghost predicate Clear(claims: Claims, owner: Option<Id>, from: Id) {
    forall k: nat :: ClearAt(claims, owner, from, k)
  }

  predicate ClearAt(claims: Claims, owner: Option<Id>, from: Id, k: nat) {
    var at := Chain(claims, from, k);
    at.Some? ==> at.value in claims && owner != at
  }

  lemma {:induction false} ChainShifts(claims: Claims, from: Id, next: Id, k: nat)
    requires Next(claims, from) == Some(next)
    ensures Chain(claims, from, k + 1) == Chain(claims, next, k)
  {
    if k > 0 {
      ChainShifts(claims, from, next, k - 1);
    }
  }

  lemma {:induction false} ChainEnds(claims: Claims, from: Id, k: nat)
    requires Next(claims, from).None? && k > 0
    ensures Chain(claims, from, k).None?
  {
    if k > 1 {
      ChainEnds(claims, from, k - 1);
    }
  }

  /** A set of claims that no chain leaves, and that does not hold the owner. */
  ghost predicate Closed(claims: Claims, owner: Option<Id>, s: set<Id>) {
    && s <= claims.Keys && (owner.Some? ==> owner.value !in s)
    && forall id :: id in s && Next(claims, id).Some? ==> Next(claims, id).value in s
  }

  lemma {:induction false} ClosedIsClear(claims: Claims, owner: Option<Id>, s: set<Id>, from: Id, k: nat)
    requires Closed(claims, owner, s) && from in s
    ensures ClearAt(claims, owner, from, k) && (Chain(claims, from, k).Some? ==> Chain(claims, from, k).value in s)
  {
    if k > 0 {
      ClosedIsClear(claims, owner, s, from, k - 1);
    }
  }

  /** Seen claims lead to seen claims or to the cursor. */
  ghost predicate Trail(claims: Claims, owner: Option<Id>, cursor: Id, seen: set<Id>) {
    && cursor in claims && seen <= claims.Keys && (owner.Some? ==> owner.value !in seen)
    && forall id :: id in seen && Next(claims, id).Some? ==> Next(claims, id).value in seen + {cursor}
  }

  lemma {:induction false} WalkFindsClosed(claims: Claims, owner: Option<Id>, cursor: Id, seen: set<Id>)
    requires Trail(claims, owner, cursor, seen) && Walk(claims, owner, cursor, seen).None?
    ensures Clear(claims, owner, cursor)
    decreases claims.Keys - seen
  {
    var next := Next(claims, cursor);
    if cursor in seen || next.None? {
      forall k: nat
        ensures ClearAt(claims, owner, cursor, k)
      {
        ClosedIsClear(claims, owner, seen + {cursor}, cursor, k);
      }
    } else {
      WalkFindsClosed(claims, owner, next.value, seen + {cursor});
      forall k: nat
        ensures ClearAt(claims, owner, cursor, k)
      {
        if k > 0 {
          ChainShifts(claims, cursor, next.value, k - 1);
          assert ClearAt(claims, owner, next.value, k - 1);
        }
      }
    }
  }

  lemma {:induction false} WalkFindsError(claims: Claims, owner: Option<Id>, cursor: Id, seen: set<Id>) returns (k: nat)
    requires cursor in claims && seen <= claims.Keys && Walk(claims, owner, cursor, seen).Some?
    requires owner.Some? ==> owner.value in claims
    ensures !ClearAt(claims, owner, cursor, k) && forall j: nat :: j < k ==> ClearAt(claims, owner, cursor, j)
    ensures Walk(claims, owner, cursor, seen)
      == Some(if Chain(claims, cursor, k) == owner then Cycle else MissingTarget)
    decreases claims.Keys - seen
  {
    k := 0;
    if owner != Some(cursor) {
      var next := Next(claims, cursor).value;
      ChainShifts(claims, cursor, next, 0);
      if next !in claims {
        k := 1;
      } else {
        k := WalkFindsError(claims, owner, next, seen + {cursor});
        forall j: nat | 0 < j <= k + 1
          ensures Chain(claims, cursor, j) == Chain(claims, next, j - 1)
          ensures ClearAt(claims, owner, cursor, j) == ClearAt(claims, owner, next, j - 1)
        {
          ChainShifts(claims, cursor, next, j - 1);
        }
        k := k + 1;
      }
    }
  }

  /** A relationship that a claim may have. */
  ghost predicate Allowed(claims: Claims, project: string, owner: Option<Id>, r: Relation) {
    && owner != Some(r.target) && r.target in claims && claims[r.target].project == project
    && (r.kind == Supersedes ==> Clear(claims, owner, r.target))
  }

  lemma OneIsAllowed(claims: Claims, project: string, owner: Option<Id>, r: Relation)
    requires owner.Some? ==> owner.value in claims
    ensures CheckOne(claims, project, owner, r).None? <==> Allowed(claims, project, owner, r)
  {
    if owner != Some(r.target) && r.target in claims && r.kind == Supersedes {
      if Walk(claims, owner, r.target, {}).None? {
        WalkFindsClosed(claims, owner, r.target, {});
      } else {
        var k := WalkFindsError(claims, owner, r.target, {});
      }
    }
  }

  lemma {:induction false} ChainStops(claims: Claims, from: Id, k: nat, j: nat)
    requires k < j && Chain(claims, from, k).Some? && Chain(claims, from, k).value !in claims
    ensures Chain(claims, from, j).None?
    decreases j
  {
    if j > k + 1 {
      ChainStops(claims, from, k, j - 1);
    }
  }

  /** Which relationship errors there are: the target is the claim itself, missing, or of another project; else
      its chain comes back to the claim, or breaks off. */
  lemma ErrorsMean(claims: Claims, project: string, owner: Option<Id>, r: Relation)
    requires owner.Some? ==> owner.value in claims
    ensures !Allowed(claims, project, owner, r) ==>
      CheckOne(claims, project, owner, r) == Some(
        if owner == Some(r.target) then SelfRelation
        else if r.target !in claims then MissingTarget
        else if claims[r.target].project != project then OtherProject
        else if owner.Some? && exists k: nat :: Chain(claims, r.target, k) == owner then Cycle
        else MissingTarget)
  {
    OneIsAllowed(claims, project, owner, r);
    var inside := r.target in claims && claims[r.target].project == project;
    if owner != Some(r.target) && inside && r.kind == Supersedes && !Clear(claims, owner, r.target) {
      var k := WalkFindsError(claims, owner, r.target, {});
      forall j: nat | j != k
        ensures owner.Some? && Chain(claims, r.target, k) != owner ==> Chain(claims, r.target, j) != owner
      {
        if j > k && Chain(claims, r.target, k) != owner {
          ChainStops(claims, r.target, k, j);
        }
        assert j < k ==> ClearAt(claims, owner, r.target, j);
      }
    }
  }

  /**
   Main result: on any graph of claims, even a cyclic one, the check ends, and it passes exactly
   when every target is another claim of the project whose chain of superseded claims neither
   comes back to the owner nor breaks off at a missing claim.
   */
  lemma {:induction false} CheckMeansAllowed(
    claims: Claims, project: string, owner: Option<Id>, relations: seq<Relation>)
    requires owner.Some? ==> owner.value in claims
    ensures Check(claims, project, owner, relations).None? <==>
      forall i :: 0 <= i < |relations| ==> Allowed(claims, project, owner, relations[i])
  {
    if relations != [] {
      OneIsAllowed(claims, project, owner, relations[0]);
      CheckMeansAllowed(claims, project, owner, relations[1..]);
      assert forall i :: 0 < i < |relations| ==> relations[i] == relations[1..][i - 1];
    }
  }

  // ---- Runs --------------------------------------------------------------------------------------

  datatype Event =
    | Create(project: string, relations: seq<Relation>, text: Text, id: Id)
    | Update(project: string, id: Id, relations: seq<Relation>, text: Text, superseded: Option<bool>)
    | Review(project: string, id: Id, state: string, noteOk: bool)
    | Delete(project: string, id: Id)
    | Import(project: string, entries: seq<(Id, Text)>)

  function Step(claims: Claims, e: Event): Claims {
    match e
    case Create(project, relations, text, id) => CreateOp(claims, project, relations, text, id).0
    case Update(project, id, relations, text, superseded) =>
      UpdateOp(claims, project, id, relations, text, superseded).0
    case Review(project, id, state, noteOk) => ReviewOp(claims, project, id, state, noteOk).0
    case Delete(project, id) => DeleteOp(claims, project, id)
    case Import(project, entries) => ImportOp(claims, project, entries).0
  }

  /** The identifiers that an event hands out. */
  function NewIds(e: Event): seq<Id> {
    match e
    case Create(_, _, _, id) => [id]
    case Import(_, entries) => seq(|entries|, i requires 0 <= i < |entries| => entries[i].0)
    case _ => []
  }

  predicate Distinct(ids: seq<Id>) {
    forall i, j :: 0 <= i < j < |ids| ==> ids[i] != ids[j]
  }

  /** The claims after the first `n` events, from an empty vault. */
  function AfterBy(step: (Claims, Event) -> Claims, events: seq<Event>, n: nat): Claims
    requires n <= |events|
  {
    if n == 0 then map[] else step(AfterBy(step, events, n - 1), events[n - 1])
  }

  function After(events: seq<Event>): Claims {
    AfterBy(Step, events, |events|)
  }

  function AsSet(ids: seq<Id>): set<Id> {
    set i | 0 <= i < |ids| :: ids[i]
  }

  /** The identifiers handed out by the first `n` events. */
  function Used(events: seq<Event>, n: nat): set<Id>
    requires n <= |events|
  {
    if n == 0 then {} else Used(events, n - 1) + AsSet(NewIds(events[n - 1]))
  }

  /** These identifiers differ from each other and from the used ones. */
  predicate Unused(ids: seq<Id>, used: set<Id>) {
    Distinct(ids) && forall i :: 0 <= i < |ids| ==> ids[i] !in used
  }

  /** The first `n` events hand out no identifier twice. */
  predicate FreshIds(events: seq<Event>, n: nat)
    requires n <= |events|
  {
    n == 0 || (FreshIds(events, n - 1) && Unused(NewIds(events[n - 1]), Used(events, n - 1)))
  }

  // ---- What every run keeps -------------------------------------------------------------------------

  /** No claim is reached again from itself. */
  ghost predicate Acyclic(claims: Claims) {
    forall id, k: nat :: id in claims && k > 0 ==> Chain(claims, id, k) != Some(id)
  }

  /** Every relationship to a claim that exists stays inside one project. */
  predicate OneProject(claims: Claims) {
    forall id, r :: id in claims && r in claims[id].relations && r.target in claims ==>
      claims[r.target].project == claims[id].project
  }

  /** All claims and all targets, present or deleted, carry identifiers that were handed out. */
  predicate Known(claims: Claims, used: set<Id>) {
    forall id :: id in claims ==> id in used && forall r :: r in claims[id].relations ==> r.target in used
  }

  ghost predicate Inv(claims: Claims, used: set<Id>) {
    Acyclic(claims) && OneProject(claims) && Known(claims, used)
  }

  lemma {:induction false} FirstIsRelated(relations: seq<Relation>)
    ensures FirstOf(relations).Some? ==> Relation(Supersedes, FirstOf(relations).value) in relations
  {
    if relations != [] && relations[0].kind != Supersedes {
      FirstIsRelated(relations[1..]);
    }
  }

  /** Two vaults in which the claims of a chain lead on alike have the same chain. */
  lemma {:induction false} SameChain(a: Claims, b: Claims, from: Id, k: nat)
    requires forall j: nat :: j < k && Chain(a, from, j).Some? ==>
      Next(a, Chain(a, from, j).value) == Next(b, Chain(a, from, j).value)
    ensures Chain(a, from, k) == Chain(b, from, k)
  {
    if k > 0 {
      SameChain(a, b, from, k - 1);
    }
  }

  lemma {:induction false} ChainAdds(claims: Claims, from: Id, via: Id, j: nat, k: nat)
    requires Chain(claims, from, j) == Some(via)
    ensures Chain(claims, from, j + k) == Chain(claims, via, k)
  {
    if k > 0 {
      ChainAdds(claims, from, via, j, k - 1);
    }
  }

  lemma {:induction false} ChainIsUsed(claims: Claims, used: set<Id>, from: Id, k: nat)
    requires Known(claims, used) && from in used
    ensures Chain(claims, from, k).Some? ==> Chain(claims, from, k).value in used
  {
    if k > 0 {
      ChainIsUsed(claims, used, from, k - 1);
      var before := Chain(claims, from, k - 1);
      if before.Some? && before.value in claims {
        FirstIsRelated(claims[before.value].relations);
      }
    }
  }

  // ---- Creating ------------------------------------------------------------------------------------

  /** A new claim's relationships are allowed. */
  ghost predicate Fits(claims: Claims, project: string, relations: seq<Relation>) {
    forall i :: 0 <= i < |relations| ==> Allowed(claims, project, None, relations[i])
  }

  lemma CreatedNext(claims: Claims, used: set<Id>, id: Id, project: string, relations: seq<Relation>, at: Id)
    requires id !in claims && at != id
    ensures Next(Created(claims, id, project, relations), at) == Next(claims, at)
  {
  }

  /** A new identifier changes no chain, and its own never comes back. */
  lemma CreatedChain(
    claims: Claims, used: set<Id>, id: Id, project: string, relations: seq<Relation>, from: Id, k: nat)
    requires Known(claims, used) && id !in used && from in used
    ensures Chain(Created(claims, id, project, relations), from, k) == Chain(claims, from, k)
    ensures Chain(claims, from, k) != Some(id)
  {
    ChainIsUsed(claims, used, from, k);
    forall j: nat | j < k && Chain(claims, from, j).Some?
      ensures Next(claims, Chain(claims, from, j).value)
           == Next(Created(claims, id, project, relations), Chain(claims, from, j).value)
    {
      ChainIsUsed(claims, used, from, j);
      CreatedNext(claims, used, id, project, relations, Chain(claims, from, j).value);
    }
    SameChain(claims, Created(claims, id, project, relations), from, k);
  }

  lemma CreatedAcyclic(claims: Claims, used: set<Id>, id: Id, project: string, relations: seq<Relation>)
    requires Acyclic(claims) && Known(claims, used) && id !in used && Fits(claims, project, relations)
    ensures Acyclic(Created(claims, id, project, relations))
  {
    var claims' := Created(claims, id, project, relations);
    forall x, k: nat | x in claims' && k > 0
      ensures Chain(claims', x, k) != Some(x)
    {
      if x != id {
        CreatedChain(claims, used, id, project, relations, x, k);
      } else if Next(claims', id).Some? {
        var next := FirstOf(relations).value;
        FirstIsRelated(relations);
        ChainShifts(claims', id, next, k - 1);
        CreatedChain(claims, used, id, project, relations, next, k - 1);
      } else {
        ChainEnds(claims', id, k);
      }
    }
  }

  lemma CreatedLinks(claims: Claims, used: set<Id>, id: Id, project: string, relations: seq<Relation>)
    requires OneProject(claims) && Known(claims, used) && id !in used && Fits(claims, project, relations)
    ensures OneProject(Created(claims, id, project, relations))
    ensures Known(Created(claims, id, project, relations), used + {id})
  {
    forall r | r in relations
      ensures r.target in claims && claims[r.target].project == project
    {
      var i :| 0 <= i < |relations| && relations[i] == r;
      assert Allowed(claims, project, None, relations[i]);
    }
  }

  lemma CreateKeeps(claims: Claims, used: set<Id>, project: string, relations: seq<Relation>, text: Text, id: Id)
    requires Inv(claims, used) && id !in used
    ensures Inv(CreateOp(claims, project, relations, text, id).0, used + {id})
  {
    CheckMeansAllowed(claims, project, None, relations);
    if text == New && Check(claims, project, None, relations).None? {
      CreatedAcyclic(claims, used, id, project, relations);
      CreatedLinks(claims, used, id, project, relations);
    }
  }

  lemma {:induction false} ImportKeeps(
    claims: Claims, used: set<Id>, project: string, entries: seq<(Id, Text)>, all: set<Id>)
    requires Inv(claims, used) && Unused(NewIds(Import(project, entries)), used)
    requires used <= all && forall i :: 0 <= i < |entries| ==> entries[i].0 in all
    ensures Inv(ImportOp(claims, project, entries).0, all)
    decreases |entries|
  {
    if entries != [] {
      var ids := NewIds(Import(project, entries));
      var rest := NewIds(Import(project, entries[1..]));
      assert ids[0] == entries[0].0;
      assert forall i :: 0 <= i < |rest| ==> rest[i] == ids[i + 1];
      CreateKeeps(claims, used, project, [], entries[0].1, entries[0].0);
      var first := CreateOp(claims, project, [], entries[0].1, entries[0].0);
      if first.1 != Refused {
        ImportKeeps(first.0, used + {entries[0].0}, project, entries[1..], all);
      }
    }
  }

  // ---- Editing -----------------------------------------------------------------------------------------

  /** The claims with one claim's relationships replaced. */
  predicate Edited(claims: Claims, claims': Claims, id: Id, relations: seq<Relation>) {
    && id in claims && claims'.Keys == claims.Keys && claims'[id].relations == relations
    && claims'[id].project == claims[id].project
    && forall x :: x in claims && x != id ==> claims'[x] == claims[x]
  }

  lemma EditedNext(claims: Claims, claims': Claims, id: Id, relations: seq<Relation>, at: Id)
    requires Edited(claims, claims', id, relations) && at != id
    ensures Next(claims', at) == Next(claims, at)
  {
  }

  /** The edited claim's chain never comes back to it. */
  lemma EditedNoReturn(claims: Claims, claims': Claims, id: Id, relations: seq<Relation>, k: nat)
    requires Edited(claims, claims', id, relations) && k > 0
    requires FirstOf(relations).Some? ==> Clear(claims, Some(id), FirstOf(relations).value)
    ensures Chain(claims', id, k) != Some(id)
  {
    if FirstOf(relations).None? {
      ChainEnds(claims', id, k);
    } else {
      var next := FirstOf(relations).value;
      ChainShifts(claims', id, next, k - 1);
      forall j: nat | j < k - 1 && Chain(claims, next, j).Some?
        ensures Next(claims, Chain(claims, next, j).value) == Next(claims', Chain(claims, next, j).value)
      {
        assert ClearAt(claims, Some(id), next, j);
        EditedNext(claims, claims', id, relations, Chain(claims, next, j).value);
      }
      SameChain(claims, claims', next, k - 1);
      assert ClearAt(claims, Some(id), next, k - 1);
    }
  }

  lemma EditedAcyclic(claims: Claims, claims': Claims, id: Id, relations: seq<Relation>)
    requires Acyclic(claims) && Edited(claims, claims', id, relations)
    requires FirstOf(relations).Some? ==> Clear(claims, Some(id), FirstOf(relations).value)
    ensures Acyclic(claims')
  {
    forall x, k: nat | x in claims' && k > 0
      ensures Chain(claims', x, k) != Some(x)
    {
      if j: nat :| j < k && Chain(claims', x, j) == Some(id) {
        EditedNoReturn(claims, claims', id, relations, k);
        ChainAdds(claims', x, id, j, k - j);
        if Chain(claims', x, k) == Some(x) {
          ChainAdds(claims', id, x, k - j, j);
        }
      } else {
        forall j: nat | j < k && Chain(claims', x, j).Some?
          ensures Next(claims', Chain(claims', x, j).value) == Next(claims, Chain(claims', x, j).value)
        {
          EditedNext(claims, claims', id, relations, Chain(claims', x, j).value);
        }
        SameChain(claims', claims, x, k);
      }
    }
  }

  lemma UpdateKeeps(
    claims: Claims, used: set<Id>, project: string, id: Id, relations: seq<Relation>, text: Text,
    superseded: Option<bool>)
    requires Inv(claims, used)
    ensures Inv(UpdateOp(claims, project, id, relations, text, superseded).0, used)
  {
    var r := UpdateOp(claims, project, id, relations, text, superseded);
    if r.1 == Done {
      CheckMeansAllowed(claims, project, Some(id), relations);
      forall rel | rel in relations
        ensures Allowed(claims, project, Some(id), rel)
      {
        var i :| 0 <= i < |relations| && relations[i] == rel;
      }
      FirstIsRelated(relations);
      EditedAcyclic(claims, r.0, id, relations);
    }
  }

  // ---- Deleting -----------------------------------------------------------------------------------------

  lemma {:induction false} DeletedChain(claims: Claims, id: Id, from: Id, k: nat)
    ensures Chain(claims - {id}, from, k).Some? ==> Chain(claims - {id}, from, k) == Chain(claims, from, k)
  {
    if k > 0 {
      DeletedChain(claims, id, from, k - 1);
    }
  }

  lemma DeleteKeeps(claims: Claims, used: set<Id>, project: string, id: Id)
    requires Inv(claims, used)
    ensures Inv(DeleteOp(claims, project, id), used)
  {
    var claims' := claims - {id};
    forall x, k: nat | x in claims' && k > 0
      ensures Chain(claims', x, k) != Some(x)
    {
      DeletedChain(claims, id, x, k);
    }
  }

  /** The claims have the same projects and relationships. */
  predicate SameLinks(a: Claims, b: Claims) {
    a.Keys == b.Keys && forall id :: id in a ==> a[id].project == b[id].project && a[id].relations == b[id].relations
  }

  lemma SameLinksKeep(claims: Claims, claims': Claims, used: set<Id>)
    requires Inv(claims, used) && SameLinks(claims, claims')
    ensures Inv(claims', used)
  {
    forall id, k: nat | id in claims' && k > 0
      ensures Chain(claims', id, k) != Some(id)
    {
      SameChain(claims, claims', id, k);
    }
  }

  lemma StepKeeps(claims: Claims, used: set<Id>, e: Event)
    requires Inv(claims, used) && Unused(NewIds(e), used)
    ensures Inv(Step(claims, e), used + AsSet(NewIds(e)))
  {
    match e
    case Create(project, relations, text, id) =>
      assert NewIds(e)[0] == id && AsSet([id]) == {id};
      CreateKeeps(claims, used, project, relations, text, id);
    case Update(project, id, relations, text, superseded) =>
      UpdateKeeps(claims, used, project, id, relations, text, superseded);
      assert used + AsSet([]) == used;
    case Review(project, id, state, noteOk) =>
      SameLinksKeep(claims, Step(claims, e), used);
      assert used + AsSet([]) == used;
    case Delete(project, id) =>
      DeleteKeeps(claims, used, project, id);
      assert used + AsSet([]) == used;
    case Import(project, entries) =>
      var ids := NewIds(e);
      assert forall i :: 0 <= i < |entries| ==> entries[i].0 == ids[i];
      ImportKeeps(claims, used, project, entries, used + AsSet(ids));
  }

  ghost predicate Preserved(step: (Claims, Event) -> Claims, inv: (Claims, set<Id>) -> bool) {
    forall claims, used, e {:trigger step(claims, e), inv(claims, used)} ::
      inv(claims, used) && Unused(NewIds(e), used) ==> inv(step(claims, e), used + AsSet(NewIds(e)))
  }

  lemma {:induction false} PreservedByRuns(
    step: (Claims, Event) -> Claims, inv: (Claims, set<Id>) -> bool, events: seq<Event>, n: nat)
    requires n <= |events| && FreshIds(events, n) && inv(map[], {}) && Preserved(step, inv)
    ensures inv(AfterBy(step, events, n), Used(events, n))
  {
    if n > 0 {
      PreservedByRuns(step, inv, events, n - 1);
    }
  }

  lemma PrefixKeeps(events: seq<Event>, n: nat)
    requires n <= |events| && FreshIds(events, n)
    ensures Inv(AfterBy(Step, events, n), Used(events, n))
  {
    forall claims, used, e | Inv(claims, used) && Unused(NewIds(e), used)
      ensures Inv(Step(claims, e), used + AsSet(NewIds(e)))
    {
      StepKeeps(claims, used, e);
    }
    PreservedByRuns(Step, Inv, events, n);
  }

  lemma RunKeeps(events: seq<Event>)
    requires FreshIds(events, |events|)
    ensures Inv(After(events), Used(events, |events|))
  {
    PrefixKeeps(events, |events|);
  }

  /**
   Main result: whatever is created, edited, deleted and imported, following the first claim that
   each claim supersedes never leads back, and no relationship crosses projects.
   */
  lemma LinksStaySound(events: seq<Event>)
    requires FreshIds(events, |events|)
    ensures Acyclic(After(events)) && OneProject(After(events))
  {
    RunKeeps(events);
  }

  // ---- All supersedes relationships together ----------------------------------------------------------------

  predicate Replaces(claims: Claims, a: Id, b: Id) {
    a in claims && Relation(Supersedes, b) in claims[a].relations
  }

  /** A way along supersedes relationships that ends where it began. */
  predicate Round(claims: Claims, p: seq<Id>) {
    && |p| >= 2 && p[0] == p[|p| - 1]
    && forall i :: 0 <= i < |p| - 1 ==> Replaces(claims, p[i], p[i + 1])
  }

  /** No claim supersedes two different ones. */
  ghost predicate AtMostOne(claims: Claims) {
    forall a, b, c :: Replaces(claims, a, b) && Replaces(claims, a, c) ==> b == c
  }

  lemma OnlyOne(claims: Claims, a: Id, b: Id)
    requires AtMostOne(claims) && Replaces(claims, a, b)
    ensures Next(claims, a) == Some(b)
  {
    FirstIsRelated(claims[a].relations);
    FirstExists(claims[a].relations, b);
    assert Replaces(claims, a, Next(claims, a).value);
  }

  lemma {:induction false} FirstExists(relations: seq<Relation>, b: Id)
    requires Relation(Supersedes, b) in relations
    ensures FirstOf(relations).Some?
  {
    if relations[0].kind != Supersedes {
      FirstExists(relations[1..], b);
    }
  }

  lemma {:induction false} RoundIsChain(claims: Claims, p: seq<Id>, i: nat)
    requires AtMostOne(claims) && Round(claims, p) && i < |p|
    ensures Chain(claims, p[0], i) == Some(p[i])
  {
    if i > 0 {
      RoundIsChain(claims, p, i - 1);
      assert Replaces(claims, p[i - 1], p[i]);
      OnlyOne(claims, p[i - 1], p[i]);
    }
  }

  lemma AcyclicHasNoRound(claims: Claims, p: seq<Id>)
    requires Acyclic(claims) && AtMostOne(claims)
    ensures !Round(claims, p)
  {
    if Round(claims, p) {
      assert Replaces(claims, p[0], p[1]);
      RoundIsChain(claims, p, |p| - 1);
    }
  }

  /** Main result: while no claim supersedes two others, the whole relation has no cycle either. */
  lemma NoRoundTrips(events: seq<Event>, p: seq<Id>)
    requires FreshIds(events, |events|) && AtMostOne(After(events))
    ensures !Round(After(events), p)
  {
    RunKeeps(events);
    AcyclicHasNoRound(After(events), p);
  }

  // ---- When the whole relation gets a cycle -----------------------------------------------------------------

  ghost predicate RoundFree(claims: Claims) {
    forall p :: !Round(claims, p)
  }

  /** A way along supersedes relationships from one claim to another. */
  predicate Way(claims: Claims, p: seq<Id>, from: Id, to: Id) {
    && |p| >= 1 && p[0] == from && p[|p| - 1] == to
    && forall i :: 0 <= i < |p| - 1 ==> Replaces(claims, p[i], p[i + 1])
  }

  ghost predicate LeadsTo(claims: Claims, from: Id, to: Id) {
    exists p :: Way(claims, p, from, to)
  }

  /** One of these relationships supersedes a claim from which the owner can be reached. */
  ghost predicate Closes(claims: Claims, id: Id, relations: seq<Relation>) {
    exists target :: Relation(Supersedes, target) in relations && LeadsTo(claims, target, id)
  }

  /** An edit that is accepted although it closes a cycle. */
  ghost predicate Closing(claims: Claims, e: Event) {
    && e.Update? && UpdateOp(claims, e.project, e.id, e.relations, e.text, e.superseded).1 == Done
    && Closes(claims, e.id, e.relations)
  }

  /** A round whose claims all lead on as in another vault is a round there. */
  lemma RoundTransfers(a: Claims, b: Claims, p: seq<Id>)
    requires Round(a, p) && forall i, x :: 0 <= i < |p| - 1 && Replaces(a, p[i], x) ==> Replaces(b, p[i], x)
    ensures Round(b, p)
  {
  }

  lemma EditedReplaces(claims: Claims, claims': Claims, id: Id, relations: seq<Relation>, a: Id, b: Id)
    requires Edited(claims, claims', id, relations)
    ensures a != id ==> (Replaces(claims', a, b) <==> Replaces(claims, a, b))
    ensures Replaces(claims', id, b) <==> Relation(Supersedes, b) in relations
  {
  }

  lemma ClosingMakesRound(claims: Claims, claims': Claims, id: Id, relations: seq<Relation>, target: Id, p: seq<Id>)
    requires RoundFree(claims) && Edited(claims, claims', id, relations)
    requires Relation(Supersedes, target) in relations && Way(claims, p, target, id)
    ensures Round(claims', [id] + p)
  {
    var q := [id] + p;
    forall i | 0 <= i < |q| - 1
      ensures Replaces(claims', q[i], q[i + 1])
    {
      EditedReplaces(claims, claims', id, relations, q[i], q[i + 1]);
      if i > 0 {
        assert Replaces(claims, p[i - 1], p[i]);
        assert q[i] == id ==> Round(claims, p[i - 1..]);
      }
    }
  }

  /** A round through a claim can begin there. */
  lemma Rotated(claims: Claims, p: seq<Id>, i: nat) returns (q: seq<Id>)
    requires Round(claims, p) && i < |p| - 1
    ensures Round(claims, q) && q[0] == p[i]
  {
    q := p[i..] + p[1..i + 1];
    forall j | 0 <= j < |q| - 1
      ensures Replaces(claims, q[j], q[j + 1])
    {
      if j < |p| - i - 1 {
        assert Replaces(claims, p[i + j], p[i + j + 1]);
      } else {
        var k := j - (|p| - i);
        assert q[j + 1] == p[k + 2] && q[j] == if k == -1 then p[|p| - 1] else p[k + 1];
        assert Replaces(claims, p[k + 1], p[k + 2]);
      }
    }
  }

  /** The part of a round behind its last visit to a claim. */
  lemma {:induction false} LastPart(claims: Claims, q: seq<Id>, id: Id) returns (p: seq<Id>)
    requires Round(claims, q) && q[0] == id
    ensures |p| >= 1 && Replaces(claims, id, p[0]) && p[|p| - 1] == id
    ensures forall i :: 0 <= i < |p| - 1 ==> p[i] != id && Replaces(claims, p[i], p[i + 1])
    decreases |q|
  {
    if i :| 0 < i < |q| - 1 && q[i] == id {
      var rest := q[i..];
      forall j | 0 <= j < |rest| - 1
        ensures Replaces(claims, rest[j], rest[j + 1])
      {
        assert Replaces(claims, q[i + j], q[i + j + 1]);
      }
      p := LastPart(claims, rest, id);
    } else {
      assert Replaces(claims, q[0], q[1]);
      p := q[1..];
      forall i | 0 <= i < |p| - 1
        ensures p[i] != id && Replaces(claims, p[i], p[i + 1])
      {
        assert Replaces(claims, q[i + 1], q[i + 2]);
      }
    }
  }

  lemma UnvisitedRound(claims: Claims, claims': Claims, id: Id, relations: seq<Relation>, p: seq<Id>)
    requires Edited(claims, claims', id, relations) && Round(claims', p)
    requires forall i :: 0 <= i < |p| - 1 ==> p[i] != id
    ensures Round(claims, p)
  {
    forall i, x | 0 <= i < |p| - 1 && Replaces(claims', p[i], x)
      ensures Replaces(claims, p[i], x)
    {
      EditedReplaces(claims, claims', id, relations, p[i], x);
    }
    RoundTransfers(claims', claims, p);
  }

  lemma RoundMeansClosing(claims: Claims, claims': Claims, id: Id, relations: seq<Relation>, p: seq<Id>)
    requires RoundFree(claims) && Edited(claims, claims', id, relations) && Round(claims', p)
    ensures Closes(claims, id, relations)
  {
    if i :| 0 <= i < |p| - 1 && p[i] == id {
      var q := Rotated(claims', p, i);
      var way := LastPart(claims', q, id);
      EditedReplaces(claims, claims', id, relations, id, way[0]);
      forall j | 0 <= j < |way| - 1
        ensures Replaces(claims, way[j], way[j + 1])
      {
        EditedReplaces(claims, claims', id, relations, way[j], way[j + 1]);
      }
      assert Way(claims, way, way[0], id);
    } else {
      UnvisitedRound(claims, claims', id, relations, p);
    }
  }

  /** A new claim is nobody's target, so no round visits it. */
  lemma CreatedRound(
    claims: Claims, used: set<Id>, id: Id, project: string, relations: seq<Relation>, p: seq<Id>)
    requires Known(claims, used) && id !in used && Fits(claims, project, relations)
    requires Round(Created(claims, id, project, relations), p)
    ensures Round(claims, p)
  {
    var claims' := Created(claims, id, project, relations);
    forall j | 0 < j < |p|
      ensures p[j] != id
    {
      assert Replaces(claims', p[j - 1], p[j - 1 + 1]);
      NewIsNoTarget(claims, used, id, project, relations, p[j - 1], p[j]);
    }
    forall i, x | 0 <= i < |p| - 1 && Replaces(claims', p[i], x)
      ensures Replaces(claims, p[i], x)
    {
      assert p[i] != id;
    }
    RoundTransfers(claims', claims, p);
  }

  lemma CreateStaysRoundFree(
    claims: Claims, used: set<Id>, project: string, relations: seq<Relation>, text: Text, id: Id)
    requires Inv(claims, used) && id !in used && RoundFree(claims)
    ensures RoundFree(CreateOp(claims, project, relations, text, id).0)
  {
    var r := CreateOp(claims, project, relations, text, id);
    CheckMeansAllowed(claims, project, None, relations);
    if r.1 == Done {
      forall p
        ensures !Round(r.0, p)
      {
        if Round(r.0, p) {
          CreatedRound(claims, used, id, project, relations, p);
        }
      }
    }
  }

  lemma NewIsNoTarget(
    claims: Claims, used: set<Id>, id: Id, project: string, relations: seq<Relation>, a: Id, b: Id)
    requires Known(claims, used) && id !in used && Fits(claims, project, relations)
    requires Replaces(Created(claims, id, project, relations), a, b)
    ensures b != id
  {
    if a == id {
      var i :| 0 <= i < |relations| && relations[i] == Relation(Supersedes, b);
      assert Allowed(claims, project, None, relations[i]);
    }
  }

  lemma {:induction false} ImportStaysRoundFree(
    claims: Claims, used: set<Id>, project: string, entries: seq<(Id, Text)>)
    requires Inv(claims, used) && Unused(NewIds(Import(project, entries)), used) && RoundFree(claims)
    ensures RoundFree(ImportOp(claims, project, entries).0)
    decreases |entries|
  {
    if entries != [] {
      var ids := NewIds(Import(project, entries));
      var rest := NewIds(Import(project, entries[1..]));
      assert ids[0] == entries[0].0;
      assert forall i :: 0 <= i < |rest| ==> rest[i] == ids[i + 1];
      CreateKeeps(claims, used, project, [], entries[0].1, entries[0].0);
      CreateStaysRoundFree(claims, used, project, [], entries[0].1, entries[0].0);
      var first := CreateOp(claims, project, [], entries[0].1, entries[0].0);
      if first.1 != Refused {
        ImportStaysRoundFree(first.0, used + {entries[0].0}, project, entries[1..]);
      }
    }
  }

  lemma UpdateMakesRoundIffClosing(claims: Claims, e: Event)
    requires RoundFree(claims) && e.Update?
    ensures RoundFree(Step(claims, e)) <==> !Closing(claims, e)
  {
    var r := UpdateOp(claims, e.project, e.id, e.relations, e.text, e.superseded);
    if r.1 == Done {
      assert Edited(claims, r.0, e.id, e.relations);
      if Closes(claims, e.id, e.relations) {
        var target :| Relation(Supersedes, target) in e.relations && LeadsTo(claims, target, e.id);
        var p :| Way(claims, p, target, e.id);
        ClosingMakesRound(claims, r.0, e.id, e.relations, target, p);
      } else {
        forall p
          ensures !Round(r.0, p)
        {
          if Round(r.0, p) {
            RoundMeansClosing(claims, r.0, e.id, e.relations, p);
          }
        }
      }
    }
  }

  lemma DeleteStaysRoundFree(claims: Claims, project: string, id: Id)
    requires RoundFree(claims)
    ensures RoundFree(DeleteOp(claims, project, id))
  {
    forall p
      ensures !Round(DeleteOp(claims, project, id), p)
    {
      if Round(DeleteOp(claims, project, id), p) {
        RoundTransfers(DeleteOp(claims, project, id), claims, p);
      }
    }
  }

  lemma SameLinksStayRoundFree(claims: Claims, claims': Claims)
    requires RoundFree(claims) && SameLinks(claims, claims')
    ensures RoundFree(claims')
  {
    forall p
      ensures !Round(claims', p)
    {
      if Round(claims', p) {
        RoundTransfers(claims', claims, p);
      }
    }
  }

  /** A step gives the supersedes relation its first cycle exactly when it is an accepted edit
      of a claim that one of its new targets leads to, over any relationship and not only the first. */
  lemma RoundIffClosing(claims: Claims, used: set<Id>, e: Event)
    requires Inv(claims, used) && Unused(NewIds(e), used) && RoundFree(claims)
    ensures RoundFree(Step(claims, e)) <==> !Closing(claims, e)
  {
    match e
    case Create(project, relations, text, id) =>
      assert NewIds(e)[0] == id;
      CreateStaysRoundFree(claims, used, project, relations, text, id);
    case Update(_, _, _, _, _) => UpdateMakesRoundIffClosing(claims, e);
    case Review(_, _, _, _) => SameLinksStayRoundFree(claims, Step(claims, e));
    case Delete(project, id) => DeleteStaysRoundFree(claims, project, id);
    case Import(project, entries) => ImportStaysRoundFree(claims, used, project, entries);
  }

  /** No cycle before, between or after the first `n` events. */
  ghost predicate AlwaysRoundFree(events: seq<Event>, n: nat)
    requires n <= |events|
  {
    RoundFree(AfterBy(Step, events, n)) && (n > 0 ==> AlwaysRoundFree(events, n - 1))
  }

  /** None of the first `n` events is an accepted edit that closes a cycle. */
  ghost predicate NoneClosing(events: seq<Event>, n: nat)
    requires n <= |events|
  {
    n > 0 ==> !Closing(AfterBy(Step, events, n - 1), events[n - 1]) && NoneClosing(events, n - 1)
  }

  lemma EmptyIsRoundFree()
    ensures RoundFree(map[])
  {
    forall p
      ensures !Round(map[], p)
    {
      if |p| >= 2 {
        assert !Replaces(map[], p[0], p[0 + 1]);
      }
    }
  }

  lemma OneMoreEvent(events: seq<Event>, n: nat)
    requires 0 < n <= |events| && FreshIds(events, n)
    ensures var before := AfterBy(Step, events, n - 1);
      RoundFree(before) ==> (RoundFree(AfterBy(Step, events, n)) <==> !Closing(before, events[n - 1]))
  {
    PrefixKeeps(events, n - 1);
    var before := AfterBy(Step, events, n - 1);
    if RoundFree(before) {
      RoundIffClosing(before, Used(events, n - 1), events[n - 1]);
    }
  }

  /**
   Main result: over any run, the whole supersedes relation has no cycle at any time exactly when
   no edit was accepted whose new targets lead back to its claim.
   */
  lemma {:induction false} RoundFreeIffNoneClosing(events: seq<Event>, n: nat)
    requires n <= |events| && FreshIds(events, n)
    ensures AlwaysRoundFree(events, n) <==> NoneClosing(events, n)
  {
    if n == 0 {
      EmptyIsRoundFree();
    } else {
      RoundFreeIffNoneClosing(events, n - 1);
      OneMoreEvent(events, n);
    }
  }

  lemma UsedUp(events: seq<Event>)
    requires |events| == 4 && NewIds(events[0]) == [0] && NewIds(events[1]) == [2]
    requires NewIds(events[2]) == [1] && NewIds(events[3]) == []
    ensures FreshIds(events, 4)
  {
    assert [0][0] == 0 && [2][0] == 2;
    assert AsSet([0]) == {0} && AsSet([2]) == {2};
    assert Used(events, 0) == {} && Used(events, 1) == {0} && Used(events, 2) == {0, 2};
    assert Unused([0], {}) && Unused([2], {0}) && Unused([1], {0, 2}) && Unused([], Used(events, 3));
    assert FreshIds(events, 0);
    assert FreshIds(events, 1);
    assert FreshIds(events, 2);
    assert FreshIds(events, 3);
  }

  lemma ThreeClaims(events: seq<Event>)
    requires |events| == 4 && events[0] == Create("p", [], New, 0) && events[1] == Create("p", [], New, 2)
    requires events[2] == Create("p", [Relation(Supersedes, 0), Relation(Supersedes, 2)], New, 1)
    ensures AfterBy(Step, events, 3) == map[
      0 := Claim("p", [], true), 1 := Claim("p", [Relation(Supersedes, 0), Relation(Supersedes, 2)], false),
      2 := Claim("p", [], true)]
  {
    var two := [Relation(Supersedes, 0), Relation(Supersedes, 2)];
    assert AfterBy(Step, events, 0) == map[];
    assert SupersededBy([]) == {};
    assert AfterBy(Step, events, 1) == map[0 := Claim("p", [], false)];
    var claims: Claims := map[0 := Claim("p", [], false), 2 := Claim("p", [], false)];
    assert AfterBy(Step, events, 2) == claims;
    assert two[1..] == [Relation(Supersedes, 2)] && two[1..][1..] == [];
    assert Check(claims, "p", None, two).None?;
    assert two[0] == Relation(Supersedes, 0) && two[1] == Relation(Supersedes, 2);
    assert SupersededBy(two) == {0, 2};
  }

  /** The check of an edit of claim 2 that supersedes claim 1 sees claim 0 behind it, and not claim 2. */
  lemma TwoEdges(claims: Claims)
    requires claims.Keys == {0, 1, 2} && Next(claims, 0).None? && Next(claims, 1) == Some(0)
    requires claims[1].project == "p"
    ensures Check(claims, "p", Some(2), [Relation(Supersedes, 1)]).None?
  {
    assert Walk(claims, Some(2), 0, {1}).None?;
    assert Walk(claims, Some(2), 1, {}) == Walk(claims, Some(2), 0, {} + {1});
    assert {} + {1} == {1};
    assert CheckOne(claims, "p", Some(2), Relation(Supersedes, 1)).None?;
    assert [Relation(Supersedes, 1)][1..] == [];
  }

  /** A run from the empty vault that ends in a cycle: its last edit is accepted because only
      the first claim that claim 1 supersedes is followed. */
  lemma SecondEdgeIsNotFollowed()
    ensures var events := [
        Create("p", [], New, 0), Create("p", [], New, 2),
        Create("p", [Relation(Supersedes, 0), Relation(Supersedes, 2)], New, 1),
        Update("p", 2, [Relation(Supersedes, 1)], New, None)];
      FreshIds(events, 4) && Round(After(events), [1, 2, 1])
  {
    var two := [Relation(Supersedes, 0), Relation(Supersedes, 2)];
    var one := [Relation(Supersedes, 1)];
    var events := [Create("p", [], New, 0), Create("p", [], New, 2), Create("p", two, New, 1),
                   Update("p", 2, one, New, None)];
    UsedUp(events);
    var x, a, b := Claim("p", [], true), Claim("p", two, false), Claim("p", [], true);
    var claims: Claims := map[0 := x, 1 := a, 2 := b];
    ThreeClaims(events);
    TwoEdges(claims);
    assert After(events) == claims[2 := b.(relations := one)];
    assert a.relations[1] == Relation(Supersedes, 2);
    assert one[0] == Relation(Supersedes, 1);
  }
}
