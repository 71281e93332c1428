/**
 The links between stored claims (crates/host-core/src/context_vault.rs): the check that a new
 or edited claim's relationships pass, and what the vault's operations do to the links.
 */
module ContextVault {
  import opened Wrappers

  /** Claims are named by random identifiers that are never used twice. */
  type Id = nat

  datatype Kind = Supersedes | RelatedTo

  datatype Relation = Relation(kind: Kind, target: Id)

  datatype Claim = Claim(project: string, relations: seq<Relation>, superseded: bool)

  type Claims = map<Id, Claim>

  datatype Error = SelfRelation | MissingTarget | OtherProject | Cycle

  // ---- Chains of superseded claims ----------------------------------------------------------

  /** The first claim that a list of relationships supersedes. */
  function FirstOf(relations: seq<Relation>): Option<Id> {
    if relations == [] then None
    else if relations[0].kind == Supersedes then Some(relations[0].target)
    else FirstOf(relations[1..])
  }

  function Next(claims: Claims, id: Id): Option<Id> {
    if id in claims then FirstOf(claims[id].relations) else None
  }

  /** The claim that `k` steps of "the first one it supersedes" lead to. */
  function Chain(claims: Claims, from: Id, k: nat): Option<Id> {
    if k == 0 then Some(from)
    else
      var before := Chain(claims, from, k - 1);
      if before.None? then None else Next(claims, before.value)
  }

  /** The walk over a chain: it stops at a claim it has seen, at the owner, at the end or at a missing claim. */
  function Walk(claims: Claims, owner: Option<Id>, cursor: Id, seen: set<Id>): Option<Error>
    requires cursor in claims && seen <= claims.Keys
    decreases claims.Keys - seen
  {
    if cursor in seen then None
    else if owner == Some(cursor) then Some(Cycle)
    else
      var next := Next(claims, cursor);
      if next.None? then None
      else if next.value !in claims then Some(MissingTarget)
      else Walk(claims, owner, next.value, seen + {cursor})
  }

  function CheckOne(claims: Claims, project: string, owner: Option<Id>, relation: Relation): Option<Error> {
    if owner == Some(relation.target) then Some(SelfRelation)
    else if relation.target !in claims then Some(MissingTarget)
    else if claims[relation.target].project != project then Some(OtherProject)
    else if relation.kind == Supersedes then Walk(claims, owner, relation.target, {})
    else None
  }

  function Check(claims: Claims, project: string, owner: Option<Id>, relations: seq<Relation>): Option<Error> {
    if relations == [] then None
    else
      var first := CheckOne(claims, project, owner, relations[0]);
      if first.Some? then first else Check(claims, project, owner, relations[1..])
  }

  // ---- Operations ----------------------------------------------------------------------------------

  /** What the checks of a claim's text find: they may also find it said already. */
  datatype Text = Invalid | Duplicate | Overlapping | New

  datatype Outcome = Refused | Known | Done | NotFound | Elsewhere

  function SupersededBy(relations: seq<Relation>): set<Id> {
    set r | r in relations && r.kind == Supersedes :: r.target
  }

  /** The targets of a new claim's supersedes relationships are marked. */
  function Marked(claims: Claims, targets: set<Id>): Claims {
    map id | id in claims :: if id in targets then claims[id].(superseded := true) else claims[id]
  }

  function Created(claims: Claims, id: Id, project: string, relations: seq<Relation>): Claims {
    Marked(claims[id := Claim(project, relations, false)], SupersededBy(relations))
  }

  class Vault {
    var claims: Claims

    constructor ()
      ensures claims == map[]
    {
      claims := map[];
    }

    /** The inner loop of `validate_relationships`: it ends on any graph. */
    method WalkChain(owner: Option<Id>, target: Id) returns (error: Option<Error>)
      requires target in claims
      ensures error == Walk(claims, owner, target, {})
    {
      var cursor := target;
      var seen: set<Id> := {};
      while cursor !in seen
        invariant cursor in claims && seen <= claims.Keys
        invariant Walk(claims, owner, cursor, seen) == Walk(claims, owner, target, {})
        decreases claims.Keys - seen
      {
        if owner == Some(cursor) {
          return Some(Cycle);
        }
        var next := FirstOf(claims[cursor].relations);
        if next.None? {
          return None;
        }
        if next.value !in claims {
          return Some(MissingTarget);
        }
        seen := seen + {cursor};
        cursor := next.value;
      }
      error := None;
    }

    /** `validate_relationships`. */
    method ValidateRelationships(project: string, owner: Option<Id>, relations: seq<Relation>)
      returns (error: Option<Error>)
      ensures error == Check(claims, project, owner, relations)
    {
      for i := 0 to |relations|
        invariant Check(claims, project, owner, relations[i..]) == Check(claims, project, owner, relations)
      {
        var relation := relations[i];
        assert relations[i..][1..] == relations[i + 1..];
        if owner == Some(relation.target) {
          return Some(SelfRelation);
        }
        if relation.target !in claims {
          return Some(MissingTarget);
        }
        if claims[relation.target].project != project {
          return Some(OtherProject);
        }
        if relation.kind == Supersedes {
          var walked := WalkChain(owner, relation.target);
          if walked.Some? {
            return walked;
          }
        }
      }
      error := None;
    }

    /** The loop that marks what a new claim supersedes. */
    method MarkTargets(relations: seq<Relation>)
      modifies this
      ensures claims == Marked(old(claims), SupersededBy(relations))
    {
      for i := 0 to |relations|
        invariant claims == Marked(old(claims), SupersededBy(relations[..i]))
      {
        assert relations[..i + 1] == relations[..i] + [relations[i]];
        var relation := relations[i];
        if relation.kind == Supersedes && relation.target in claims {
          claims := claims[relation.target := claims[relation.target].(superseded := true)];
        }
      }
      assert relations[..|relations|] == relations;
    }

    method Create(project: string, relations: seq<Relation>, text: Text, id: Id) returns (r: Outcome)
      modifies this
      ensures claims == CreateOp(old(claims), project, relations, text, id).0
      ensures r == CreateOp(old(claims), project, relations, text, id).1
    {
      if text == Invalid {
        return Refused;
      }
      var error := ValidateRelationships(project, None, relations);
      if error.Some? {
        return Refused;
      }
      if text != New {
        return Known;
      }
      claims := claims[id := Claim(project, relations, false)];
      MarkTargets(relations);
      r := Done;
    }

    /** An edit brings its own mark, or keeps the one that is there. */
    method Update(project: string, id: Id, relations: seq<Relation>, text: Text, superseded: Option<bool>)
      returns (r: Outcome)
      modifies this
      ensures claims == UpdateOp(old(claims), project, id, relations, text, superseded).0
      ensures r == UpdateOp(old(claims), project, id, relations, text, superseded).1
    {
      if id !in claims {
        return NotFound;
      }
      if claims[id].project != project {
        return Elsewhere;
      }
      if text == Invalid {
        return Refused;
      }
      var error := ValidateRelationships(project, Some(id), relations);
      if error.Some? {
        return Refused;
      }
      var mark := if superseded.Some? then superseded.value else claims[id].superseded;
      claims := claims[id := claims[id].(relations := relations, superseded := mark)];
      r := Done;
    }

    /** `review`: only the state of a claim changes; a note that is too long is refused last. */
    method Review(project: string, id: Id, state: string, noteOk: bool) returns (r: Outcome)
      modifies this
      ensures claims == ReviewOp(old(claims), project, id, state, noteOk).0
      ensures r == ReviewOp(old(claims), project, id, state, noteOk).1
    {
      if state !in {"unverified", "reviewed", "conflicted", "superseded"} {
        return Refused;
      }
      if id !in claims {
        return NotFound;
      }
      if claims[id].project != project {
        return Elsewhere;
      }
      if !noteOk {
        return Refused;
      }
      claims := claims[id := claims[id].(superseded := state == "superseded")];
      r := Done;
    }

    method Delete(project: string, id: Id) returns (deleted: bool)
      modifies this
      ensures claims == DeleteOp(old(claims), project, id)
      ensures deleted <==> id in old(claims) && old(claims)[id].project == project
    {
      deleted := id in claims && claims[id].project == project;
      if deleted {
        claims := claims - {id};
      }
    }

    /** `import_apply`: every chosen entry is created without relationships, and the new ones are
        counted; an entry that is refused ends the import with an error. */
    method ImportApply(project: string, entries: seq<(Id, Text)>) returns (imported: Option<nat>)
      modifies this
      ensures claims == ImportOp(old(claims), project, entries).0
      ensures imported == if ImportOp(old(claims), project, entries).1 == Done then Some(NewEntries(entries)) else None
    {
      var count := 0;
      for i := 0 to |entries|
        invariant ImportOp(claims, project, entries[i..]) == ImportOp(old(claims), project, entries)
        invariant count + NewEntries(entries[i..]) == NewEntries(entries)
      {
        assert entries[i..][1..] == entries[i + 1..];
        var r := Create(project, [], entries[i].1, entries[i].0);
        if r == Refused {
          return None;
        }
        if r == Done {
          count := count + 1;
        }
      }
      imported := Some(count);
    }
  }

  function CreateOp(claims: Claims, project: string, relations: seq<Relation>, text: Text, id: Id): (Claims, Outcome) {
    if text == Invalid || Check(claims, project, None, relations).Some? then (claims, Refused)
    else if text != New then (claims, Known)
    else (Created(claims, id, project, relations), Done)
  }

  function UpdateOp(
    claims: Claims, project: string, id: Id, relations: seq<Relation>, text: Text, superseded: Option<bool>)
    : (Claims, Outcome)
  {
    if id !in claims then (claims, NotFound)
    else if claims[id].project != project then (claims, Elsewhere)
    else if text == Invalid || Check(claims, project, Some(id), relations).Some? then (claims, Refused)
    else
      var mark := if superseded.Some? then superseded.value else claims[id].superseded;
      (claims[id := claims[id].(relations := relations, superseded := mark)], Done)
  }

  function ReviewOp(claims: Claims, project: string, id: Id, state: string, noteOk: bool): (Claims, Outcome) {
    if state !in {"unverified", "reviewed", "conflicted", "superseded"} then (claims, Refused)
    else if id !in claims then (claims, NotFound)
    else if claims[id].project != project then (claims, Elsewhere)
    else if !noteOk then (claims, Refused)
    else (claims[id := claims[id].(superseded := state == "superseded")], Done)
  }

  function DeleteOp(claims: Claims, project: string, id: Id): Claims {
    if id in claims && claims[id].project == project then claims - {id} else claims
  }

  /** Entries are created one by one; one that is refused ends the import, and what came before it stays. */
  function ImportOp(claims: Claims, project: string, entries: seq<(Id, Text)>): (Claims, Outcome)
    decreases |entries|
  {
    if entries == [] then (claims, Done)
    else
      var first := CreateOp(claims, project, [], entries[0].1, entries[0].0);
      if first.1 == Refused then first else ImportOp(first.0, project, entries[1..])
  }

  /** The entries that are neither invalid nor said already. */
  function NewEntries(entries: seq<(Id, Text)>): nat {
    if entries == [] then 0 else (if entries[0].1 == New then 1 else 0) + NewEntries(entries[1..])
  }
}
