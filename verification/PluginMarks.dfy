/**
 Which imported sessions are in the trash, and that plugins do not touch each other's sessions
 (crates/host-core/src/plugin_sessions.rs).
 */
module PluginMarks {
  import opened PluginSessions
  import opened PluginRuns
  import opened Wrappers

  // ---- What an import touches --------------------------------------------------------------------

  /** Session rows and the transcripts of other sessions stay as they are; new rows are not in the trash. */
  ghost predicate OnlyImports(s: State, t: State, ids: set<Id>) {
    && (forall id :: id in s.sessions ==> id in t.sessions && t.sessions[id] == s.sessions[id])
    && (forall id :: id in t.sessions && id !in s.sessions ==> id in ids && !t.sessions[id].trashed)
    && (forall id :: id in s.files && id !in ids ==> id in t.files && t.files[id] == s.files[id])
  }

  lemma OneImports(s: State, plugin: string, source: string, item: Item, ids: set<Id>)
    requires item.prepared.Some? ==> item.prepared.value.id in ids
    ensures OnlyImports(s, ImportOne(s, plugin, source, item).0, ids)
  {
  }

  /** The identifiers of all items are among these. */
  predicate Within(items: seq<Item>, ids: set<Id>) {
    forall i :: 0 <= i < |items| && items[i].prepared.Some? ==> items[i].prepared.value.id in ids
  }

  lemma {:induction false} EachImports(s: State, plugin: string, source: string, items: seq<Item>, ids: set<Id>)
    requires Within(items, ids)
    ensures OnlyImports(s, ImportEach(s, plugin, source, items).0, ids)
  {
    if items != [] {
      var n := |items| - 1;
      EachImports(s, plugin, source, items[..n], ids);
      OneImports(ImportEach(s, plugin, source, items[..n]).0, plugin, source, items[n], ids);
    }
  }

  lemma {:induction false} WriteAllImports(s: State, items: seq<Item>, ids: set<Id>)
    requires AllPrepared(items) && Within(items, ids)
    ensures OnlyImports(s, WriteAll(s, items), ids) && WriteAll(s, items).sessions == s.sessions
  {
    if items != [] {
      WriteAllImports(s, items[..|items| - 1], ids);
      assert items[|items| - 1].prepared.value.id in ids;
    }
  }

  lemma {:induction false} RemoveAllImports(s: State, items: seq<Item>, ids: set<Id>)
    requires AllPrepared(items) && Within(items, ids)
    ensures OnlyImports(s, RemoveAll(s, items), ids) && RemoveAll(s, items).sessions == s.sessions
  {
    if items != [] {
      RemoveAllImports(s, items[..|items| - 1], ids);
      assert items[|items| - 1].prepared.value.id in ids;
    }
  }

  lemma {:induction false} IndexAllImports(s: State, plugin: string, source: string, items: seq<Item>, ids: set<Id>)
    requires AllPrepared(items) && Within(items, ids)
    ensures var r := IndexAll(s, plugin, source, items); r.Some? ==> OnlyImports(s, r.value, ids)
  {
    if items != [] {
      IndexAllImports(s, plugin, source, items[..|items| - 1], ids);
      assert items[|items| - 1].prepared.value.id in ids;
    }
  }

  lemma Undone(s: State, items: seq<Item>, ids: set<Id>)
    requires AllPrepared(items) && Within(items, ids)
    ensures OnlyImports(s, RemoveAll(WriteAll(s, items), items), ids)
  {
    WriteAllImports(s, items, ids);
    RemoveAllImports(WriteAll(s, items), items, ids);
  }

  lemma AllImports(s: State, plugin: string, source: string, items: seq<Item>, indexes: bool, ids: set<Id>)
    requires Within(items, ids)
    ensures OnlyImports(s, ImportFail(s, plugin, source, items, indexes).0, ids)
  {
    if Acceptable(s, plugin, source, items, {}) {
      AcceptableArePrepared(s, plugin, source, items, {});
      var n := WrittenCount(items);
      if n < |items| {
        Undone(s, items[..n + 1], ids);
      } else {
        Undone(s, items, ids);
        WriteAllImports(s, items, ids);
        IndexAllImports(WriteAll(s, items), plugin, source, items, ids);
      }
    }
  }

  lemma EventImports(s: State, e: Event, ids: set<Id>)
    requires (e.One? || e.Skip? || e.All?) && Within(Items(e), ids)
    ensures OnlyImports(s, Step(s, e), ids)
  {
    match e
    case One(plugin, source, item) =>
      assert Items(e)[0] == item;
      OneImports(s, plugin, source, item, ids);
    case Skip(plugin, source, items) => EachImports(s, plugin, source, items, ids);
    case All(plugin, source, items, indexes) => AllImports(s, plugin, source, items, indexes, ids);
  }

  // ---- The trash ------------------------------------------------------------------------------------

  /** The session came from this plugin. */
  predicate CameFrom(s: State, plugin: string, id: Id) {
    exists o :: o in s.origins && o.id == id && o.key.plugin == plugin
  }

  /** The event moves the session to the trash. */
  predicate TrashesNow(s: State, e: Event, id: Id) {
    e.ToTrash? && e.id == id && id in s.sessions && CameFrom(s, e.plugin, id)
  }

  lemma OwnsMeans(s: State, plugin: string, id: Id)
    ensures Owns(s, plugin, id) <==> CameFrom(s, plugin, id)
  {
    if i :| 0 <= i < |s.origins| && s.origins[i].id == id && s.origins[i].key.plugin == plugin {
      assert s.origins[i] in s.origins;
    }
  }

  lemma StepTrashes(s: State, e: Event, id: Id)
    requires id in Step(s, e).sessions
    ensures var t := Step(s, e);
      if id in s.sessions then
        t.sessions[id] == Session(s.sessions[id].trashed || TrashesNow(s, e, id), s.sessions[id].indexed)
      else id in NewIds(Items(e)) && !t.sessions[id].trashed
  {
    if e.ToTrash? {
      OwnsMeans(s, e.plugin, e.id);
    } else if !e.Purged? {
      EventImports(s, e, NewIds(Items(e)));
    }
  }

  /** Some of the first `n` events moved the session to the trash. */
  predicate Trashed(events: seq<Event>, n: nat, id: Id)
    requires n <= |events|
  {
    n > 0 && (TrashesNow(After(EMPTY, events, n - 1), events[n - 1], id) || Trashed(events, n - 1, id))
  }

  lemma TrashedNowIsUsed(s: State, used: set<Id>, e: Event, id: Id)
    requires Inv(s, used) && TrashesNow(s, e, id)
    ensures id in used
  {
  }

  lemma {:induction false} TrashedIsUsed(events: seq<Event>, n: nat, id: Id)
    requires n <= |events| && FreshIds(events, n) && Trashed(events, n, id)
    ensures id in Used(events, n)
  {
    if TrashesNow(After(EMPTY, events, n - 1), events[n - 1], id) {
      RunLeaves(events, n - 1);
      TrashedNowIsUsed(After(EMPTY, events, n - 1), Used(events, n - 1), events[n - 1], id);
    } else {
      TrashedIsUsed(events, n - 1, id);
    }
  }

  /** Main result: over any run, a session is in the trash exactly when the plugin that it came from moved it there. */
  lemma {:induction false} InTrashIffTrashed(events: seq<Event>, n: nat, id: Id)
    requires n <= |events| && FreshIds(events, n) && id in After(EMPTY, events, n).sessions
    ensures After(EMPTY, events, n).sessions[id].trashed <==> Trashed(events, n, id)
  {
    if n > 0 {
      var before, e := After(EMPTY, events, n - 1), events[n - 1];
      StepTrashes(before, e, id);
      if id in before.sessions {
        InTrashIffTrashed(events, n - 1, id);
      } else if Trashed(events, n - 1, id) {
        TrashedIsUsed(events, n - 1, id);
      }
    }
  }

  // ---- Plugins ------------------------------------------------------------------------------------------

  /** The session of a plugin, with its row, its transcript and its key, is the same in both states. */
  ghost predicate SameSession(s: State, t: State, key: Key, id: Id) {
    && Find(s.origins, key) == Some(id) && Find(t.origins, key) == Some(id)
    && id in s.sessions && id in t.sessions && t.sessions[id] == s.sessions[id]
    && id in s.files && id in t.files && t.files[id] == s.files[id]
  }

  lemma FoundIsPaired(s: State, used: set<Id>, key: Key, id: Id)
    requires Inv(s, used) && Find(s.origins, key) == Some(id)
    ensures id in s.sessions && id in s.files && id in used && Origin(key, id) in s.origins
    ensures forall plugin :: Owns(s, plugin, id) <==> plugin == key.plugin
  {
    FindMeans(s.origins, key);
    forall plugin
      ensures CameFrom(s, plugin, id) <==> plugin == key.plugin
      ensures Owns(s, plugin, id) <==> CameFrom(s, plugin, id)
    {
      OwnsMeans(s, plugin, id);
      if o :| o in s.origins && o.id == id && o.key.plugin == plugin {
        assert o == Origin(key, id);
      }
    }
  }

  function PluginOf(e: Event): string {
    match e
    case One(plugin, _, _) => plugin
    case Skip(plugin, _, _) => plugin
    case All(plugin, _, _, _) => plugin
    case ToTrash(plugin, _) => plugin
    case Purged(plugin, _, _) => plugin
  }

  lemma ImportsStayApart(s: State, e: Event, key: Key, id: Id)
    requires (e.One? || e.Skip? || e.All?) && id !in NewIds(Items(e))
    requires Find(s.origins, key) == Some(id) && id in s.sessions && id in s.files
    ensures SameSession(s, Step(s, e), key, id)
  {
    EventImports(s, e, NewIds(Items(e)));
    StepKeepsOrigin(s, e, key, id);
  }

  lemma DeletionsStayApart(s: State, e: Event, key: Key, id: Id)
    requires (e.ToTrash? || e.Purged?) && !(e.id == id && Owns(s, e.plugin, id))
    requires Find(s.origins, key) == Some(id) && id in s.sessions && id in s.files
    ensures SameSession(s, Step(s, e), key, id)
  {
    if e.id != id {
      StepKeepsOrigin(s, e, key, id);
    }
  }

  lemma StepsStayApart(s: State, used: set<Id>, all: set<Id>, e: Event, key: Key, id: Id)
    requires Inv(s, used) && FreshItems(Items(e), used, all)
    requires Find(s.origins, key) == Some(id) && key.plugin != PluginOf(e)
    ensures SameSession(s, Step(s, e), key, id)
  {
    FoundIsPaired(s, used, key, id);
    if e.ToTrash? || e.Purged? {
      DeletionsStayApart(s, e, key, id);
    } else {
      ImportsStayApart(s, e, key, id);
    }
  }

  /** Main result: over any run, an event of one plugin leaves the sessions of every other plugin as they are. */
  lemma PluginsStayApart(events: seq<Event>, n: nat, key: Key, id: Id)
    requires n < |events| && FreshIds(events, n + 1) && key.plugin != PluginOf(events[n])
    requires Find(After(EMPTY, events, n).origins, key) == Some(id)
    ensures SameSession(After(EMPTY, events, n), After(EMPTY, events, n + 1), key, id)
  {
    RunLeaves(events, n);
    StepsStayApart(After(EMPTY, events, n), Used(events, n), Used(events, n + 1), events[n], key, id);
  }

  // ---- Answers ------------------------------------------------------------------------------------------

  /** Main result: a refused item fails; a key that is known returns its session and changes nothing; a new one is
      imported exactly when its transcript can be written and its rows indexed, and otherwise no row changes. */
  lemma ImportAnswers(s: State, used: set<Id>, plugin: string, source: string, item: Item)
    requires Inv(s, used) && (item.prepared.Some? ==> item.prepared.value.id !in used)
    ensures var (t, result) := ImportOne(s, plugin, source, item);
      match item.prepared
      case None => t == s && result == Failed
      case Some(p) =>
        var key := Key(plugin, source, p.external);
        if exists o :: o in s.origins && o.key == key then
          t == s && result.Skipped? && Origin(key, result.id) in s.origins
        else if item.faults.writes && item.faults.indexes then
          && result == Imported(p.id) && t.origins == s.origins + [Origin(key, p.id)]
          && t.sessions == s.sessions[p.id := Session(false, p.records)] && t.files == s.files[p.id := p.records]
        else result == Failed && t.origins == s.origins && t.sessions == s.sessions
  {
    if item.prepared.Some? {
      var p := item.prepared.value;
      var key := Key(plugin, source, p.external);
      FindMeans(s.origins, key);
      if Find(s.origins, key).None? {
        NewRowFits(s, used, key, p.id);
      }
    }
  }

  /** Main result: purging removes the session, its origin and, unless that fails, its files; only the plugin that it
      came from can do that. */
  lemma PurgedIsGone(s: State, plugin: string, id: Id, removes: Removal)
    ensures var t := Purge(s, plugin, id, removes);
      if CameFrom(s, plugin, id) && id in s.sessions then
        && t.sessions == s.sessions - {id} && (forall o :: o in t.origins <==> o in s.origins && o.id != id)
        && (id in t.files <==> id in s.files && !removes.file) && (id in t.temps <==> id in s.temps && !removes.temp)
      else t == s
  {
    OwnsMeans(s, plugin, id);
    CascadeRemoves(s.origins, id);
  }

  lemma {:induction false} CascadeRemoves(origins: seq<Origin>, id: Id)
    ensures forall o :: o in Cascade(origins, id) <==> o in origins && o.id != id
  {
    if origins != [] {
      CascadeRemoves(origins[1..], id);
      assert origins == [origins[0]] + origins[1..];
    }
  }
}
