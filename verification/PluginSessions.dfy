/**
 Sessions imported by plugins (crates/host-core/src/plugin_sessions.rs): the session rows, the
 rows that say where each came from (crates/host-core/src/db.rs), and the transcript files.
 Writing, indexing and removing may each fail.
 */
module PluginSessions {
  import opened Wrappers

  /** Session identifiers are random and never used twice. */
  type Id = nat

  /** The messages of a transcript. */
  type Records = seq<string>

  datatype Key = Key(plugin: string, source: string, external: string)

  datatype Session = Session(trashed: bool, indexed: Records)

  datatype Origin = Origin(key: Key, id: Id)

  datatype State = State(sessions: map<Id, Session>, origins: seq<Origin>, files: map<Id, Records>, temps: set<Id>)

  const MAX_BATCH_SESSIONS := 100

  // ---- The tables ----------------------------------------------------------------------------

  /** `find_origin`. */
  function Find(origins: seq<Origin>, key: Key): Option<Id> {
    if origins == [] then None
    else if origins[0].key == key then Some(origins[0].id)
    else Find(origins[1..], key)
  }

  /** What the unique columns and the primary key refuse. */
  predicate Clashes(s: State, key: Key, id: Id) {
    id in s.sessions || exists i :: 0 <= i < |s.origins| && (s.origins[i].key == key || s.origins[i].id == id)
  }

  /** The rows of one imported session. */
  function Indexed(s: State, key: Key, id: Id, records: Records): State {
    s.(sessions := s.sessions[id := Session(false, records)], origins := s.origins + [Origin(key, id)])
  }

  /** Deleting a session row deletes its origin. */
  function Cascade(origins: seq<Origin>, id: Id): seq<Origin> {
    if origins == [] then []
    else if origins[0].id == id then Cascade(origins[1..], id)
    else [origins[0]] + Cascade(origins[1..], id)
  }

  function WithoutSession(s: State, id: Id): State {
    s.(sessions := s.sessions - {id}, origins := Cascade(s.origins, id))
  }

  // ---- The files -------------------------------------------------------------------------------

  /** Writing a transcript: the whole file or, when it fails, at most a temporary one. */
  function Write(s: State, id: Id, records: Records, ok: bool, leavesTemp: bool): State {
    if ok then s.(files := s.files[id := records], temps := s.temps - {id})
    else if leavesTemp then s.(temps := s.temps + {id})
    else s
  }

  /** Which of a session's files can be removed: each removal may fail alone. */
  datatype Removal = Removal(temp: bool, file: bool)

  /** `remove_session_files`, which fails without telling. */
  function Remove(s: State, id: Id, works: Removal): State {
    s.(temps := if works.temp then s.temps - {id} else s.temps,
       files := if works.file then s.files - {id} else s.files)
  }

  // ---- One session ---------------------------------------------------------------------------------

  /** What goes wrong while one session is imported. */
  datatype Faults = Faults(writes: bool, leavesTemp: bool, indexes: bool, removes: Removal)

  /** A session that passed its checks, under the identifier made for it. */
  datatype Prepared = Prepared(id: Id, external: string, records: Records)

  datatype Item = Item(prepared: Option<Prepared>, faults: Faults)

  datatype Result = Imported(id: Id) | Skipped(id: Id) | Failed

  function WriteAndIndex(s: State, key: Key, p: Prepared, f: Faults): (State, bool) {
    var written := Write(s, p.id, p.records, f.writes, f.leavesTemp);
    if !f.writes then (written, false)
    else if f.indexes && !Clashes(written, key, p.id) then (Indexed(written, key, p.id, p.records), true)
    else (Remove(written, p.id, f.removes), false)
  }

  function ImportOne(s: State, plugin: string, source: string, item: Item): (State, Result) {
    if item.prepared.None? then (s, Failed)
    else
      var p := item.prepared.value;
      var key := Key(plugin, source, p.external);
      var found := Find(s.origins, key);
      if found.Some? then (s, Skipped(found.value))
      else
        var r := WriteAndIndex(s, key, p, item.faults);
        (r.0, if r.1 then Imported(p.id) else Failed)
  }

  /** The items of a batch in `skip` mode: one after the other, whatever becomes of them. */
  function ImportEach(s: State, plugin: string, source: string, items: seq<Item>): (State, seq<Result>) {
    if items == [] then (s, [])
    else
      var n := |items| - 1;
      var before := ImportEach(s, plugin, source, items[..n]);
      var last := ImportOne(before.0, plugin, source, items[n]);
      (last.0, before.1 + [last.1])
  }

  function ImportSkip(s: State, plugin: string, source: string, items: seq<Item>): (State, seq<Result>) {
    if |items| > MAX_BATCH_SESSIONS then (s, []) else ImportEach(s, plugin, source, items)
  }

  // ---- All or nothing ---------------------------------------------------------------------------------

  /** No item of the batch may be refused, repeat another one or exist already. */
  predicate Acceptable(s: State, plugin: string, source: string, items: seq<Item>, seen: set<string>) {
    items == [] ||
    (&& items[0].prepared.Some? && items[0].prepared.value.external !in seen
     && Find(s.origins, Key(plugin, source, items[0].prepared.value.external)).None?
     && Acceptable(s, plugin, source, items[1..], seen + {items[0].prepared.value.external}))
  }

  /** How many transcripts are written before one fails. */
  function WrittenCount(items: seq<Item>): (n: nat)
    ensures n <= |items|
  {
    if items == [] || !items[0].faults.writes then 0 else 1 + WrittenCount(items[1..])
  }

  function WriteAll(s: State, items: seq<Item>): State
    requires forall i :: 0 <= i < |items| ==> items[i].prepared.Some?
  {
    if items == [] then s
    else
      var n := |items| - 1;
      var p, f := items[n].prepared.value, items[n].faults;
      Write(WriteAll(s, items[..n]), p.id, p.records, f.writes, f.leavesTemp)
  }

  /** Removing the files of each item again. */
  function RemoveAll(s: State, items: seq<Item>): State
    requires forall i :: 0 <= i < |items| ==> items[i].prepared.Some?
  {
    if items == [] then s
    else
      var n := |items| - 1;
      Remove(RemoveAll(s, items[..n]), items[n].prepared.value.id, items[n].faults.removes)
  }

  /** One transaction for all rows; any clash undoes it. */
  function IndexAll(s: State, plugin: string, source: string, items: seq<Item>): Option<State>
    requires forall i :: 0 <= i < |items| ==> items[i].prepared.Some?
  {
    if items == [] then Some(s)
    else
      var n := |items| - 1;
      var p := items[n].prepared.value;
      var before := IndexAll(s, plugin, source, items[..n]);
      if before.None? || Clashes(before.value, Key(plugin, source, p.external), p.id) then None
      else Some(Indexed(before.value, Key(plugin, source, p.external), p.id, p.records))
  }

  lemma {:induction false} AcceptableArePrepared(
    s: State, plugin: string, source: string, items: seq<Item>, seen: set<string>)
    requires Acceptable(s, plugin, source, items, seen)
    ensures forall i :: 0 <= i < |items| ==> items[i].prepared.Some?
  {
    if items != [] {
      AcceptableArePrepared(s, plugin, source, items[1..], seen + {items[0].prepared.value.external});
      assert forall i :: 0 < i < |items| ==> items[i] == items[1..][i - 1];
    }
  }

  /** A batch in `fail` mode; `indexes` is for the batch as a whole. */
  function ImportFail(s: State, plugin: string, source: string, items: seq<Item>, indexes: bool): (State, bool) {
    if |items| > MAX_BATCH_SESSIONS || !Acceptable(s, plugin, source, items, {}) then (s, false)
    else
      AcceptableArePrepared(s, plugin, source, items, {});
      var n := WrittenCount(items);
      if n < |items| then (RemoveAll(WriteAll(s, items[..n + 1]), items[..n + 1]), false)
      else
        var written := WriteAll(s, items);
        var indexed := IndexAll(written, plugin, source, items);
        if indexes && indexed.Some? then (indexed.value, true) else (RemoveAll(written, items), false)
  }

  // ---- Deleting ----------------------------------------------------------------------------------------

  predicate Owns(s: State, plugin: string, id: Id) {
    exists i :: 0 <= i < |s.origins| && s.origins[i].id == id && s.origins[i].key.plugin == plugin
  }

  function Trash(s: State, plugin: string, id: Id): State {
    if Owns(s, plugin, id) && id in s.sessions then
      s.(sessions := s.sessions[id := s.sessions[id].(trashed := true)])
    else s
  }

  function Purge(s: State, plugin: string, id: Id, removes: Removal): State {
    if Owns(s, plugin, id) && id in s.sessions then Remove(WithoutSession(s, id), id, removes) else s
  }

  // ---- The host's operations ------------------------------------------------------------------------------

  class Importer {
    var sessions: map<Id, Session>
    var origins: seq<Origin>
    var files: map<Id, Records>
    var temps: set<Id>

    constructor ()
      ensures View() == State(map[], [], map[], {})
    {
      sessions, origins, files, temps := map[], [], map[], {};
    }

    function View(): State
      reads this
    {
      State(sessions, origins, files, temps)
    }

    /** `write_transcript`: a temporary file that is renamed when it is complete. */
    method WriteTranscript(id: Id, records: Records, ok: bool, leavesTemp: bool)
      modifies this`files, this`temps
      ensures View() == Write(old(View()), id, records, ok, leavesTemp)
    {
      if !ok {
        if leavesTemp {
          temps := temps + {id};
        }
        return;
      }
      temps := temps - {id};
      files := files[id := records];
    }

    method RemoveSessionFiles(id: Id, works: Removal)
      modifies this`files, this`temps
      ensures View() == Remove(old(View()), id, works)
    {
      if works.temp {
        temps := temps - {id};
      }
      if works.file {
        files := files - {id};
      }
    }

    method RemoveEach(items: seq<Item>)
      requires forall i :: 0 <= i < |items| ==> items[i].prepared.Some?
      modifies this`files, this`temps
      ensures View() == RemoveAll(old(View()), items)
    {
      for i := 0 to |items|
        invariant View() == RemoveAll(old(View()), items[..i])
      {
        assert items[..i + 1][..i] == items[..i];
        RemoveSessionFiles(items[i].prepared.value.id, items[i].faults.removes);
      }
      assert items[..|items|] == items;
    }

    /** Inserting the rows of one session; false when a constraint refuses them. */
    method InsertRows(key: Key, p: Prepared) returns (ok: bool)
      modifies this`sessions, this`origins
      ensures ok == !Clashes(old(View()), key, p.id)
      ensures View() == if ok then Indexed(old(View()), key, p.id, p.records) else old(View())
    {
      ok := !Clashes(View(), key, p.id);
      if ok {
        sessions := sessions[p.id := Session(false, p.records)];
        origins := origins + [Origin(key, p.id)];
      }
    }

    /** `write_and_index`. */
    method WriteAndIndexOne(key: Key, p: Prepared, f: Faults) returns (ok: bool)
      modifies this
      ensures (View(), ok) == WriteAndIndex(old(View()), key, p, f)
    {
      WriteTranscript(p.id, p.records, f.writes, f.leavesTemp);
      if !f.writes {
        return false;
      }
      ok := f.indexes;
      if ok {
        ok := InsertRows(key, p);
      }
      if !ok {
        RemoveSessionFiles(p.id, f.removes);
      }
    }

    /** `import_one`. */
    method Import(plugin: string, source: string, item: Item) returns (r: Result)
      modifies this
      ensures (View(), r) == ImportOne(old(View()), plugin, source, item)
    {
      if item.prepared.None? {
        return Failed;
      }
      var p := item.prepared.value;
      var key := Key(plugin, source, p.external);
      var found := Find(origins, key);
      if found.Some? {
        return Skipped(found.value);
      }
      var ok := WriteAndIndexOne(key, p, item.faults);
      r := if ok then Imported(p.id) else Failed;
    }

    /** `import_batch` in `skip` mode. */
    method ImportSkipping(plugin: string, source: string, items: seq<Item>) returns (results: seq<Result>)
      modifies this
      ensures (View(), results) == ImportSkip(old(View()), plugin, source, items)
    {
      results := [];
      if |items| > MAX_BATCH_SESSIONS {
        return;
      }
      for i := 0 to |items|
        invariant (View(), results) == ImportEach(old(View()), plugin, source, items[..i])
      {
        assert items[..i + 1][..i] == items[..i];
        var r := Import(plugin, source, items[i]);
        results := results + [r];
      }
      assert items[..|items|] == items;
    }

    /** The checks of a batch in `fail` mode. */
    method CheckBatch(plugin: string, source: string, items: seq<Item>) returns (ok: bool)
      ensures ok == Acceptable(View(), plugin, source, items, {})
    {
      var seen: set<string> := {};
      for i := 0 to |items|
        invariant Acceptable(View(), plugin, source, items[i..], seen) == Acceptable(View(), plugin, source, items, {})
      {
        assert items[i..][1..] == items[i + 1..];
        if items[i].prepared.None? {
          return false;
        }
        var external := items[i].prepared.value.external;
        if external in seen || Find(origins, Key(plugin, source, external)).Some? {
          return false;
        }
        seen := seen + {external};
      }
      ok := true;
    }

    /** Writing all transcripts; on a failure everything that was written is removed again. */
    method WriteBatch(items: seq<Item>) returns (ok: bool)
      requires forall i :: 0 <= i < |items| ==> items[i].prepared.Some?
      modifies this`files, this`temps
      ensures ok <==> WrittenCount(items) == |items|
      ensures ok ==> View() == WriteAll(old(View()), items)
      ensures !ok ==> var n := WrittenCount(items) + 1;
        View() == RemoveAll(WriteAll(old(View()), items[..n]), items[..n])
    {
      for i := 0 to |items|
        invariant View() == WriteAll(old(View()), items[..i])
        invariant WrittenCount(items) == i + WrittenCount(items[i..])
      {
        var p, f := items[i].prepared.value, items[i].faults;
        assert items[..i + 1][..i] == items[..i] && items[i..][1..] == items[i + 1..];
        WriteTranscript(p.id, p.records, f.writes, f.leavesTemp);
        if !f.writes {
          RemoveEach(items[..i + 1]);
          return false;
        }
      }
      assert items[..|items|] == items && items[|items|..] == [];
      ok := true;
    }

    /** The transaction: all rows or none. */
    method IndexBatch(plugin: string, source: string, items: seq<Item>) returns (ok: bool)
      requires forall i :: 0 <= i < |items| ==> items[i].prepared.Some?
      modifies this`sessions, this`origins
      ensures var indexed := IndexAll(old(View()), plugin, source, items);
        ok == indexed.Some? && View() == if ok then indexed.value else old(View())
    {
      var savedSessions, savedOrigins := sessions, origins;
      for i := 0 to |items|
        invariant IndexAll(old(View()), plugin, source, items[..i]) == Some(View())
      {
        assert items[..i + 1][..i] == items[..i];
        var p := items[i].prepared.value;
        var inserted := InsertRows(Key(plugin, source, p.external), p);
        if !inserted {
          IndexStaysNone(old(View()), plugin, source, items, i + 1);
          sessions, origins := savedSessions, savedOrigins;
          return false;
        }
      }
      assert items[..|items|] == items;
      ok := true;
    }

    /** `import_batch` in `fail` mode. */
    method ImportAll(plugin: string, source: string, items: seq<Item>, indexes: bool) returns (ok: bool)
      modifies this
      ensures (View(), ok) == ImportFail(old(View()), plugin, source, items, indexes)
    {
      if |items| > MAX_BATCH_SESSIONS {
        return false;
      }
      ok := CheckBatch(plugin, source, items);
      if !ok {
        return;
      }
      AcceptableArePrepared(View(), plugin, source, items, {});
      ok := WriteBatch(items);
      if !ok {
        return;
      }
      ok := indexes;
      if ok {
        ok := IndexBatch(plugin, source, items);
      }
      if !ok {
        RemoveEach(items);
      }
    }

    /** `delete`. */
    method Delete(plugin: string, id: Id, purge: bool, removes: Removal) returns (ok: bool)
      modifies this
      ensures ok <==> Owns(old(View()), plugin, id) && id in old(sessions)
      ensures View() == if purge then Purge(old(View()), plugin, id, removes) else Trash(old(View()), plugin, id)
    {
      ok := Owns(View(), plugin, id) && id in sessions;
      if !ok {
        return;
      }
      if purge {
        sessions := sessions - {id};
        origins := Cascade(origins, id);
        RemoveSessionFiles(id, removes);
      } else {
        sessions := sessions[id := sessions[id].(trashed := true)];
      }
    }
  }

  lemma {:induction false} IndexStaysNone(s: State, plugin: string, source: string, items: seq<Item>, n: nat)
    requires n <= |items| && forall i :: 0 <= i < |items| ==> items[i].prepared.Some?
    requires IndexAll(s, plugin, source, items[..n]).None?
    ensures IndexAll(s, plugin, source, items).None?
  {
    if n < |items| {
      assert items[..|items| - 1][..n] == items[..n];
      IndexStaysNone(s, plugin, source, items[..|items| - 1], n);
    } else {
      assert items[..n] == items;
    }
  }
}
