/** What every run of imports and deletions keeps, whatever fails in between, and what it leaves behind. */
module PluginRuns {

  import opened PluginSessions
  import opened Wrappers

  // ---- The links between rows and files ---------------------------------------------------------

  predicate DistinctRows(origins: seq<Origin>) {
    forall i, j :: 0 <= i < j < |origins| ==> origins[i].key != origins[j].key && origins[i].id != origins[j].id
  }

  ghost predicate HasOrigin(origins: seq<Origin>, id: Id) {
    exists key :: Origin(key, id) in origins
  }

  /** Origin rows and session rows belong to each other, one to one, and no key occurs twice. */
  ghost predicate Paired(s: State) {
    && DistinctRows(s.origins)
    && (forall o :: o in s.origins ==> o.id in s.sessions)
    && (forall id :: id in s.sessions ==> HasOrigin(s.origins, id))
  }

  /** Every session has its transcript, and its index rows say the same. */
  predicate Filed(s: State) {
    forall id :: id in s.sessions ==> id in s.files && s.files[id] == s.sessions[id].indexed
  }

  predicate KnownIds(s: State, used: set<Id>) {
    s.sessions.Keys <= used && s.files.Keys <= used && s.temps <= used
  }

  ghost predicate Inv(s: State, used: set<Id>) {
    Paired(s) && Filed(s) && KnownIds(s, used) && s.temps !! s.sessions.Keys
  }

  /** The transcripts without a session. */
  function Orphans(s: State): set<Id> {
    s.files.Keys - s.sessions.Keys
  }

  // ---- Single steps ---------------------------------------------------------------------------------

  lemma {:induction false} FindMeans(origins: seq<Origin>, key: Key)
    ensures Find(origins, key).None? ==> forall o :: o in origins ==> o.key != key
    ensures Find(origins, key).Some? ==> Origin(key, Find(origins, key).value) in origins
  {
    if origins != [] {
      FindMeans(origins[1..], key);
      assert origins == [origins[0]] + origins[1..];
    }
  }

  lemma IndexedKeeps(s: State, key: Key, id: Id, records: Records)
    requires Paired(s) && Filed(s) && !Clashes(s, key, id) && id in s.files && s.files[id] == records
    ensures Paired(Indexed(s, key, id, records)) && Filed(Indexed(s, key, id, records))
  {
    var t := Indexed(s, key, id, records);
    forall x | x in t.sessions
      ensures HasOrigin(t.origins, x)
    {
      if x == id {
        assert Origin(key, id) in t.origins;
      } else {
        var k :| Origin(k, x) in s.origins;
        assert Origin(k, x) in t.origins;
      }
    }
  }

  lemma {:induction false} CascadeMeans(origins: seq<Origin>, id: Id)
    ensures forall o :: o in Cascade(origins, id) <==> o in origins && o.id != id
  {
    if origins != [] {
      CascadeMeans(origins[1..], id);
      assert origins == [origins[0]] + origins[1..];
    }
  }

  lemma {:induction false} CascadeDistinct(origins: seq<Origin>, id: Id)
    requires DistinctRows(origins)
    ensures DistinctRows(Cascade(origins, id))
  {
    if origins != [] {
      assert forall i :: 0 < i < |origins| ==> origins[i] == origins[1..][i - 1];
      CascadeDistinct(origins[1..], id);
      CascadeMeans(origins[1..], id);
      var rest := Cascade(origins[1..], id);
      forall j | 0 <= j < |rest|
        ensures rest[j].key != origins[0].key && rest[j].id != origins[0].id
      {
        assert rest[j] in origins[1..];
        var k :| 0 <= k < |origins[1..]| && origins[1..][k] == rest[j];
        assert origins[k + 1] == rest[j];
      }
    }
  }

  lemma WithoutSessionKeeps(s: State, id: Id)
    requires Paired(s) && Filed(s)
    ensures Paired(WithoutSession(s, id)) && Filed(WithoutSession(s, id))
  {
    var t := WithoutSession(s, id);
    CascadeDistinct(s.origins, id);
    CascadeMeans(s.origins, id);
    forall x | x in t.sessions
      ensures HasOrigin(t.origins, x)
    {
      var k :| Origin(k, x) in s.origins;
      assert Origin(k, x) in t.origins;
    }
  }

  /** Rows that stay as they were stay paired, and filed if their transcripts stay. */
  lemma SameRows(s: State, t: State)
    requires Paired(s) && Filed(s) && t.sessions == s.sessions && t.origins == s.origins
    requires forall id :: id in s.sessions ==> id in t.files && t.files[id] == s.files[id]
    ensures Paired(t) && Filed(t)
  {
  }

  lemma InvGrows(s: State, used: set<Id>, all: set<Id>)
    requires Inv(s, used) && used <= all
    ensures Inv(s, all)
  {
  }

  // ---- One import -----------------------------------------------------------------------------------------

  /** An import that gets as far as writing a transcript. */
  predicate Tried(s: State, plugin: string, source: string, item: Item) {
    item.prepared.Some? && Find(s.origins, Key(plugin, source, item.prepared.value.external)).None?
  }

  /** A single import leaves a temporary file when writing breaks off with one: it does not clean up then. */
  function TempsOfOne(s: State, plugin: string, source: string, item: Item): set<Id> {
    if Tried(s, plugin, source, item) && !item.faults.writes && item.faults.leavesTemp
    then {item.prepared.value.id} else {}
  }

  /** It leaves a transcript when it cannot index it and then cannot remove it. */
  function FilesOfOne(s: State, plugin: string, source: string, item: Item): set<Id> {
    if Tried(s, plugin, source, item) && item.faults.writes && !item.faults.indexes && !item.faults.removes.file
    then {item.prepared.value.id} else {}
  }

  /** A new key and a new identifier clash with no row. */
  lemma NewRowFits(s: State, used: set<Id>, key: Key, id: Id)
    requires Paired(s) && KnownIds(s, used) && Find(s.origins, key).None? && id !in used
    ensures !Clashes(s, key, id)
  {
    FindMeans(s.origins, key);
    forall i | 0 <= i < |s.origins|
      ensures s.origins[i].key != key && s.origins[i].id != id
    {
      assert s.origins[i] in s.origins;
    }
  }

  lemma OneLeaves(s: State, used: set<Id>, plugin: string, source: string, item: Item, all: set<Id>)
    requires Inv(s, used) && used <= all
    requires item.prepared.Some? ==> item.prepared.value.id !in used && item.prepared.value.id in all
    ensures var t := ImportOne(s, plugin, source, item).0;
      && Inv(t, all) && t.temps == s.temps + TempsOfOne(s, plugin, source, item)
      && Orphans(t) == Orphans(s) + FilesOfOne(s, plugin, source, item)
  {
    if Tried(s, plugin, source, item) {
      var p := item.prepared.value;
      TriedLeaves(s, used, Key(plugin, source, p.external), p, item.faults, all);
    }
  }

  lemma TriedLeaves(s: State, used: set<Id>, key: Key, p: Prepared, f: Faults, all: set<Id>)
    requires Inv(s, used) && used <= all && p.id !in used && p.id in all && Find(s.origins, key).None?
    ensures var t := WriteAndIndex(s, key, p, f).0;
      && Inv(t, all)
      && t.temps == s.temps + (if !f.writes && f.leavesTemp then {p.id} else {})
      && Orphans(t) == Orphans(s) + if f.writes && !f.indexes && !f.removes.file then {p.id} else {}
  {
    var written := Write(s, p.id, p.records, f.writes, f.leavesTemp);
    if !f.writes {
      SameRows(s, written);
    } else if f.indexes {
      IndexedLeaves(s, used, key, p, written, all);
    } else {
      SameRows(s, written);
      SameRows(s, Remove(written, p.id, f.removes));
    }
  }

  lemma IndexedLeaves(s: State, used: set<Id>, key: Key, p: Prepared, written: State, all: set<Id>)
    requires Inv(s, used) && used <= all && p.id !in used && p.id in all && Find(s.origins, key).None?
    requires written == s.(files := s.files[p.id := p.records], temps := s.temps - {p.id})
    ensures !Clashes(written, key, p.id)
    ensures var t := Indexed(written, key, p.id, p.records);
      Inv(t, all) && t.temps == s.temps && Orphans(t) == Orphans(s)
  {
    SameRows(s, written);
    NewRowFits(s, used, key, p.id);
    IndexedKeeps(written, key, p.id, p.records);
  }

  // ---- Batches --------------------------------------------------------------------------------------------

  /** The items' identifiers differ from each other and from the used ones, and are among `all`. */
  predicate FreshItems(items: seq<Item>, used: set<Id>, all: set<Id>) {
    && used <= all
    && (forall i :: 0 <= i < |items| && items[i].prepared.Some? ==>
          items[i].prepared.value.id !in used && items[i].prepared.value.id in all)
    && (forall i, j :: 0 <= i < j < |items| && items[i].prepared.Some? && items[j].prepared.Some? ==>
          items[i].prepared.value.id != items[j].prepared.value.id)
  }

  function NewIds(items: seq<Item>): set<Id> {
    set i | 0 <= i < |items| && items[i].prepared.Some? :: items[i].prepared.value.id
  }

  lemma FreshPrefix(items: seq<Item>, used: set<Id>, all: set<Id>, n: nat)
    requires FreshItems(items, used, all) && n + 1 == |items|
    ensures FreshItems(items[..n], used, used + NewIds(items[..n]))
    ensures used + NewIds(items[..n]) <= all
    ensures items[n].prepared.Some? ==> items[n].prepared.value.id !in used + NewIds(items[..n])
  {
    var front := items[..n];
    assert forall i :: 0 <= i < n ==> front[i] == items[i];
  }

  function TempsOfEach(s: State, plugin: string, source: string, items: seq<Item>): set<Id> {
    if items == [] then {}
    else
      var n := |items| - 1;
      TempsOfEach(s, plugin, source, items[..n])
      + TempsOfOne(ImportEach(s, plugin, source, items[..n]).0, plugin, source, items[n])
  }

  function FilesOfEach(s: State, plugin: string, source: string, items: seq<Item>): set<Id> {
    if items == [] then {}
    else
      var n := |items| - 1;
      FilesOfEach(s, plugin, source, items[..n])
      + FilesOfOne(ImportEach(s, plugin, source, items[..n]).0, plugin, source, items[n])
  }

  lemma {:induction false} EachLeaves(
    s: State, used: set<Id>, plugin: string, source: string, items: seq<Item>, all: set<Id>)
    requires Inv(s, used) && FreshItems(items, used, all)
    ensures var t := ImportEach(s, plugin, source, items).0;
      && Inv(t, all) && t.temps == s.temps + TempsOfEach(s, plugin, source, items)
      && Orphans(t) == Orphans(s) + FilesOfEach(s, plugin, source, items)
    decreases |items|
  {
    if items != [] {
      var n := |items| - 1;
      var mid := used + NewIds(items[..n]);
      FreshPrefix(items, used, all, n);
      EachLeaves(s, used, plugin, source, items[..n], mid);
      OneLeaves(ImportEach(s, plugin, source, items[..n]).0, mid, plugin, source, items[n], all);
    }
  }

  predicate AllPrepared(items: seq<Item>) {
    forall i :: 0 <= i < |items| ==> items[i].prepared.Some?
  }

  predicate AllWrite(items: seq<Item>) {
    forall i :: 0 <= i < |items| ==> items[i].faults.writes
  }

  /** The identifiers of the items whose faults are such. */
  function IdsWhere(p: Faults -> bool, items: seq<Item>): set<Id>
    requires AllPrepared(items)
  {
    if items == [] then {}
    else
      var n := |items| - 1;
      IdsWhere(p, items[..n]) + (if p(items[n].faults) then {items[n].prepared.value.id} else {})
  }

  predicate Wrote(f: Faults) { f.writes }
  predicate Tore(f: Faults) { !f.writes && f.leavesTemp }
  predicate FileGoes(f: Faults) { f.removes.file }
  predicate TempGoes(f: Faults) { f.removes.temp }

  /** Written, and not removed again. */
  predicate FileStays(f: Faults) { Wrote(f) && !FileGoes(f) }
  predicate TempStays(f: Faults) { Tore(f) && !TempGoes(f) }

  lemma {:induction false} IdsMean(p: Faults -> bool, items: seq<Item>, id: Id)
    requires AllPrepared(items)
    ensures id in IdsWhere(p, items) <==>
      exists i :: 0 <= i < |items| && p(items[i].faults) && items[i].prepared.value.id == id
    decreases |items|
  {
    if items != [] {
      var n := |items| - 1;
      IdsMean(p, items[..n], id);
      if i :| 0 <= i < |items| && p(items[i].faults) && items[i].prepared.value.id == id {
        assert i < n ==> items[..n][i] == items[i];
      }
      if i :| 0 <= i < n && p(items[..n][i].faults) && items[..n][i].prepared.value.id == id {
        assert items[i] == items[..n][i];
      }
    }
  }

  /** Identifiers that are all different: one item, one fate. */
  lemma IdsSplit(
    p: Faults -> bool, q: Faults -> bool, both: Faults -> bool, items: seq<Item>, used: set<Id>, all: set<Id>)
    requires AllPrepared(items) && FreshItems(items, used, all)
    requires forall f :: both(f) <==> p(f) && !q(f)
    ensures IdsWhere(p, items) - IdsWhere(q, items) == IdsWhere(both, items)
    ensures IdsWhere(p, items) !! used && IdsWhere(p, items) <= all
  {
    forall id
      ensures id in IdsWhere(p, items) && id !in IdsWhere(q, items) <==> id in IdsWhere(both, items)
      ensures id in IdsWhere(p, items) ==> id !in used && id in all
    {
      IdsMean(p, items, id);
      IdsMean(q, items, id);
      IdsMean(both, items, id);
    }
  }

  lemma {:induction false} AllWritten(s: State, used: set<Id>, items: seq<Item>, all: set<Id>)
    requires KnownIds(s, used) && FreshItems(items, used, all) && AllPrepared(items)
    ensures var w := WriteAll(s, items);
      && w.sessions == s.sessions && w.origins == s.origins
      && w.files.Keys == s.files.Keys + IdsWhere(Wrote, items)
      && (forall id :: id in s.files ==> w.files[id] == s.files[id])
      && w.temps == s.temps + IdsWhere(Tore, items)
      && w.files.Keys <= all && w.temps <= all
    decreases |items|
  {
    if items != [] {
      var n := |items| - 1;
      var front := items[..n];
      FreshPrefix(items, used, all, n);
      AllWritten(s, used, front, used + NewIds(front));
    }
  }

  lemma {:induction false} AllRemoved(s: State, items: seq<Item>)
    requires AllPrepared(items)
    ensures var r := RemoveAll(s, items);
      && r.sessions == s.sessions && r.origins == s.origins
      && r.files.Keys == s.files.Keys - IdsWhere(FileGoes, items)
      && (forall id :: id in r.files ==> r.files[id] == s.files[id])
      && r.temps == s.temps - IdsWhere(TempGoes, items)
    decreases |items|
  {
    if items != [] {
      AllRemoved(s, items[..|items| - 1]);
    }
  }

  /** Writing transcripts and removing them again leaves exactly what could not be removed. */
  lemma UndoneLeaves(s: State, used: set<Id>, items: seq<Item>, all: set<Id>)
    requires Inv(s, used) && FreshItems(items, used, all) && AllPrepared(items)
    ensures var r := RemoveAll(WriteAll(s, items), items);
      && Inv(r, all) && r.sessions == s.sessions && r.origins == s.origins
      && r.temps == s.temps + IdsWhere(TempStays, items)
      && r.files.Keys == s.files.Keys + IdsWhere(FileStays, items)
      && (forall id :: id in s.files ==> r.files[id] == s.files[id])
      && Orphans(r) == Orphans(s) + IdsWhere(FileStays, items)
  {
    var w := WriteAll(s, items);
    var r := RemoveAll(w, items);
    AllWritten(s, used, items, all);
    AllRemoved(w, items);
    IdsSplit(Wrote, FileGoes, FileStays, items, used, all);
    IdsSplit(Tore, TempGoes, TempStays, items, used, all);
    IdsApart(FileGoes, items, used, all);
    IdsApart(TempGoes, items, used, all);
    IdsApart(FileStays, items, used, all);
    IdsApart(TempStays, items, used, all);
    SameRows(s, r);
  }

  lemma IdsApart(p: Faults -> bool, items: seq<Item>, used: set<Id>, all: set<Id>)
    requires AllPrepared(items) && FreshItems(items, used, all)
    ensures IdsWhere(p, items) !! used && IdsWhere(p, items) <= all
  {
    forall id | id in IdsWhere(p, items)
      ensures id !in used && id in all
    {
      IdsMean(p, items, id);
    }
  }

  /** Every transcript of the batch is in its file. */
  predicate BatchFiled(files: map<Id, Records>, items: seq<Item>)
    requires AllPrepared(items)
  {
    forall i :: 0 <= i < |items| ==>
      items[i].prepared.value.id in files && files[items[i].prepared.value.id] == items[i].prepared.value.records
  }

  lemma {:induction false} WriteAllFiles(s: State, used: set<Id>, items: seq<Item>, all: set<Id>)
    requires FreshItems(items, used, all) && AllPrepared(items) && AllWrite(items)
    ensures BatchFiled(WriteAll(s, items).files, items)
    decreases |items|
  {
    if items != [] {
      var n := |items| - 1;
      FreshPrefix(items, used, all, n);
      assert forall i :: 0 <= i < n ==> items[..n][i] == items[i];
      WriteAllFiles(s, used, items[..n], used + NewIds(items[..n]));
    }
  }

  /** Items that all write leave no temporary file, and their identifiers are those of the written ones. */
  lemma {:induction false} WritingIds(items: seq<Item>)
    requires AllPrepared(items) && AllWrite(items)
    ensures IdsWhere(Wrote, items) == NewIds(items) && IdsWhere(Tore, items) == {}
    decreases |items|
  {
    if items != [] {
      var n := |items| - 1;
      assert forall i :: 0 <= i < n ==> items[..n][i] == items[i];
      WritingIds(items[..n]);
      NextIds(items, n);
    }
  }

  lemma {:induction false} IndexAllKeeps(s: State, plugin: string, source: string, items: seq<Item>, r: State)
    requires AllPrepared(items) && Paired(s) && Filed(s) && BatchFiled(s.files, items)
    requires IndexAll(s, plugin, source, items) == Some(r)
    ensures Paired(r) && Filed(r) && r.files == s.files
    decreases |items|
  {
    if items != [] {
      var n := |items| - 1;
      var p := items[n].prepared.value;
      assert forall i :: 0 <= i < n ==> items[..n][i] == items[i];
      var before := IndexAll(s, plugin, source, items[..n]).value;
      IndexAllKeeps(s, plugin, source, items[..n], before);
      IndexedKeeps(before, Key(plugin, source, p.external), p.id, p.records);
    }
  }

  lemma {:induction false} IndexAllAdds(s: State, plugin: string, source: string, items: seq<Item>)
    requires AllPrepared(items)
    ensures var r := IndexAll(s, plugin, source, items);
      r.Some? ==> r.value.sessions.Keys == s.sessions.Keys + NewIds(items)
    decreases |items|
  {
    if items != [] {
      var n := |items| - 1;
      assert forall i :: 0 <= i < n ==> items[..n][i] == items[i];
      IndexAllAdds(s, plugin, source, items[..n]);
      NextIds(items, n);
    }
  }

  lemma NextIds(items: seq<Item>, n: nat)
    requires n + 1 == |items| && AllPrepared(items)
    ensures NewIds(items) == NewIds(items[..n]) + {items[n].prepared.value.id}
  {
    assert forall i :: 0 <= i < n ==> items[..n][i] == items[i];
  }

  /** Every item of the batch has its origin row. */
  predicate BatchNamed(origins: seq<Origin>, plugin: string, source: string, items: seq<Item>)
    requires AllPrepared(items)
  {
    forall i :: 0 <= i < |items| ==>
      Origin(Key(plugin, source, items[i].prepared.value.external), items[i].prepared.value.id) in origins
  }

  lemma {:induction false} IndexAllNames(s: State, plugin: string, source: string, items: seq<Item>)
    requires AllPrepared(items)
    ensures var r := IndexAll(s, plugin, source, items); r.Some? ==> BatchNamed(r.value.origins, plugin, source, items)
    decreases |items|
  {
    if items != [] {
      var n := |items| - 1;
      assert forall i :: 0 <= i < n ==> items[..n][i] == items[i];
      IndexAllNames(s, plugin, source, items[..n]);
    }
  }

  /** The origin row of one of the items. */
  predicate InBatch(o: Origin, plugin: string, source: string, items: seq<Item>)
    requires AllPrepared(items)
  {
    exists i :: 0 <= i < |items| && o.id == items[i].prepared.value.id
      && o.key == Key(plugin, source, items[i].prepared.value.external)
  }

  /** The rows of a batch: those there were, and those of its items. */
  lemma {:induction false} IndexAllRows(s: State, plugin: string, source: string, items: seq<Item>)
    requires AllPrepared(items)
    ensures var r := IndexAll(s, plugin, source, items);
      r.Some? ==> forall o :: o in r.value.origins ==> o in s.origins || InBatch(o, plugin, source, items)
    decreases |items|
  {
    if items != [] {
      var n := |items| - 1;
      assert forall i :: 0 <= i < n ==> items[..n][i] == items[i];
      IndexAllRows(s, plugin, source, items[..n]);
    }
  }

  /** No item of the batch repeats another one's external identifier, and none is known already. */
  predicate NewKeys(s: State, plugin: string, source: string, items: seq<Item>)
    requires AllPrepared(items)
  {
    && (forall i :: 0 <= i < |items| ==> Find(s.origins, Key(plugin, source, items[i].prepared.value.external)).None?)
    && (forall i, j :: 0 <= i < j < |items| ==>
          items[i].prepared.value.external != items[j].prepared.value.external)
  }

  lemma {:induction false} AcceptableMeans(
    s: State, plugin: string, source: string, items: seq<Item>, seen: set<string>)
    requires Acceptable(s, plugin, source, items, seen)
    ensures AllPrepared(items) && NewKeys(s, plugin, source, items)
    ensures forall i :: 0 <= i < |items| ==> items[i].prepared.value.external !in seen
  {
    if items != [] {
      AcceptableMeans(s, plugin, source, items[1..], seen + {items[0].prepared.value.external});
      assert forall i :: 0 < i < |items| ==> items[i] == items[1..][i - 1];
    }
  }

  lemma NewKeysFront(s: State, plugin: string, source: string, items: seq<Item>, n: nat)
    requires AllPrepared(items) && NewKeys(s, plugin, source, items) && n <= |items|
    ensures AllPrepared(items[..n]) && NewKeys(s, plugin, source, items[..n])
  {
    assert forall i :: 0 <= i < n ==> items[..n][i] == items[i];
  }

  /** A batch of new keys under new identifiers clashes with nothing. */
  lemma {:induction false} IndexAllFits(
    s: State, used: set<Id>, plugin: string, source: string, items: seq<Item>, all: set<Id>)
    requires Paired(s) && s.sessions.Keys <= used && FreshItems(items, used, all) && AllPrepared(items)
    requires NewKeys(s, plugin, source, items)
    ensures IndexAll(s, plugin, source, items).Some?
    decreases |items|
  {
    if items != [] {
      var n := |items| - 1;
      var front := items[..n];
      FreshPrefix(items, used, all, n);
      NewKeysFront(s, plugin, source, items, n);
      IndexAllFits(s, used, plugin, source, front, used + NewIds(front));
      IndexAllRows(s, plugin, source, front);
      IndexAllAdds(s, plugin, source, front);
      NoClash(s, IndexAll(s, plugin, source, front).value, used, plugin, source, items, n);
    }
  }

  lemma NoClash(s: State, t: State, used: set<Id>, plugin: string, source: string, items: seq<Item>, n: nat)
    requires Paired(s) && s.sessions.Keys <= used && n < |items| && AllPrepared(items)
    requires NewKeys(s, plugin, source, items)
    requires items[n].prepared.value.id !in used + NewIds(items[..n])
    requires t.sessions.Keys == s.sessions.Keys + NewIds(items[..n])
    requires forall o :: o in t.origins ==> o in s.origins || InBatch(o, plugin, source, items[..n])
    ensures !Clashes(t, Key(plugin, source, items[n].prepared.value.external), items[n].prepared.value.id)
  {
    var p := items[n].prepared.value;
    var key := Key(plugin, source, p.external);
    FindMeans(s.origins, key);
    forall j | 0 <= j < |t.origins|
      ensures t.origins[j].key != key && t.origins[j].id != p.id
    {
      var o := t.origins[j];
      assert o in t.origins;
      if o !in s.origins {
        var i :| 0 <= i < n && o.id == items[..n][i].prepared.value.id
          && o.key == Key(plugin, source, items[..n][i].prepared.value.external);
        assert items[..n][i] == items[i];
        assert o.id in NewIds(items[..n]);
      }
    }
  }

  lemma FreshFront(items: seq<Item>, used: set<Id>, all: set<Id>, n: nat)
    requires FreshItems(items, used, all) && n <= |items|
    ensures FreshItems(items[..n], used, all)
  {
    assert forall i :: 0 <= i < n ==> items[..n][i] == items[i];
  }

  /** A batch that passes its checks: at most a hundred items, each accepted by itself, with external
      identifiers that differ from each other and belong to no session of the plugin's source yet. */
  predicate Accepted(s: State, plugin: string, source: string, items: seq<Item>) {
    && |items| <= 100 && AllPrepared(items)
    && (forall i, j :: 0 <= i < j < |items| ==>
          items[i].prepared.value.external != items[j].prepared.value.external)
    && (forall i, o :: 0 <= i < |items| && o in s.origins ==>
          o.key != Key(plugin, source, items[i].prepared.value.external))
  }

  lemma KeyIsNew(s: State, key: Key)
    ensures Find(s.origins, key).None? <==> forall o :: o in s.origins ==> o.key != key
  {
    FindMeans(s.origins, key);
  }

  lemma {:induction false} NewKeysPass(s: State, plugin: string, source: string, items: seq<Item>, seen: set<string>)
    requires AllPrepared(items) && NewKeys(s, plugin, source, items)
    requires forall i :: 0 <= i < |items| ==> items[i].prepared.value.external !in seen
    ensures Acceptable(s, plugin, source, items, seen)
  {
    if items != [] {
      assert forall i :: 0 < i < |items| ==> items[i] == items[1..][i - 1];
      assert forall i :: 0 <= i < |items[1..]| ==> items[1..][i] == items[i + 1];
      NewKeysPass(s, plugin, source, items[1..], seen + {items[0].prepared.value.external});
    }
  }

  lemma AcceptedMeans(s: State, plugin: string, source: string, items: seq<Item>)
    ensures Accepted(s, plugin, source, items) <==>
      |items| <= MAX_BATCH_SESSIONS && Acceptable(s, plugin, source, items, {})
  {
    forall i | 0 <= i < |items| && items[i].prepared.Some?
      ensures var key := Key(plugin, source, items[i].prepared.value.external);
        Find(s.origins, key).None? <==> forall o :: o in s.origins ==> o.key != key
    {
      KeyIsNew(s, Key(plugin, source, items[i].prepared.value.external));
    }
    if Acceptable(s, plugin, source, items, {}) {
      AcceptableMeans(s, plugin, source, items, {});
    } else if Accepted(s, plugin, source, items) {
      NewKeysPass(s, plugin, source, items, {});
    }
  }

  /** The items whose transcripts a batch tries to write: up to the first one that fails. */
  function Attempted(items: seq<Item>): seq<Item> {
    if WrittenCount(items) < |items| then items[..WrittenCount(items) + 1] else items
  }

  lemma AttemptedIsFresh(s: State, plugin: string, source: string, items: seq<Item>, used: set<Id>, all: set<Id>)
    requires Acceptable(s, plugin, source, items, {}) && FreshItems(items, used, all)
    ensures AllPrepared(items) && AllPrepared(Attempted(items)) && FreshItems(Attempted(items), used, all)
  {
    AcceptableMeans(s, plugin, source, items, {});
    if WrittenCount(items) < |items| {
      FreshFront(items, used, all, WrittenCount(items) + 1);
    }
  }

  /** A batch that fails after its checks leaves what it wrote and then could not remove. */
  function TempsOfFailed(s: State, plugin: string, source: string, items: seq<Item>, indexes: bool): set<Id> {
    if !Accepted(s, plugin, source, items) || (AllWrite(items) && indexes) || !AllPrepared(Attempted(items)) then {}
    else IdsWhere(TempStays, Attempted(items))
  }

  function FilesOfFailed(s: State, plugin: string, source: string, items: seq<Item>, indexes: bool): set<Id> {
    if !Accepted(s, plugin, source, items) || (AllWrite(items) && indexes) || !AllPrepared(Attempted(items)) then {}
    else IdsWhere(FileStays, Attempted(items))
  }

  /** Every session of the batch is there, with row, origin and transcript, and nothing else is new. */
  ghost predicate BatchIsThere(s: State, t: State, plugin: string, source: string, items: seq<Item>) {
    && AllPrepared(items) && BatchFiled(t.files, items) && BatchNamed(t.origins, plugin, source, items)
    && t.sessions.Keys == s.sessions.Keys + NewIds(items)
    && t.temps == s.temps && Orphans(t) == Orphans(s)
  }

  /** What a batch in `fail` mode does: it imports everything, or leaves only what it could not remove. */
  ghost predicate AllOrNothing(
    s: State, t: State, ok: bool, plugin: string, source: string, items: seq<Item>, indexes: bool)
  {
    && (ok <==> Accepted(s, plugin, source, items) && AllWrite(items) && indexes)
    && (ok ==> BatchIsThere(s, t, plugin, source, items))
    && (!ok ==>
          && t.sessions == s.sessions && t.origins == s.origins
          && t.files.Keys == s.files.Keys + FilesOfFailed(s, plugin, source, items, indexes)
          && (forall id :: id in s.files ==> t.files[id] == s.files[id])
          && t.temps == s.temps + TempsOfFailed(s, plugin, source, items, indexes)
          && Orphans(t) == Orphans(s) + FilesOfFailed(s, plugin, source, items, indexes))
  }

  lemma WholeBatch(
    s: State, used: set<Id>, plugin: string, source: string, items: seq<Item>, all: set<Id>, t: State)
    requires Inv(s, used) && FreshItems(items, used, all) && AllPrepared(items) && AllWrite(items)
    requires IndexAll(WriteAll(s, items), plugin, source, items) == Some(t)
    ensures Inv(t, all) && BatchIsThere(s, t, plugin, source, items)
  {
    var w := WriteAll(s, items);
    AllWritten(s, used, items, all);
    WriteAllFiles(s, used, items, all);
    WritingIds(items);
    SameRows(s, w);
    IndexAllKeeps(w, plugin, source, items, t);
    IndexAllAdds(w, plugin, source, items);
    IndexAllNames(w, plugin, source, items);
    IndexAllTemps(w, plugin, source, items);
    IdsApart(Wrote, items, used, all);
  }

  lemma {:induction false} IndexAllTemps(s: State, plugin: string, source: string, items: seq<Item>)
    requires AllPrepared(items)
    ensures var r := IndexAll(s, plugin, source, items); r.Some? ==> r.value.temps == s.temps
    decreases |items|
  {
    if items != [] {
      IndexAllTemps(s, plugin, source, items[..|items| - 1]);
    }
  }

  lemma {:induction false} NotAllWrite(items: seq<Item>)
    ensures WrittenCount(items) == |items| <==> AllWrite(items)
  {
    if items != [] {
      NotAllWrite(items[1..]);
      assert forall i :: 0 < i < |items| ==> items[i] == items[1..][i - 1];
    }
  }

  lemma FailedBatch(
    s: State, used: set<Id>, plugin: string, source: string, items: seq<Item>, all: set<Id>, indexes: bool)
    requires Inv(s, used) && FreshItems(items, used, all) && Accepted(s, plugin, source, items)
    requires !(AllWrite(items) && indexes) && AllPrepared(Attempted(items))
    requires Acceptable(s, plugin, source, items, {})
    ensures var t := RemoveAll(WriteAll(s, Attempted(items)), Attempted(items));
      Inv(t, all) && AllOrNothing(s, t, false, plugin, source, items, indexes)
  {
    AttemptedIsFresh(s, plugin, source, items, used, all);
    UndoneLeaves(s, used, Attempted(items), all);
  }

  /**
   Main result: a batch in `fail` mode succeeds exactly when it passes its checks, all its
   transcripts can be written and its transaction commits. Then every one of its sessions is there,
   with origin and transcript. Otherwise no row has changed, and the only new files are those that
   it wrote and then could not remove.
   */
  lemma BatchIsAllOrNothing(
    s: State, used: set<Id>, plugin: string, source: string, items: seq<Item>, all: set<Id>, indexes: bool)
    requires Inv(s, used) && FreshItems(items, used, all)
    ensures var r := ImportFail(s, plugin, source, items, indexes);
      Inv(r.0, all) && AllOrNothing(s, r.0, r.1, plugin, source, items, indexes)
  {
    AcceptedMeans(s, plugin, source, items);
    if Accepted(s, plugin, source, items) {
      AttemptedIsFresh(s, plugin, source, items, used, all);
      NotAllWrite(items);
      if !(AllWrite(items) && indexes) {
        FailedBatch(s, used, plugin, source, items, all, indexes);
      } else {
        WrittenFits(s, used, plugin, source, items, all);
        WholeBatch(s, used, plugin, source, items, all, IndexAll(WriteAll(s, items), plugin, source, items).value);
      }
    } else {
      InvGrows(s, used, all);
    }
  }

  lemma WrittenFits(s: State, used: set<Id>, plugin: string, source: string, items: seq<Item>, all: set<Id>)
    requires Inv(s, used) && FreshItems(items, used, all) && AllPrepared(items)
    requires Acceptable(s, plugin, source, items, {})
    ensures IndexAll(WriteAll(s, items), plugin, source, items).Some?
  {
    AcceptableMeans(s, plugin, source, items, {});
    AllWritten(s, used, items, all);
    SameRows(s, WriteAll(s, items));
    IndexAllFits(WriteAll(s, items), used, plugin, source, items, all);
  }

  /** Every removal that a batch may ask for works. */
  predicate Removes(items: seq<Item>) {
    forall i :: 0 <= i < |items| ==> items[i].faults.removes == Removal(true, true)
  }

  lemma {:induction false} NothingStays(items: seq<Item>)
    requires AllPrepared(items) && Removes(items)
    ensures IdsWhere(TempStays, items) == {} && IdsWhere(FileStays, items) == {}
    decreases |items|
  {
    if items != [] {
      var n := |items| - 1;
      assert forall i :: 0 <= i < n ==> items[..n][i] == items[i];
      NothingStays(items[..n]);
    }
  }

  /** A failed batch whose removals work leaves rows, transcripts and temporary files as they were. */
  lemma FailedBatchLeavesNothing(
    s: State, used: set<Id>, plugin: string, source: string, items: seq<Item>, all: set<Id>, indexes: bool)
    requires Inv(s, used) && FreshItems(items, used, all) && Removes(items)
    requires !ImportFail(s, plugin, source, items, indexes).1
    ensures ImportFail(s, plugin, source, items, indexes).0 == s
  {
    BatchIsAllOrNothing(s, used, plugin, source, items, all, indexes);
    var t := ImportFail(s, plugin, source, items, indexes).0;
    if Accepted(s, plugin, source, items) {
      AcceptedMeans(s, plugin, source, items);
      AttemptedIsFresh(s, plugin, source, items, used, all);
      NothingStays(Attempted(items));
    }
    assert t.files == s.files;
  }

  // ---- Whole runs ------------------------------------------------------------------------------------------------

  datatype Event =
    | One(plugin: string, source: string, item: Item)
    | Skip(plugin: string, source: string, items: seq<Item>)
    | All(plugin: string, source: string, items: seq<Item>, indexes: bool)
    | ToTrash(plugin: string, id: Id)
    | Purged(plugin: string, id: Id, removes: Removal)

  function Step(s: State, e: Event): State {
    match e
    case One(plugin, source, item) => ImportOne(s, plugin, source, item).0
    case Skip(plugin, source, items) => ImportSkip(s, plugin, source, items).0
    case All(plugin, source, items, indexes) => ImportFail(s, plugin, source, items, indexes).0
    case ToTrash(plugin, id) => Trash(s, plugin, id)
    case Purged(plugin, id, removes) => Purge(s, plugin, id, removes)
  }

  function Items(e: Event): seq<Item> {
    match e
    case One(_, _, item) => [item]
    case Skip(_, _, items) => items
    case All(_, _, items, _) => items
    case _ => []
  }

  /** The temporary files that an event leaves: of writes that broke off, if they are not removed. */
  function TempsLeft(s: State, e: Event): set<Id> {
    match e
    case One(plugin, source, item) => TempsOfOne(s, plugin, source, item)
    case Skip(plugin, source, items) =>
      if |items| > MAX_BATCH_SESSIONS then {} else TempsOfEach(s, plugin, source, items)
    case All(plugin, source, items, indexes) => TempsOfFailed(s, plugin, source, items, indexes)
    case _ => {}
  }

  /** The transcripts that an event leaves without a session: those whose requested removal failed. */
  function FilesLeft(s: State, e: Event): set<Id> {
    match e
    case One(plugin, source, item) => FilesOfOne(s, plugin, source, item)
    case Skip(plugin, source, items) =>
      if |items| > MAX_BATCH_SESSIONS then {} else FilesOfEach(s, plugin, source, items)
    case All(plugin, source, items, indexes) => FilesOfFailed(s, plugin, source, items, indexes)
    case ToTrash(_, _) => {}
    case Purged(plugin, id, removes) =>
      if Owns(s, plugin, id) && id in s.sessions && !removes.file then {id} else {}
  }

  lemma PurgeLeaves(s: State, used: set<Id>, plugin: string, id: Id, removes: Removal)
    requires Inv(s, used)
    ensures var t := Purge(s, plugin, id, removes);
      && Inv(t, used) && t.temps == s.temps
      && Orphans(t) == Orphans(s) + FilesLeft(s, Purged(plugin, id, removes))
  {
    if Owns(s, plugin, id) && id in s.sessions {
      WithoutSessionKeeps(s, id);
      SameRows(WithoutSession(s, id), Remove(WithoutSession(s, id), id, removes));
    }
  }

  lemma TrashKeeps(s: State, used: set<Id>, plugin: string, id: Id)
    requires Inv(s, used)
    ensures Inv(Trash(s, plugin, id), used)
    ensures Trash(s, plugin, id).temps == s.temps && Orphans(Trash(s, plugin, id)) == Orphans(s)
  {
    var t := Trash(s, plugin, id);
    assert t.sessions.Keys == s.sessions.Keys;
  }

  lemma SkipLeaves(s: State, used: set<Id>, e: Event, all: set<Id>)
    requires e.Skip? && Inv(s, used) && FreshItems(e.items, used, all)
    ensures var t := Step(s, e);
      Inv(t, all) && t.temps == s.temps + TempsLeft(s, e) && Orphans(t) == Orphans(s) + FilesLeft(s, e)
  {
    InvGrows(s, used, all);
    EachLeaves(s, used, e.plugin, e.source, e.items, all);
  }

  lemma AllLeaves(s: State, used: set<Id>, e: Event, all: set<Id>)
    requires e.All? && Inv(s, used) && FreshItems(e.items, used, all)
    ensures var t := Step(s, e);
      Inv(t, all) && t.temps == s.temps + TempsLeft(s, e) && Orphans(t) == Orphans(s) + FilesLeft(s, e)
  {
    BatchIsAllOrNothing(s, used, e.plugin, e.source, e.items, all, e.indexes);
  }

  lemma StepLeaves(s: State, used: set<Id>, e: Event, all: set<Id>)
    requires Inv(s, used) && FreshItems(Items(e), used, all)
    ensures var t := Step(s, e);
      Inv(t, all) && t.temps == s.temps + TempsLeft(s, e) && Orphans(t) == Orphans(s) + FilesLeft(s, e)
  {
    match e
    case One(plugin, source, item) =>
      assert Items(e)[0] == item;
      OneLeaves(s, used, plugin, source, item, all);
    case Skip(_, _, _) => SkipLeaves(s, used, e, all);
    case All(_, _, _, _) => AllLeaves(s, used, e, all);
    case ToTrash(plugin, id) =>
      TrashKeeps(s, used, plugin, id);
      InvGrows(Trash(s, plugin, id), used, all);
    case Purged(plugin, id, removes) =>
      PurgeLeaves(s, used, plugin, id, removes);
      InvGrows(Purge(s, plugin, id, removes), used, all);
  }

  const EMPTY := State(map[], [], map[], {})

  /** The state after the first `n` events. */
  function After(s: State, events: seq<Event>, n: nat): State
    requires n <= |events|
  {
    if n == 0 then s else Step(After(s, events, n - 1), events[n - 1])
  }

  /** The identifiers made for the first `n` events. */
  function Used(events: seq<Event>, n: nat): set<Id>
    requires n <= |events|
  {
    if n == 0 then {} else Used(events, n - 1) + NewIds(Items(events[n - 1]))
  }

  /** No identifier is made twice. */
  predicate FreshIds(events: seq<Event>, n: nat)
    requires n <= |events|
  {
    n == 0 || (FreshIds(events, n - 1) && FreshItems(Items(events[n - 1]), Used(events, n - 1), Used(events, n)))
  }

  /** Everything that the first `n` events of a run from the empty state left. */
  function AllTempsLeft(events: seq<Event>, n: nat): set<Id>
    requires n <= |events|
  {
    if n == 0 then {} else AllTempsLeft(events, n - 1) + TempsLeft(After(EMPTY, events, n - 1), events[n - 1])
  }

  function AllFilesLeft(events: seq<Event>, n: nat): set<Id>
    requires n <= |events|
  {
    if n == 0 then {} else AllFilesLeft(events, n - 1) + FilesLeft(After(EMPTY, events, n - 1), events[n - 1])
  }

  lemma {:induction false} RunLeaves(events: seq<Event>, n: nat)
    requires n <= |events| && FreshIds(events, n)
    ensures var s := After(EMPTY, events, n);
      Inv(s, Used(events, n)) && s.temps == AllTempsLeft(events, n) && Orphans(s) == AllFilesLeft(events, n)
  {
    if n > 0 {
      RunLeaves(events, n - 1);
      StepLeaves(After(EMPTY, events, n - 1), Used(events, n - 1), events[n - 1], Used(events, n));
    }
  }

  /**
   Main result: whatever is imported, trashed and purged and whatever fails, sessions and origins
   stay paired, and every session has the transcript that its index rows were made from.
   */
  lemma RowsAndFilesStayInStep(events: seq<Event>)
    requires FreshIds(events, |events|)
    ensures var s := After(EMPTY, events, |events|); Paired(s) && Filed(s)
  {
    RunLeaves(events, |events|);
  }

  /**
   Main result: the transcripts without a session are exactly those whose removal failed, and the
   temporary files exactly those of writes that broke off with one, in a single import or in a batch
   that could not remove it.
   */
  lemma LeftoversAreExact(events: seq<Event>)
    requires FreshIds(events, |events|)
    ensures var s := After(EMPTY, events, |events|);
      s.temps == AllTempsLeft(events, |events|) && Orphans(s) == AllFilesLeft(events, |events|)
  {
    RunLeaves(events, |events|);
  }

  /** Main result: no later event ever removes what one left. */
  lemma {:induction false} LeftoversStay(events: seq<Event>, m: nat, n: nat)
    requires m <= n <= |events| && FreshIds(events, n)
    ensures After(EMPTY, events, m).temps <= After(EMPTY, events, n).temps
    ensures Orphans(After(EMPTY, events, m)) <= Orphans(After(EMPTY, events, n))
  {
    if m < n {
      LeftoversStay(events, m, n - 1);
      RunLeaves(events, n - 1);
      StepLeaves(After(EMPTY, events, n - 1), Used(events, n - 1), events[n - 1], Used(events, n));
    }
  }

  // ---- A key keeps its session ---------------------------------------------------------------------------------

  lemma {:induction false} FindAppend(origins: seq<Origin>, more: seq<Origin>, key: Key)
    requires Find(origins, key).Some?
    ensures Find(origins + more, key) == Find(origins, key)
  {
    if origins[0].key != key {
      assert (origins + more)[1..] == origins[1..] + more;
      FindAppend(origins[1..], more, key);
    }
  }

  lemma {:induction false} FindNew(origins: seq<Origin>, key: Key, id: Id)
    requires Find(origins, key).None?
    ensures Find(origins + [Origin(key, id)], key) == Some(id)
  {
    if origins != [] {
      assert (origins + [Origin(key, id)])[1..] == origins[1..] + [Origin(key, id)];
      FindNew(origins[1..], key, id);
    }
  }

  lemma {:induction false} FindCascade(origins: seq<Origin>, key: Key, id: Id)
    requires Find(origins, key).Some? && Find(origins, key) != Some(id)
    ensures Find(Cascade(origins, id), key) == Find(origins, key)
  {
    if origins[0].key != key {
      FindCascade(origins[1..], key, id);
    }
  }

  lemma {:induction false} EachKeepsOrigin(s: State, plugin: string, source: string, items: seq<Item>, key: Key)
    requires Find(s.origins, key).Some?
    ensures Find(ImportEach(s, plugin, source, items).0.origins, key) == Find(s.origins, key)
    decreases |items|
  {
    if items != [] {
      var n := |items| - 1;
      EachKeepsOrigin(s, plugin, source, items[..n], key);
      OneKeepsOrigin(ImportEach(s, plugin, source, items[..n]).0, plugin, source, items[n], key);
    }
  }

  lemma OneKeepsOrigin(s: State, plugin: string, source: string, item: Item, key: Key)
    requires Find(s.origins, key).Some?
    ensures Find(ImportOne(s, plugin, source, item).0.origins, key) == Find(s.origins, key)
  {
    if item.prepared.Some? {
      var p := item.prepared.value;
      FindAppend(s.origins, [Origin(Key(plugin, source, p.external), p.id)], key);
    }
  }

  lemma {:induction false} WriteAllOrigins(s: State, items: seq<Item>)
    requires AllPrepared(items)
    ensures WriteAll(s, items).origins == s.origins
    decreases |items|
  {
    if items != [] {
      WriteAllOrigins(s, items[..|items| - 1]);
    }
  }

  lemma {:induction false} RemoveAllOrigins(s: State, items: seq<Item>)
    requires AllPrepared(items)
    ensures RemoveAll(s, items).origins == s.origins
    decreases |items|
  {
    if items != [] {
      RemoveAllOrigins(s, items[..|items| - 1]);
    }
  }

  lemma {:induction false} IndexAllOrigins(s: State, plugin: string, source: string, items: seq<Item>, key: Key)
    requires AllPrepared(items) && Find(s.origins, key).Some?
    ensures var r := IndexAll(s, plugin, source, items); r.Some? ==> Find(r.value.origins, key) == Find(s.origins, key)
    decreases |items|
  {
    if items != [] {
      var n := |items| - 1;
      var p := items[n].prepared.value;
      IndexAllOrigins(s, plugin, source, items[..n], key);
      var before := IndexAll(s, plugin, source, items[..n]);
      if before.Some? {
        FindAppend(before.value.origins, [Origin(Key(plugin, source, p.external), p.id)], key);
      }
    }
  }

  lemma AllKeepsOrigin(
    s: State, plugin: string, source: string, items: seq<Item>, indexes: bool, key: Key)
    requires Find(s.origins, key).Some?
    ensures Find(ImportFail(s, plugin, source, items, indexes).0.origins, key) == Find(s.origins, key)
  {
    if |items| <= MAX_BATCH_SESSIONS && Acceptable(s, plugin, source, items, {}) {
      AcceptableArePrepared(s, plugin, source, items, {});
      var n := WrittenCount(items);
      if n < |items| {
        WriteAllOrigins(s, items[..n + 1]);
        RemoveAllOrigins(WriteAll(s, items[..n + 1]), items[..n + 1]);
      } else {
        WriteAllOrigins(s, items);
        RemoveAllOrigins(WriteAll(s, items), items);
        IndexAllOrigins(WriteAll(s, items), plugin, source, items, key);
      }
    }
  }

  /** Only purging its session makes a key free again. */
  lemma StepKeepsOrigin(s: State, e: Event, key: Key, id: Id)
    requires Find(s.origins, key) == Some(id) && !(e.Purged? && e.id == id)
    ensures Find(Step(s, e).origins, key) == Some(id)
  {
    match e
    case One(plugin, source, item) => OneKeepsOrigin(s, plugin, source, item, key);
    case Skip(plugin, source, items) => EachKeepsOrigin(s, plugin, source, items, key);
    case All(plugin, source, items, indexes) => AllKeepsOrigin(s, plugin, source, items, indexes, key);
    case ToTrash(_, _) =>
    case Purged(_, other, _) => FindCascade(s.origins, key, other);
  }

  lemma {:induction false} RunKeepsOrigin(s: State, events: seq<Event>, n: nat, key: Key, id: Id)
    requires n <= |events| && Find(s.origins, key) == Some(id)
    requires forall i :: 0 <= i < n ==> !(events[i].Purged? && events[i].id == id)
    ensures Find(After(s, events, n).origins, key) == Some(id)
  {
    if n > 0 {
      RunKeepsOrigin(s, events, n - 1, key, id);
      StepKeepsOrigin(After(s, events, n - 1), events[n - 1], key, id);
    }
  }

  /** What an import reports is the session its key belongs to from then on. */
  lemma ImportNamesSession(s: State, plugin: string, source: string, item: Item)
    ensures var r := ImportOne(s, plugin, source, item);
      r.1 != Failed ==>
        item.prepared.Some?
        && Find(r.0.origins, Key(plugin, source, item.prepared.value.external)) == Some(r.1.id)
  {
    if item.prepared.Some? {
      var p := item.prepared.value;
      var key := Key(plugin, source, p.external);
      if Find(s.origins, key).None? {
        FindNew(s.origins, key, p.id);
      }
    }
  }

  /**
   Main result: once a session was imported, importing its key again returns that session and
   changes nothing, whatever happened in between, until that very session is purged.
   */
  lemma ReimportReturnsSession(
    s: State, plugin: string, source: string, first: Item, events: seq<Event>, again: Item)
    requires ImportOne(s, plugin, source, first).1 != Failed && again.prepared.Some?
    requires first.prepared.Some? && again.prepared.value.external == first.prepared.value.external
    requires forall i :: 0 <= i < |events| ==>
      !(events[i].Purged? && events[i].id == ImportOne(s, plugin, source, first).1.id)
    ensures var r := ImportOne(s, plugin, source, first);
      var later := After(r.0, events, |events|);
      ImportOne(later, plugin, source, again) == (later, Skipped(r.1.id))
  {
    var r := ImportOne(s, plugin, source, first);
    ImportNamesSession(s, plugin, source, first);
    RunKeepsOrigin(r.0, events, |events|, Key(plugin, source, first.prepared.value.external), r.1.id);
  }
}
