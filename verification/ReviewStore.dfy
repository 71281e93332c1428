/**
 Snapshots and rollback of the review engine (crates/host-core/src/review.rs).

 A snapshot is taken around every Write or Edit; rolling it back is guarded by
 the hash of what the tool left. The file system is a map from places to nodes.
 Every disk operation that can fail takes its outcome from an input.
 */
module ReviewStore {
  import opened Text
  import opened Wrappers

  type Bytes = seq<bv8>
  type Hash = Bytes -> string

  const MAX_SNAPSHOT_BYTES: nat := 16 * 1024 * 1024

  datatype Node = File(bytes: Bytes) | Dir

  /** A workspace root and a path below it. */
  datatype Place = Place(root: string, path: string)

  type Files = map<Place, Node>

  datatype Operation = Write | Edit
  datatype ChangeStatus = Added | Modified | Deleted
  datatype ChangeState = Active | RolledBack

  datatype SnapshotKey = SnapshotKey(session: string, id: string)

  /** What is known between the capture before the tool and the record after it.
      `copy` is the saved old content, when there was one and it could be saved. */
  datatype Pending = Pending(
    key: SnapshotKey, message: string, place: Place, operation: Operation,
    beforeExists: bool, beforeHash: Option<string>, copy: Option<Bytes>)

  datatype Meta = Meta(
    session: string, message: string, path: string, operation: Operation,
    beforeExists: bool, beforeHash: Option<string>,
    afterExists: bool, afterHash: Option<string>,
    reversible: bool, state: ChangeState)

  datatype Snapshot = Snapshot(meta: Meta, copy: Option<Bytes>)
  type Snapshots = map<SnapshotKey, Snapshot>

  /** How the disk operations of one call turn out. */
  datatype PrepareIo = PrepareIo(dirOk: bool, hashOk: bool, copyOk: bool)
  datatype FinalizeIo = FinalizeIo(hashOk: bool, metaOk: bool)
  datatype WriteOutcome = Whole | Refused | Torn(left: Bytes)
  datatype RollbackIo = RollbackIo(hashOk: bool, restore: WriteOutcome, removeOk: bool, metaOk: bool)

  datatype Outcome = Done | AlreadyRolledBack | Unavailable | Conflict | Failed

  // ---- What the operations compute ------------------------------------------

  function NodeAt(files: Files, p: Place): Option<Node> {
    if p in files then Some(files[p]) else None
  }

  predicate IsFile(n: Option<Node>) {
    n.Some? && n.value.File?
  }

  function ToolOperation(tool: string): Option<Operation> {
    if tool == "Write" then Some(Write) else if tool == "Edit" then Some(Edit) else None
  }

  predicate SafeComponent(s: string) {
    s != "" && forall i :: 0 <= i < |s| ==>
      'a' <= s[i] <= 'z' || 'A' <= s[i] <= 'Z' || '0' <= s[i] <= '9' || s[i] == '-' || s[i] == '_'
  }

  /** Whether a snapshot is begun; the tool goes on either way. */
  predicate Captures(key: SnapshotKey, tool: string, io: PrepareIo) {
    ToolOperation(tool).Some? && SafeComponent(key.session) && SafeComponent(key.id) && io.dirOk
  }

  function Captured(h: Hash, files: Files, key: SnapshotKey, message: string, place: Place,
                    operation: Operation, io: PrepareIo): Pending
  {
    var now := NodeAt(files, place);
    Pending(key, message, place, operation, IsFile(now),
            if IsFile(now) && io.hashOk then Some(h(now.value.bytes)) else None,
            if IsFile(now) && |now.value.bytes| <= MAX_SNAPSHOT_BYTES && io.copyOk
            then Some(now.value.bytes) else None)
  }

  function Recorded(h: Hash, files: Files, p: Pending): Snapshot {
    var now := NodeAt(files, p.place);
    Snapshot(
      Meta(p.key.session, p.message, p.place.path, p.operation, p.beforeExists, p.beforeHash,
           IsFile(now), if IsFile(now) then Some(h(now.value.bytes)) else None,
           if p.beforeExists then p.copy.Some? else IsFile(now), Active),
      p.copy)
  }

  /** The guard: the target still hashes to what the tool left, or is still not a file. */
  predicate LooksUntouched(h: Hash, meta: Meta, now: Option<Node>, hashOk: bool) {
    match meta.afterHash
    case Some(expected) => IsFile(now) && hashOk && h(now.value.bytes) == expected
    case None => !IsFile(now)
  }

  function Put(files: Files, p: Place, n: Option<Node>): Files {
    match n
    case Some(node) => files[p := node]
    case None => map q | q in files && q != p :: files[q]
  }

  datatype RollbackResult = RollbackResult(files: Files, snapshots: Snapshots, outcome: Outcome)

  /** Writes the saved content back. The result is `None` when nothing is left
      to do but report an error; the files are whatever the write left. */
  function RestoreBefore(files: Files, target: Place, copy: Option<Bytes>, write: WriteOutcome): (Files, bool) {
    if copy.None? || |copy.value| > MAX_SNAPSHOT_BYTES || NodeAt(files, target) == Some(Dir) then (files, false)
    else
      match write
      case Whole => (files[target := File(copy.value)], true)
      case Refused => (files, false)
      case Torn(left) => (files[target := File(left)], false)
  }

  function RemoveCreated(files: Files, target: Place, removeOk: bool): (Files, bool) {
    if NodeAt(files, target).None? then (files, true)
    else if removeOk then (Put(files, target, None), true)
    else (files, false)
  }

  /** Every branch of a rollback; `root` is `None` when the path does not resolve. */
  function Rollback(h: Hash, files: Files, snapshots: Snapshots, key: SnapshotKey,
                    root: Option<string>, io: RollbackIo): RollbackResult
  {
    if !SafeComponent(key.session) || !SafeComponent(key.id) || key !in snapshots then
      RollbackResult(files, snapshots, Failed)
    else
      var s := snapshots[key];
      var meta := s.meta;
      if meta.session != key.session || Blank(meta.message) then RollbackResult(files, snapshots, Failed)
      else if meta.state == RolledBack then RollbackResult(files, snapshots, AlreadyRolledBack)
      else if !meta.reversible || root.None? then RollbackResult(files, snapshots, Unavailable)
      else
        var target := Place(root.value, meta.path);
        if !LooksUntouched(h, meta, NodeAt(files, target), io.hashOk) then
          RollbackResult(files, snapshots, Conflict)
        else Undo(files, snapshots, key, target, io)
  }

  /** The part behind the guard. */
  function Undo(files: Files, snapshots: Snapshots, key: SnapshotKey, target: Place, io: RollbackIo): RollbackResult
    requires key in snapshots
  {
    var s := snapshots[key];
    if !s.meta.beforeExists && NodeAt(files, target) == Some(Dir) then
      RollbackResult(files, snapshots, Unavailable)
    else
      var (after, ok) := if s.meta.beforeExists then RestoreBefore(files, target, s.copy, io.restore)
                         else RemoveCreated(files, target, io.removeOk);
      if !ok || !io.metaOk then RollbackResult(after, snapshots, Failed)
      else RollbackResult(after, snapshots[key := s.(meta := s.meta.(state := RolledBack))], Done)
  }

  // ---- The store ------------------------------------------------------------

  /** The files of all workspaces and the snapshot directories beside them. */
  class Store {
    const hash: Hash
    var files: Files
    var snapshots: Snapshots

    constructor (hash: Hash, files: Files)
      ensures this.hash == hash && this.files == files && snapshots == map[]
    {
      this.hash := hash;
      this.files := files;
      snapshots := map[];
    }

    /** Before the tool. `place` is where the tool's path resolves inside the workspace, if it does.
        An error is logged and leaves nothing pending, like a tool that changes no file. */
    method PrepareChange(key: SnapshotKey, message: string, tool: string, place: Option<Place>, io: PrepareIo)
      returns (pending: Option<Pending>)
      ensures pending.Some? ==> tool == "Write" || tool == "Edit"
      ensures pending == if !Captures(key, tool, io) || place.None? then None
                         else Some(Captured(hash, files, key, message, place.value, ToolOperation(tool).value, io))
    {
      var operation := ToolOperation(tool);
      if operation.None? || place.None? { return None; }
      if !SafeComponent(key.id) || !SafeComponent(key.session) { return None; }
      if !io.dirOk { return None; }
      var now := NodeAt(files, place.value);
      var beforeExists := IsFile(now);
      var beforeHash := None;
      if beforeExists && io.hashOk {
        beforeHash := Some(hash(now.value.bytes));
      }
      var copy := None;
      if beforeExists && |now.value.bytes| <= MAX_SNAPSHOT_BYTES && io.copyOk {
        copy := Some(now.value.bytes);
      }
      pending := Some(Pending(key, message, place.value, operation.value, beforeExists, beforeHash, copy));
    }

    /** After the tool: writes the metadata of the snapshot. */
    method FinalizeChange(p: Pending, io: FinalizeIo) returns (status: Option<ChangeStatus>)
      modifies this`snapshots
      ensures status.None? <==> (IsFile(NodeAt(files, p.place)) && !io.hashOk) || !io.metaOk
      ensures status.None? ==> snapshots == old(snapshots)
      ensures status.Some? ==>
        && snapshots == old(snapshots)[p.key := Recorded(hash, files, p)]
        && (status == Some(Added) <==> !p.beforeExists && IsFile(NodeAt(files, p.place)))
        && (status == Some(Deleted) <==> p.beforeExists && !IsFile(NodeAt(files, p.place)))
    {
      var now := NodeAt(files, p.place);
      var afterExists := IsFile(now);
      var afterHash := None;
      if afterExists {
        if !io.hashOk { return None; }
        afterHash := Some(hash(now.value.bytes));
      }
      var changed := match (p.beforeExists, afterExists)
        case (false, true) => Added
        case (true, false) => Deleted
        case _ => Modified;
      var reversible := if p.beforeExists then p.copy.Some? else afterExists;
      if !io.metaOk { return None; }
      snapshots := snapshots[p.key := Snapshot(
        Meta(p.key.session, p.message, p.place.path, p.operation, p.beforeExists, p.beforeHash,
             afterExists, afterHash, reversible, Active), p.copy)];
      status := Some(changed);
    }

    /** Guarded undo. */
    method RollbackChange(key: SnapshotKey, root: Option<string>, io: RollbackIo) returns (outcome: Outcome)
      modifies this
      ensures RollbackResult(files, snapshots, outcome)
        == Rollback(hash, old(files), old(snapshots), key, root, io)
    {
      if !SafeComponent(key.session) || !SafeComponent(key.id) || key !in snapshots {
        return Failed;
      }
      var s := snapshots[key];
      if s.meta.session != key.session || Blank(s.meta.message) { return Failed; }
      if s.meta.state == RolledBack { return AlreadyRolledBack; }
      if !s.meta.reversible { return Unavailable; }
      if root.None? { return Unavailable; }
      var target := Place(root.value, s.meta.path);
      var now := NodeAt(files, target);
      var currentHash := None;
      if IsFile(now) && io.hashOk {
        currentHash := Some(hash(now.value.bytes));
      }
      var unchanged_ := match s.meta.afterHash
        case Some(expected) => IsFile(now) && currentHash == Some(expected)
        case None => !IsFile(now);
      if !unchanged_ { return Conflict; }
      if s.meta.beforeExists {
        if s.copy.None? || |s.copy.value| > MAX_SNAPSHOT_BYTES || now == Some(Dir) { return Failed; }
        match io.restore {
          case Whole => files := files[target := File(s.copy.value)];
          case Refused => return Failed;
          case Torn(left) =>
            files := files[target := File(left)];
            return Failed;
        }
      } else if target in files {
        if files[target].Dir? { return Unavailable; }
        if !io.removeOk { return Failed; }
        files := Put(files, target, None);
      }
      if !io.metaOk { return Failed; }
      snapshots := snapshots[key := s.(meta := s.meta.(state := RolledBack))];
      outcome := Done;
    }
  }
}
