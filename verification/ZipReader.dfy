/**
 The package reader (crates/host-core/src/plugins.rs): walking the local headers of an
 archive, with the size limits, and joining each name to the destination directory.
 The destination is a tree of files and directories below an existing directory.
 */
module ZipReader {

  import opened ZipWriter
  import opened ZipLayout
  import opened Wrappers

  const MAX_PACKAGE_BYTES := 50 * 1024 * 1024
  const MAX_PACKAGE_FILES := 2000

  datatype Error =
    | TooSmall | BadHeader | Truncated | NameNotUtf8 | NotStored | TooLarge | TooManyFiles
    | AbsolutePath | Traversal | NotADirectory | IsADirectory

  datatype Result<T> = Ok(value: T) | Err(error: Error)

  // ---- Names ------------------------------------------------------------------------------

  const SLASH: byte := 47
  const BACKSLASH: byte := 92
  const COLON: byte := 58
  const DOT: byte := 46

  /** The components of a path below the destination. */
  type Path = seq<Bytes>

  predicate Tail(b: byte) {
    0x80 <= b < 0xC0
  }

  /** Well-formed UTF-8 (table 3-7 of the Unicode standard), from an index on. */
  predicate Utf8From(s: Bytes, i: nat)
    decreases |s| - i
  {
    if i >= |s| then true
    else if s[i] < 0x80 then Utf8From(s, i + 1)
    else if 0xC2 <= s[i] < 0xE0 then i + 1 < |s| && Tail(s[i + 1]) && Utf8From(s, i + 2)
    else if 0xE0 <= s[i] < 0xF0 then
      && i + 2 < |s| && Tail(s[i + 1]) && Tail(s[i + 2])
      && (s[i] == 0xE0 ==> s[i + 1] >= 0xA0) && (s[i] == 0xED ==> s[i + 1] < 0xA0)
      && Utf8From(s, i + 3)
    else if 0xF0 <= s[i] < 0xF5 then
      && i + 3 < |s| && Tail(s[i + 1]) && Tail(s[i + 2]) && Tail(s[i + 3])
      && (s[i] == 0xF0 ==> s[i + 1] >= 0x90) && (s[i] == 0xF4 ==> s[i + 1] < 0x90)
      && Utf8From(s, i + 4)
    else false
  }

  predicate Utf8(s: Bytes) {
    Utf8From(s, 0)
  }

  /** Backslashes become slashes. */
  function Slashed(name: Bytes): (s: Bytes)
    ensures |s| == |name|
    ensures forall i :: 0 <= i < |s| ==> s[i] == if name[i] == BACKSLASH then SLASH else name[i]
  {
    seq(|name|, i requires 0 <= i < |name| => if name[i] == BACKSLASH then SLASH else name[i])
  }

  function Split(s: Bytes): (parts: seq<Bytes>)
    ensures |parts| > 0
  {
    if s == [] then [[]]
    else
      var rest := Split(s[1..]);
      if s[0] == SLASH then [[]] + rest else [[s[0]] + rest[0]] + rest[1..]
  }

  /** Empty components and `.` are skipped, `..` is refused. */
  function Components(parts: seq<Bytes>): Result<Path> {
    if parts == [] then Ok([])
    else if parts[0] == [DOT, DOT] then Err(Traversal)
    else
      var rest := Components(parts[1..]);
      if rest.Err? || parts[0] == [] || parts[0] == [DOT] then rest else Ok([parts[0]] + rest.value)
  }

  /** `safe_join`, without the destination in front. */
  function SafeJoin(name: Bytes): Result<Path> {
    var rel := Slashed(name);
    if (rel != [] && rel[0] == SLASH) || COLON in rel then Err(AbsolutePath) else Components(Split(rel))
  }

  /** A component that names something inside its directory. */
  predicate Plain(part: Bytes) {
    part != [] && part != [DOT] && part != [DOT, DOT] && SLASH !in part && BACKSLASH !in part && COLON !in part
  }

  predicate PlainPath(path: Path) {
    forall i :: 0 <= i < |path| ==> Plain(path[i])
  }

  lemma {:induction false} SplitParts(s: Bytes, k: nat)
    requires k < |Split(s)|
    ensures SLASH !in Split(s)[k] && forall b :: b in Split(s)[k] ==> b in s
  {
    if s != [] {
      var rest := Split(s[1..]);
      if s[0] == SLASH {
        if k > 0 {
          SplitParts(s[1..], k - 1);
        }
      } else {
        SplitParts(s[1..], k);
      }
    }
  }

  lemma {:induction false} ComponentsPlain(parts: seq<Bytes>)
    requires Components(parts).Ok?
    requires forall k :: 0 <= k < |parts| ==> SLASH !in parts[k] && BACKSLASH !in parts[k] && COLON !in parts[k]
    ensures PlainPath(Components(parts).value)
  {
    if parts != [] {
      ComponentsPlain(parts[1..]);
    }
  }

  /** Main result: a name that is accepted only leads to plain components, so it stays below the destination. */
  lemma SafeJoinStays(name: Bytes)
    requires SafeJoin(name).Ok?
    ensures PlainPath(SafeJoin(name).value)
  {
    var parts := Split(Slashed(name));
    forall k | 0 <= k < |parts|
      ensures SLASH !in parts[k] && BACKSLASH !in parts[k] && COLON !in parts[k]
    {
      SplitParts(Slashed(name), k);
    }
    ComponentsPlain(parts);
  }

  /** The name that spells a path. */
  function Spell(path: Path): Bytes {
    if path == [] then [] else if |path| == 1 then path[0] else path[0] + [SLASH] + Spell(path[1..])
  }

  lemma {:induction false} SplitFirst(part: Bytes, rest: Bytes)
    requires SLASH !in part
    ensures Split(part) == [part]
    ensures Split(part + [SLASH] + rest) == [part] + Split(rest)
  {
    var s := part + [SLASH] + rest;
    if part == [] {
      assert s[1..] == rest;
    } else {
      assert s[1..] == part[1..] + [SLASH] + rest;
      SplitFirst(part[1..], rest);
      assert part == [part[0]] + part[1..];
    }
  }

  lemma {:induction false} SpellSplits(path: Path)
    requires PlainPath(path) && path != []
    ensures Split(Spell(path)) == path
  {
    if |path| == 1 {
      SplitFirst(path[0], []);
    } else {
      assert forall i :: 0 <= i < |path[1..]| ==> path[1..][i] == path[i + 1];
      SpellSplits(path[1..]);
      SplitFirst(path[0], Spell(path[1..]));
    }
  }

  lemma {:induction false} SpellClean(path: Path)
    requires PlainPath(path)
    ensures forall i :: 0 <= i < |Spell(path)| ==> Spell(path)[i] != BACKSLASH && Spell(path)[i] != COLON
  {
    if |path| > 1 {
      assert forall i :: 0 <= i < |path[1..]| ==> path[1..][i] == path[i + 1];
      SpellClean(path[1..]);
    }
  }

  lemma SpellStart(path: Path)
    requires PlainPath(path) && path != []
    ensures Spell(path) != [] && Spell(path)[0] != SLASH
  {
    assert Spell(path)[0] == path[0][0];
  }

  lemma {:induction false} ComponentsKept(path: Path)
    requires PlainPath(path)
    ensures Components(path) == Ok(path)
  {
    if path != [] {
      ComponentsKept(path[1..]);
      assert path == [path[0]] + path[1..];
    }
  }

  /** Every path of plain components is reached by spelling it. */
  lemma SpelledPathJoins(path: Path)
    requires PlainPath(path) && path != []
    ensures SafeJoin(Spell(path)) == Ok(path)
  {
    SpellSplits(path);
    SpellClean(path);
    SpellStart(path);
    assert Slashed(Spell(path)) == Spell(path);
    ComponentsKept(path);
  }

  // ---- The destination -----------------------------------------------------------------------

  datatype Tree = Tree(files: map<Path, Bytes>, dirs: set<Path>)

  const EMPTY := Tree(map[], {[]})

  function Prefixes(path: Path): set<Path> {
    set i | 0 <= i <= |path| :: path[..i]
  }

  /** `create_dir_all`: fails on a file in the way. */
  function CreateDirs(tree: Tree, path: Path): Result<Tree> {
    if exists i :: 0 <= i <= |path| && path[..i] in tree.files then Err(NotADirectory)
    else Ok(tree.(dirs := tree.dirs + Prefixes(path)))
  }

  function WriteFile(tree: Tree, path: Path, data: Bytes): Result<Tree> {
    if path in tree.dirs then Err(IsADirectory) else Ok(tree.(files := tree.files[path := data]))
  }

  /** What an extraction leaves, and why it stopped. */
  datatype Outcome = Outcome(tree: Tree, failure: Option<Error>)

  /** One entry: a directory when its name ends in a slash, a file below its parents otherwise. */
  function Place(tree: Tree, name: Bytes, data: Bytes): Outcome {
    var join := SafeJoin(name);
    if join.Err? then Outcome(tree, Some(join.error))
    else if name != [] && name[|name| - 1] == SLASH then
      var made := CreateDirs(tree, join.value);
      if made.Err? then Outcome(tree, Some(made.error)) else Outcome(made.value, None)
    else
      var path := join.value;
      var made := CreateDirs(tree, if path == [] then [] else path[..|path| - 1]);
      if made.Err? then Outcome(tree, Some(made.error))
      else
        var written := WriteFile(made.value, path, data);
        if written.Err? then Outcome(made.value, Some(written.error)) else Outcome(written.value, None)
  }

  // ---- Reading -----------------------------------------------------------------------------------

  /** What is done with an entry that is within the limits. */
  type Placer = (Tree, Bytes, Bytes) -> Outcome

  datatype Entry = Entry(name: Bytes, data: Bytes, size: nat, next: nat)

  datatype Look = Done | Bad(error: Error) | Found(entry: Entry)

  /** What stands at an offset of the archive. */
  function LookAt(bytes: Bytes, at: nat): (look: Look)
    ensures look.Found? ==> at < look.entry.next <= |bytes|
  {
    if at + 30 > |bytes| then Done
    else
      var signature := Number(bytes, at, 4);
      if signature == CENTRAL_SIGNATURE || signature == END_SIGNATURE then Done
      else if signature != LOCAL_SIGNATURE then Bad(BadHeader)
      else
        var nameEnd := at + 30 + Number(bytes, at + 26, 2);
        var dataStart := nameEnd + Number(bytes, at + 28, 2);
        var dataEnd := dataStart + Number(bytes, at + 18, 4);
        if dataEnd > |bytes| then Bad(Truncated)
        else if !Utf8(bytes[at + 30..nameEnd]) then Bad(NameNotUtf8)
        else if Number(bytes, at + 8, 2) != 0 then Bad(NotStored)
        else
          Found(Entry(bytes[at + 30..nameEnd], bytes[dataStart..dataEnd], Number(bytes, at + 22, 4), dataEnd))
  }

  /** One entry after `count` entries of `total` bytes: the limits, then its place. */
  function Take(place: Placer, name: Bytes, data: Bytes, size: nat, count: nat, total: nat, tree: Tree): Outcome {
    if total + size > MAX_PACKAGE_BYTES then Outcome(tree, Some(TooLarge))
    else if count + 1 > MAX_PACKAGE_FILES then Outcome(tree, Some(TooManyFiles))
    else place(tree, name, data)
  }

  function Unpack(place: Placer, bytes: Bytes, at: nat, count: nat, total: nat, tree: Tree): Outcome
    decreases |bytes| - at
  {
    var look := LookAt(bytes, at);
    match look
    case Done => Outcome(tree, None)
    case Bad(error) => Outcome(tree, Some(error))
    case Found(e) =>
      var taken := Take(place, e.name, e.data, e.size, count, total, tree);
      if taken.failure != None then taken else Unpack(place, bytes, e.next, count + 1, total + e.size, taken.tree)
  }

  function Extracted(bytes: Bytes, tree: Tree): Outcome {
    if |bytes| < 22 then Outcome(tree, Some(TooSmall)) else Unpack(Place, bytes, 0, 0, 0, tree)
  }

  /** The first half of the loop: reading and checking one local header. */
  method ReadEntry(bytes: Bytes, offset: nat) returns (look: Look)
    requires offset + 30 <= |bytes|
    ensures look == LookAt(bytes, offset)
  {
    var signature := Number(bytes, offset, 4);
    if signature == CENTRAL_SIGNATURE || signature == END_SIGNATURE {
      return Done;
    }
    if signature != LOCAL_SIGNATURE {
      return Bad(BadHeader);
    }
    var storage := Number(bytes, offset + 8, 2);
    var compressed := Number(bytes, offset + 18, 4);
    var size := Number(bytes, offset + 22, 4);
    var nameStart := offset + 30;
    var nameEnd := nameStart + Number(bytes, offset + 26, 2);
    var extra := Number(bytes, offset + 28, 2);
    if nameEnd + extra + compressed > |bytes| {
      return Bad(Truncated);
    }
    var name := bytes[nameStart..nameEnd];
    if !Utf8(name) {
      return Bad(NameNotUtf8);
    }
    if storage != 0 {
      return Bad(NotStored);
    }
    var dataStart := nameEnd + extra;
    var dataEnd := dataStart + compressed;
    look := Found(Entry(name, bytes[dataStart..dataEnd], size, dataEnd));
  }

  /** `extract_zip_bytes`: what was written before an error stays. */
  method Extract(bytes: Bytes, tree: Tree) returns (r: Outcome)
    ensures r == Extracted(bytes, tree)
  {
    if |bytes| < 22 {
      return Outcome(tree, Some(TooSmall));
    }
    var fileCount: nat, totalBytes: nat, offset: nat := 0, 0, 0;
    r := Outcome(tree, None);
    while offset + 30 <= |bytes|
      invariant offset <= |bytes| && r.failure == None
      invariant Unpack(Place, bytes, offset, fileCount, totalBytes, r.tree) == Unpack(Place, bytes, 0, 0, 0, tree)
      decreases |bytes| - offset
    {
      var look := ReadEntry(bytes, offset);
      match look {
        case Done =>
          break;
        case Bad(error) =>
          return Outcome(r.tree, Some(error));
        case Found(e) =>
          totalBytes := totalBytes + e.size;
          if totalBytes > MAX_PACKAGE_BYTES {
            return Outcome(r.tree, Some(TooLarge));
          }
          fileCount := fileCount + 1;
          if fileCount > MAX_PACKAGE_FILES {
            return Outcome(r.tree, Some(TooManyFiles));
          }
          r := Place(r.tree, e.name, e.data);
          if r.failure != None {
            return;
          }
          offset := e.next;
      }
    }
  }
}
