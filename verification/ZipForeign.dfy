/**
 What the package reader (crates/host-core/src/plugins.rs) does with any bytes at all, archives of
 other tools included, in terms of the bytes of the local headers that it walks (section 4.3.7 of
 the PKWARE APPNOTE).
 */
module ZipForeign {

  import opened ZipWriter
  import opened ZipLayout
  import opened ZipReader
  import opened Wrappers

  // ---- A header in its bytes ------------------------------------------------------------

  function Two(bytes: Bytes, i: nat): nat
    requires i + 2 <= |bytes|
  {
    bytes[i] as nat + 0x100 * bytes[i + 1] as nat
  }

  function Four(bytes: Bytes, i: nat): nat
    requires i + 4 <= |bytes|
  {
    Two(bytes, i) + 0x1_0000 * Two(bytes, i + 2)
  }

  /** The letters "PK" and two more bytes. */
  predicate Marked(bytes: Bytes, i: nat, x: byte, y: byte)
    requires i + 4 <= |bytes|
  {
    bytes[i] == 0x50 && bytes[i + 1] == 0x4b && bytes[i + 2] == x && bytes[i + 3] == y
  }

  function NameEnd(bytes: Bytes, at: nat): nat
    requires at + 30 <= |bytes|
  {
    at + 30 + Two(bytes, at + 26)
  }

  function DataStart(bytes: Bytes, at: nat): nat
    requires at + 30 <= |bytes|
  {
    NameEnd(bytes, at) + Two(bytes, at + 28)
  }

  function EntryEnd(bytes: Bytes, at: nat): nat
    requires at + 30 <= |bytes|
  {
    DataStart(bytes, at) + Four(bytes, at + 18)
  }

  /** A local header stands here and its name, extra field and data are all there. */
  predicate EntryAt(bytes: Bytes, at: nat) {
    at + 30 <= |bytes| && Marked(bytes, at, 3, 4) && EntryEnd(bytes, at) <= |bytes|
  }

  function NameAt(bytes: Bytes, at: nat): Bytes
    requires EntryAt(bytes, at)
  {
    bytes[at + 30..NameEnd(bytes, at)]
  }

  function DataAt(bytes: Bytes, at: nat): Bytes
    requires EntryAt(bytes, at)
  {
    bytes[DataStart(bytes, at)..EntryEnd(bytes, at)]
  }

  /** The archive ends here: too few bytes are left, or the directory or its end begins. */
  predicate EndsAt(bytes: Bytes, at: nat) {
    at + 30 > |bytes| || Marked(bytes, at, 1, 2) || Marked(bytes, at, 5, 6)
  }

  /** The method is 0, so the data is stored as it is. */
  predicate Stored(bytes: Bytes, at: nat)
    requires at + 30 <= |bytes|
  {
    bytes[at + 8] == 0 && bytes[at + 9] == 0
  }

  lemma TwoIsNumber(bytes: Bytes, i: nat)
    requires i + 2 <= |bytes|
    ensures Number(bytes, i, 2) == Two(bytes, i)
  {
    assert Number(bytes, i + 1, 1) == bytes[i + 1] as nat + 256 * Number(bytes, i + 2, 0);
  }

  lemma FourIsNumber(bytes: Bytes, i: nat)
    requires i + 4 <= |bytes|
    ensures Number(bytes, i, 4) == Four(bytes, i)
  {
    assert Number(bytes, i + 3, 1) == bytes[i + 3] as nat + 256 * Number(bytes, i + 4, 0);
    assert Number(bytes, i + 2, 2) == bytes[i + 2] as nat + 256 * Number(bytes, i + 3, 1);
    assert Number(bytes, i + 1, 3) == bytes[i + 1] as nat + 256 * Number(bytes, i + 2, 2);
  }

  lemma MarkIsSignature(bytes: Bytes, i: nat)
    requires i + 4 <= |bytes|
    ensures Marked(bytes, i, 3, 4) <==> Number(bytes, i, 4) == LOCAL_SIGNATURE
    ensures Marked(bytes, i, 1, 2) <==> Number(bytes, i, 4) == CENTRAL_SIGNATURE
    ensures Marked(bytes, i, 5, 6) <==> Number(bytes, i, 4) == END_SIGNATURE
  {
    FourIsNumber(bytes, i);
  }

  /** What the reader sees at an offset. */
  function Seen(bytes: Bytes, at: nat): Look {
    if EndsAt(bytes, at) then Done
    else if !Marked(bytes, at, 3, 4) then Bad(BadHeader)
    else if EntryEnd(bytes, at) > |bytes| then Bad(Truncated)
    else if !Utf8(NameAt(bytes, at)) then Bad(NameNotUtf8)
    else if !Stored(bytes, at) then Bad(NotStored)
    else Found(Entry(NameAt(bytes, at), DataAt(bytes, at), Four(bytes, at + 22), EntryEnd(bytes, at)))
  }

  lemma LookIsSeen(bytes: Bytes, at: nat)
    ensures LookAt(bytes, at) == Seen(bytes, at)
  {
    if at + 30 <= |bytes| {
      MarkIsSignature(bytes, at);
      TwoIsNumber(bytes, at + 8);
      FourIsNumber(bytes, at + 18);
      FourIsNumber(bytes, at + 22);
      TwoIsNumber(bytes, at + 26);
      TwoIsNumber(bytes, at + 28);
    }
  }

  // ---- The walk -----------------------------------------------------------------------------

  /** Where the walk stands: the offset of a header, the sizes so far, and the files so far. */
  datatype Standing = Standing(at: nat, total: nat, tree: Tree)

  /** The entry here may be placed, being number `k` (from 0) after `total` bytes. */
  predicate Accepted(bytes: Bytes, p: Standing, k: nat) {
    && !EndsAt(bytes, p.at) && EntryAt(bytes, p.at) && Utf8(NameAt(bytes, p.at)) && Stored(bytes, p.at)
    && p.total + Four(bytes, p.at + 22) <= 52_428_800 && k < 2000
  }

  /** Where the walk stands after placing the entry it stands at, if that works. */
  function Next(place: Placer, bytes: Bytes, p: Standing, k: nat): Option<Standing> {
    if !Accepted(bytes, p, k) then None
    else
      var placed := place(p.tree, NameAt(bytes, p.at), DataAt(bytes, p.at));
      if placed.failure.Some? then None
      else Some(Standing(EntryEnd(bytes, p.at), p.total + Four(bytes, p.at + 22), placed.tree))
  }

  type Walk = (Standing, nat) -> Option<Standing>

  /** The walk of an extraction. */
  function Extracting(bytes: Bytes): Walk {
    (p: Standing, k: nat) => Next(Place, bytes, p, k)
  }

  /** Where a walk stands before entry `k`, if every entry before it was accepted and placed. */
  function Before(walk: Walk, tree: Tree, k: nat): Option<Standing> {
    if k == 0 then Some(Standing(0, 0, tree))
    else
      match Before(walk, tree, k - 1)
      case None => None
      case Some(p) => walk(p, k - 1)
  }

  /** What the walk makes of the header it stands at when it goes no further. */
  function StopsWith(place: Placer, bytes: Bytes, p: Standing, k: nat): Outcome {
    if EndsAt(bytes, p.at) then Outcome(p.tree, None)
    else if !Marked(bytes, p.at, 3, 4) then Outcome(p.tree, Some(BadHeader))
    else if EntryEnd(bytes, p.at) > |bytes| then Outcome(p.tree, Some(Truncated))
    else if !Utf8(NameAt(bytes, p.at)) then Outcome(p.tree, Some(NameNotUtf8))
    else if !Stored(bytes, p.at) then Outcome(p.tree, Some(NotStored))
    else if p.total + Four(bytes, p.at + 22) > 52_428_800 then Outcome(p.tree, Some(TooLarge))
    else if k >= 2000 then Outcome(p.tree, Some(TooManyFiles))
    else place(p.tree, NameAt(bytes, p.at), DataAt(bytes, p.at))
  }

  lemma OneEntry(place: Placer, bytes: Bytes, k: nat, p: Standing)
    ensures match Next(place, bytes, p, k)
      case Some(q) =>
        Unpack(place, bytes, p.at, k, p.total, p.tree) == Unpack(place, bytes, q.at, k + 1, q.total, q.tree)
      case None => Unpack(place, bytes, p.at, k, p.total, p.tree) == StopsWith(place, bytes, p, k)
  {
    LookIsSeen(bytes, p.at);
  }

  /** What is still to come from where a walk stands. */
  type Future = (Standing, nat) -> Outcome

  function Unpacking(place: Placer, bytes: Bytes): Future {
    (p: Standing, k: nat) => Unpack(place, bytes, p.at, k, p.total, p.tree)
  }

  ghost predicate Follows(walk: Walk, future: Future) {
    forall p, k: nat {:trigger walk(p, k)} :: walk(p, k).Some? ==> future(p, k) == future(walk(p, k).value, k + 1)
  }

  lemma {:induction false} WalkedSoFar(walk: Walk, future: Future, tree: Tree, k: nat)
    requires Follows(walk, future) && Before(walk, tree, k).Some?
    ensures future(Standing(0, 0, tree), 0) == future(Before(walk, tree, k).value, k)
  {
    if k > 0 {
      WalkedSoFar(walk, future, tree, k - 1);
    }
  }

  lemma ExtractingFollows(bytes: Bytes)
    ensures Follows(Extracting(bytes), Unpacking(Place, bytes))
  {
    forall p, k: nat | Next(Place, bytes, p, k).Some?
      ensures var q := Next(Place, bytes, p, k).value;
        Unpack(Place, bytes, p.at, k, p.total, p.tree) == Unpack(Place, bytes, q.at, k + 1, q.total, q.tree)
    {
      OneEntry(Place, bytes, k, p);
    }
  }

  lemma WalkStops(bytes: Bytes, tree: Tree, k: nat, p: Standing)
    requires Before(Extracting(bytes), tree, k) == Some(p) && Next(Place, bytes, p, k).None?
    ensures Unpack(Place, bytes, 0, 0, 0, tree) == StopsWith(Place, bytes, p, k)
  {
    ExtractingFollows(bytes);
    WalkedSoFar(Extracting(bytes), Unpacking(Place, bytes), tree, k);
    OneEntry(Place, bytes, k, p);
  }

  /** No walk with this limit goes further. */
  lemma {:induction false} WalkEnds(walk: Walk, tree: Tree, limit: nat, k: nat) returns (n: nat, p: Standing)
    requires Before(walk, tree, k).Some? && k <= limit && forall q :: walk(q, limit).None?
    ensures n <= limit && Before(walk, tree, n) == Some(p) && walk(p, n).None?
    decreases limit - k
  {
    p := Before(walk, tree, k).value;
    if walk(p, k).None? {
      n := k;
    } else {
      assert Before(walk, tree, k + 1) == walk(p, k);
      n, p := WalkEnds(walk, tree, limit, k + 1);
    }
  }

  /** Main result: every extraction of at least 22 bytes comes to a header after which it goes no further, with the
      entries before it placed. It ends as that header says, and leaves what was placed before. */
  lemma StopsAtSomeHeader(bytes: Bytes, tree: Tree) returns (k: nat, p: Standing)
    ensures |bytes| < 22 ==> Extracted(bytes, tree) == Outcome(tree, Some(TooSmall))
    ensures k <= 2000 && Before(Extracting(bytes), tree, k) == Some(p) && Next(Place, bytes, p, k).None?
    ensures |bytes| >= 22 ==> Extracted(bytes, tree) == StopsWith(Place, bytes, p, k)
  {
    k, p := WalkEnds(Extracting(bytes), tree, 2000, 0);
    WalkStops(bytes, tree, k, p);
  }

  lemma NextNeedsStored(place: Placer, bytes: Bytes, p: Standing, k: nat)
    requires EntryAt(bytes, p.at) && Utf8(NameAt(bytes, p.at))
    requires bytes[p.at + 8] != 0 || bytes[p.at + 9] != 0
    ensures Next(place, bytes, p, k).None? && StopsWith(place, bytes, p, k) == Outcome(p.tree, Some(NotStored))
  {
  }

  /** Main result: an entry whose method is not 0 is never extracted: where the walk comes to one that fits in
      the archive under a proper name, it fails, and the files are exactly what the entries before it made. */
  lemma CompressedIsRefused(bytes: Bytes, tree: Tree, k: nat, p: Standing)
    requires |bytes| >= 22 && Before(Extracting(bytes), tree, k) == Some(p)
    requires EntryAt(bytes, p.at) && Utf8(NameAt(bytes, p.at))
    requires bytes[p.at + 8] != 0 || bytes[p.at + 9] != 0
    ensures Extracted(bytes, tree) == Outcome(p.tree, Some(NotStored))
  {
    NextNeedsStored(Place, bytes, p, k);
    WalkStops(bytes, tree, k, p);
  }

  // ---- Where files come from --------------------------------------------------------------------

  /** What a header gives to a path. */
  type Source = (Standing, Path, Bytes) -> bool

  /** The walk stands at a stored entry with this data whose name leads to this path. */
  predicate Gives(bytes: Bytes, p: Standing, path: Path, data: Bytes) {
    && EntryAt(bytes, p.at) && bytes[p.at + 8] == 0 && bytes[p.at + 9] == 0
    && SafeJoin(NameAt(bytes, p.at)) == Ok(path) && DataAt(bytes, p.at) == data
  }

  function Giving(bytes: Bytes): Source {
    (p: Standing, path: Path, data: Bytes) => Gives(bytes, p, path, data)
  }

  predicate Kept(was: Tree, now: Tree, path: Path) {
    path in was.files && path in now.files && was.files[path] == now.files[path]
  }

  /** The walk comes to a header before entry `n` that gives this file. */
  ghost predicate Given(walk: Walk, source: Source, tree: Tree, n: nat, path: Path, data: Bytes) {
    exists k :: 0 <= k <= n && Before(walk, tree, k).Some? && source(Before(walk, tree, k).value, path, data)
  }

  /** Each step of the walk keeps every file or writes what its header gives. */
  ghost predicate WritesGiven(walk: Walk, source: Source) {
    forall p, k: nat, path {:trigger walk(p, k), path in p.tree.files} ::
      walk(p, k).Some? && path in walk(p, k).value.tree.files && !Kept(p.tree, walk(p, k).value.tree, path) ==>
        source(p, path, walk(p, k).value.tree.files[path])
  }

  /** Placing keeps every file or writes the one that the name leads to. */
  ghost predicate WritesItsFile(place: Placer) {
    forall tree, name, data, path {:trigger path in place(tree, name, data).tree.files} ::
      path in place(tree, name, data).tree.files ==>
        var now := place(tree, name, data).tree;
        Kept(tree, now, path) || (now.files[path] == data && SafeJoin(name) == Ok(path))
  }

  lemma PlaceWritesItsFile()
    ensures WritesItsFile(Place)
  {
  }

  lemma NextWrites(place: Placer, bytes: Bytes, p: Standing, k: nat, q: Standing, path: Path)
    requires WritesItsFile(place) && Next(place, bytes, p, k) == Some(q)
    requires path in q.tree.files && !Kept(p.tree, q.tree, path)
    ensures Gives(bytes, p, path, q.tree.files[path])
  {
    assert path in place(p.tree, NameAt(bytes, p.at), DataAt(bytes, p.at)).tree.files;
  }

  lemma ExtractingWrites(bytes: Bytes)
    ensures WritesGiven(Extracting(bytes), Giving(bytes))
  {
    PlaceWritesItsFile();
    forall p, k: nat, q, path |
      Next(Place, bytes, p, k) == Some(q) && path in q.tree.files && !Kept(p.tree, q.tree, path)
      ensures Gives(bytes, p, path, q.tree.files[path])
    {
      NextWrites(Place, bytes, p, k, q, path);
    }
  }

  lemma {:induction false} PlacedFiles(walk: Walk, source: Source, tree: Tree, n: nat, q: Standing, path: Path)
    requires WritesGiven(walk, source) && Before(walk, tree, n) == Some(q) && path in q.tree.files
    ensures Kept(tree, q.tree, path) || Given(walk, source, tree, n, path, q.tree.files[path])
    decreases n
  {
    if n > 0 {
      var p := Before(walk, tree, n - 1).value;
      if Kept(p.tree, q.tree, path) {
        PlacedFiles(walk, source, tree, n - 1, p, path);
      } else {
        assert walk(p, n - 1) == Some(q);
        assert source(p, path, q.tree.files[path]);
      }
    }
  }

  lemma StopCases(place: Placer, bytes: Bytes, p: Standing, k: nat, r: Outcome)
    requires r == StopsWith(place, bytes, p, k)
    ensures r.tree == p.tree ||
      (EntryAt(bytes, p.at) && Stored(bytes, p.at) && r == place(p.tree, NameAt(bytes, p.at), DataAt(bytes, p.at)))
  {
  }

  lemma StopWrites(place: Placer, bytes: Bytes, p: Standing, k: nat, path: Path, r: Outcome)
    requires WritesItsFile(place) && r == StopsWith(place, bytes, p, k) && path in r.tree.files
    ensures Kept(p.tree, r.tree, path) || Gives(bytes, p, path, r.tree.files[path])
  {
    StopCases(place, bytes, p, k, r);
    if r.tree != p.tree {
      assert path in place(p.tree, NameAt(bytes, p.at), DataAt(bytes, p.at)).tree.files;
    }
  }

  /** Main result: whatever the bytes are, every file after an extraction was there before with the same
      content, or is the data of a walked entry of method 0 whose name leads to it. */
  lemma FilesComeFromStoredEntries(bytes: Bytes, tree: Tree, path: Path)
    requires path in Extracted(bytes, tree).tree.files
    ensures var now := Extracted(bytes, tree).tree;
      Kept(tree, now, path) || Given(Extracting(bytes), Giving(bytes), tree, 2000, path, now.files[path])
  {
    var n, p := StopsAtSomeHeader(bytes, tree);
    if |bytes| >= 22 {
      var r := Extracted(bytes, tree);
      PlaceWritesItsFile();
      StopWrites(Place, bytes, p, n, path, r);
      if Kept(p.tree, r.tree, path) {
        ExtractingWrites(bytes);
        PlacedFiles(Extracting(bytes), Giving(bytes), tree, n, p, path);
      } else {
        assert Giving(bytes)(Before(Extracting(bytes), tree, n).value, path, r.tree.files[path]);
      }
    }
  }

  // ---- What a name means ------------------------------------------------------------------------

  /** Parts of a name between its separators. */
  predicate NoSeparators(parts: seq<Bytes>) {
    forall part, b: byte :: part in parts && b in part ==> b != 47 && b != 92
  }

  /** The parts that name something: neither empty nor a single dot. */
  function Naming(parts: seq<Bytes>): Path {
    if parts == [] then []
    else if parts[0] == [] || parts[0] == [46] then Naming(parts[1..])
    else [parts[0]] + Naming(parts[1..])
  }

  lemma {:induction false} SplitSpells(s: Bytes)
    ensures Spell(Split(s)) == s
  {
    if s != [] {
      SplitSpells(s[1..]);
      var rest := Split(s[1..]);
      assert s == [s[0]] + s[1..];
      if s[0] != SLASH && |rest| > 1 {
        assert Split(s)[1..] == rest[1..];
      } else if s[0] == SLASH {
        assert Split(s)[1..] == rest;
      }
    }
  }

  lemma {:induction false} ComponentsMean(parts: seq<Bytes>)
    ensures Components(parts) == if [46, 46] in parts then Err(Traversal) else Ok(Naming(parts))
  {
    if parts != [] {
      ComponentsMean(parts[1..]);
      var dots: Bytes := [46, 46];
      assert dots in parts <==> parts[0] == dots || dots in parts[1..];
    }
  }

  /** Main result: every name is its parts between slashes and backslashes. It is refused as absolute exactly when
      it has a colon or begins with a separator, as a traversal when one part is `..`, and leads to
      its naming parts otherwise. */
  lemma EveryNameJoins(name: Bytes) returns (parts: seq<Bytes>)
    ensures parts != [] && NoSeparators(parts) && Slashed(name) == Spell(parts)
    ensures SafeJoin(name)
      == if 58 in name || (name != [] && (name[0] == 47 || name[0] == 92)) then Err(AbsolutePath)
         else if [46, 46] in parts then Err(Traversal)
         else Ok(Naming(parts))
  {
    var s := Slashed(name);
    parts := Split(s);
    SplitSpells(s);
    ComponentsMean(parts);
    forall part, b: byte | part in parts && b in part
      ensures b != 47 && b != 92
    {
      var k :| 0 <= k < |parts| && parts[k] == part;
      SplitParts(s, k);
    }
    if 58 in name {
      var i :| 0 <= i < |name| && name[i] == 58;
      assert s[i] == 58;
    }
    if 58 in s {
      var i :| 0 <= i < |s| && s[i] == 58;
      assert name[i] == 58;
    }
  }

  /** Main result: an entry whose name ends in a slash makes the directories on its path and no file;
      it fails exactly when its name is refused or a file is in the way. */
  lemma DirectoriesAreMade(tree: Tree, name: Bytes, data: Bytes)
    requires name != [] && name[|name| - 1] == 47
    ensures var r := Place(tree, name, data);
      match SafeJoin(name)
      case Err(error) => r == Outcome(tree, Some(error))
      case Ok(path) =>
        if exists i :: 0 <= i <= |path| && path[..i] in tree.files then r == Outcome(tree, Some(NotADirectory))
        else
          && r.failure == None && r.tree.files == tree.files
          && forall d :: d in r.tree.dirs <==> d in tree.dirs || exists i :: 0 <= i <= |path| && d == path[..i]
  {
  }

  /** Main result: any other entry makes the directories above its path and then its file, with its data; it fails
      exactly when its name is refused, a file is in the way, or a directory stands at its path. */
  lemma FilesArePlaced(tree: Tree, name: Bytes, data: Bytes, path: Path)
    requires (name == [] || name[|name| - 1] != 47) && SafeJoin(name) == Ok(path) && path != []
    ensures var r := Place(tree, name, data);
      if exists i :: 0 <= i < |path| && path[..i] in tree.files then r == Outcome(tree, Some(NotADirectory))
      else
        && (forall d :: d in r.tree.dirs <==> d in tree.dirs || exists i :: 0 <= i < |path| && d == path[..i])
        && (if path in tree.dirs then r.failure == Some(IsADirectory) && r.tree.files == tree.files
            else r.failure == None && r.tree.files == tree.files[path := data])
  {
    var parent := path[..|path| - 1];
    forall i | 0 <= i < |path|
      ensures path[..i] == parent[..i] && path[..i] != path
    {
      assert |path[..i]| == i;
    }
  }
}
