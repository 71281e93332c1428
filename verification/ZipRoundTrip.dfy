/** What extracting an archive that the writer made does: exactly what its list of files says. */
module ZipRoundTrip {

  import opened ZipWriter
  import opened ZipLayout
  import opened ZipReader
  import opened Wrappers

  /** Placing the files one by one, with the limits of the reader and no archive in between. */
  function PlaceAll(place: Placer, files: seq<File>, k: nat, total: nat, tree: Tree): Outcome
    requires k <= |files|
    decreases |files| - k
  {
    if k == |files| then Outcome(tree, None)
    else
      var f := files[k];
      if !Utf8(f.name) then Outcome(tree, Some(NameNotUtf8))
      else
        var taken := Take(place, f.name, f.data, |f.data|, k, total, tree);
        if taken.failure != None then taken else PlaceAll(place, files, k + 1, total + |f.data|, taken.tree)
  }

  // ---- The archive says what the list says ------------------------------------------------------

  function LookOf(f: File, next: nat): Look {
    if !Utf8(f.name) then Bad(NameNotUtf8) else Found(Entry(f.name, f.data, |f.data|, next))
  }

  lemma LocalLook(bytes: Bytes, at: nat, f: File, next: nat)
    requires LocalAt(bytes, at, f) && next == at + 30 + |f.name| + |f.data|
    ensures LookAt(bytes, at) == LookOf(f, next)
  {
  }

  lemma CentralLook(bytes: Bytes, at: nat, f: File, offset: nat)
    requires Holds(bytes, at, Header(CentralFields(f, offset)))
    ensures LookAt(bytes, at) == Done
  {
    var fields := CentralFields(f, offset);
    Limits();
    CentralPlaces(f, offset, fields);
    EncodedLength(fields, 17);
    assert fields[0] == Field(CENTRAL_SIGNATURE, 4);
    NumberOf(bytes, at, fields, 0, 0, CENTRAL_SIGNATURE, 4);
  }

  lemma {:induction false} UnpackFiles(
    place: Placer, files: seq<File>, k: nat, total: nat, tree: Tree, bytes: Bytes, at: seq<nat>)
    requires k <= |files| && |at| == |files| + 1 && LookAt(bytes, at[|files|]) == Done
    requires forall i {:trigger files[i]} :: 0 <= i < |files| ==> LookAt(bytes, at[i]) == LookOf(files[i], at[i + 1])
    ensures Unpack(place, bytes, at[k], k, total, tree) == PlaceAll(place, files, k, total, tree)
    decreases |files| - k
  {
    if k < |files| {
      var f := files[k];
      var taken := Take(place, f.name, f.data, |f.data|, k, total, tree);
      UnpackFiles(place, files, k + 1, total + |f.data|, taken.tree, bytes, at);
    }
  }

  lemma LocalLooks(f: File, bytes: Bytes, locals: seq<Bytes>, k: nat, at: nat, next: nat)
    requires k < |locals| && locals[k] == Local(f) && Fits(f)
    requires at == |Joined(locals, k)| && next == |Joined(locals, k + 1)|
    requires Holds(bytes, 0, Joined(locals, |locals|))
    ensures LookAt(bytes, at) == LookOf(f, next)
  {
    LocalPart(f, bytes, locals, k, at);
    LocalLook(bytes, at, f, next);
  }

  lemma LastLook(files: seq<File>, bytes: Bytes, centrals: seq<Bytes>, base: nat)
    requires centrals == CentralParts(files)
    requires Holds(bytes, base, Joined(centrals, |centrals|)) && |bytes| == base + |Joined(centrals, |centrals|)| + 22
    ensures LookAt(bytes, base) == Done
  {
    if files != [] {
      var f, offset := files[0], LocalOffsets(files)[0];
      CentralPartAt(files, |files|, 0);
      JoinedHolds(bytes, base, centrals, |centrals|, 0);
      HalfOf(bytes, base, Header(CentralFields(f, offset)), f.name);
      CentralLook(bytes, base, f, offset);
    }
  }

  lemma ArchiveHolds(files: seq<File>, bytes: Bytes)
    requires bytes == Archive(files)
    ensures |bytes| == |Locals(files)| + |Centrals(files)| + 22
    ensures Holds(bytes, 0, Locals(files)) && Holds(bytes, |Locals(files)|, Centrals(files))
  {
    AssembledLaid(LocalParts(files), CentralParts(files), EndOf(files));
    EndLength(|files|, |Centrals(files)|, |Locals(files)|);
  }

  /**
   Main result: whatever the names are, extracting an archive does what placing its files
   one by one does, with the same failures and the same leftovers.
   */
  lemma ArchiveIsItsFiles(files: seq<File>, tree: Tree)
    requires AllFit(files)
    ensures Extracted(Archive(files), tree) == PlaceAll(Place, files, 0, 0, tree)
  {
    var bytes, locals := Archive(files), LocalParts(files);
    ArchiveHolds(files, bytes);
    var at := Starts(0, locals);
    forall i | 0 <= i < |files|
      ensures LookAt(bytes, at[i]) == LookOf(files[i], at[i + 1])
    {
      LocalPartAt(files, |files|, i);
      LocalLooks(files[i], bytes, locals, i, at[i], at[i + 1]);
    }
    LastLook(files, bytes, CentralParts(files), |Locals(files)|);
    UnpackFiles(Place, files, 0, 0, tree, bytes, at);
  }

  // ---- Which lists come back exactly ------------------------------------------------------------

  function Total(files: seq<File>, n: nat): nat
    requires n <= |files|
  {
    if n == 0 then 0 else Total(files, n - 1) + |files[n - 1].data|
  }

  /** The name spells a file below the destination. */
  predicate FileName(name: Bytes) {
    && name != [] && name[|name| - 1] != SLASH
    && SafeJoin(name).Ok? && SafeJoin(name).value != []
  }

  function PathOf(f: File): Path {
    if SafeJoin(f.name).Ok? then SafeJoin(f.name).value else []
  }

  /** Neither path leads through the other. */
  predicate Apart(p: Path, q: Path) {
    !(p <= q) && !(q <= p)
  }

  predicate ApartFrom(files: seq<File>, k: nat)
    requires k < |files|
  {
    forall i :: 0 <= i < k ==> Apart(PathOf(files[i]), PathOf(files[k]))
  }

  /** The tree holds exactly the first `n` files, below exactly the directories they need. */
  ghost predicate Restored(files: seq<File>, n: nat, tree: Tree)
    requires n <= |files|
  {
    && |tree.files| == n
    && (forall k :: 0 <= k < n ==>
          PathOf(files[k]) in tree.files && tree.files[PathOf(files[k])] == files[k].data)
    && (forall p :: p in tree.files ==> exists k :: 0 <= k < n && PathOf(files[k]) == p)
    && (forall d :: d in tree.dirs <==> d == [] || exists k :: 0 <= k < n && d < PathOf(files[k]))
  }

  ghost predicate AddsOne(place: Placer) {
    forall tree, name, data :: |place(tree, name, data).tree.files| <= |tree.files| + 1
  }

  lemma PlaceAddsOne(tree: Tree, name: Bytes, data: Bytes)
    ensures |Place(tree, name, data).tree.files| <= |tree.files| + 1
  {
  }

  lemma {:induction false} PlaceAllAdds(place: Placer, files: seq<File>, k: nat, total: nat, tree: Tree)
    requires k <= |files|
    requires AddsOne(place)
    ensures |PlaceAll(place, files, k, total, tree).tree.files| <= |tree.files| + |files| - k
    decreases |files| - k
  {
    if k < |files| {
      var f := files[k];
      var taken := Take(place, f.name, f.data, |f.data|, k, total, tree);
      PlaceAllAdds(place, files, k + 1, total + |f.data|, taken.tree);
    }
  }

  lemma FileInTheWay(files: seq<File>, k: nat, tree: Tree, path: Path, parent: Path)
    requires k <= |files| && Restored(files, k, tree) && path != [] && parent == path[..|path| - 1]
    requires CreateDirs(tree, parent).Err?
    ensures exists i :: 0 <= i < k && PathOf(files[i]) < path
  {
    var i :| 0 <= i <= |parent| && parent[..i] in tree.files;
    var j :| 0 <= j < k && PathOf(files[j]) == parent[..i];
    assert PathOf(files[j]) < path;
  }

  lemma ParentsBlocked(files: seq<File>, k: nat, tree: Tree, path: Path, parent: Path, i: nat)
    requires i < k <= |files| && PathOf(files[i]) in tree.files && PathOf(files[i]) < path
    requires path != [] && parent == path[..|path| - 1]
    ensures CreateDirs(tree, parent).Err?
  {
    var p := PathOf(files[i]);
    assert p == parent[..|p|];
  }

  /** Making the parents fails exactly when an earlier file is one of them. */
  lemma ParentsMade(files: seq<File>, k: nat, tree: Tree, path: Path, parent: Path)
    requires k <= |files| && Restored(files, k, tree) && path != [] && parent == path[..|path| - 1]
    ensures CreateDirs(tree, parent).Err? <==> exists i :: 0 <= i < k && PathOf(files[i]) < path
  {
    if CreateDirs(tree, parent).Err? {
      FileInTheWay(files, k, tree, path, parent);
    } else if i :| 0 <= i < k && PathOf(files[i]) < path {
      ParentsBlocked(files, k, tree, path, parent, i);
    }
  }

  /** Writing the file then fails exactly when it is a directory that an earlier file needs. */
  lemma NotNeeded(files: seq<File>, k: nat, tree: Tree, path: Path, parent: Path)
    requires k <= |files| && Restored(files, k, tree) && path != [] && parent == path[..|path| - 1]
    ensures path in tree.dirs + Prefixes(parent) <==> exists i :: 0 <= i < k && path < PathOf(files[i])
  {
    assert path !in Prefixes(parent);
  }

  lemma FileAdded(files: seq<File>, k: nat, tree: Tree, files': map<Path, Bytes>)
    requires k < |files| && Restored(files, k, tree) && ApartFrom(files, k)
    requires files' == tree.files[PathOf(files[k]) := files[k].data]
    ensures |files'| == k + 1
    ensures forall i :: 0 <= i < k + 1 ==> PathOf(files[i]) in files' && files'[PathOf(files[i])] == files[i].data
  {
    var path := PathOf(files[k]);
    forall i | 0 <= i < k
      ensures PathOf(files[i]) != path
    {
      ApartMeans(PathOf(files[i]), path);
    }
  }

  lemma FilesKnown(files: seq<File>, k: nat, tree: Tree, files': map<Path, Bytes>)
    requires k < |files| && Restored(files, k, tree)
    requires files' == tree.files[PathOf(files[k]) := files[k].data]
    ensures forall p :: p in files' ==> exists i :: 0 <= i < k + 1 && PathOf(files[i]) == p
  {
    forall p | p in files'
      ensures exists i :: 0 <= i < k + 1 && PathOf(files[i]) == p
    {
      if p == PathOf(files[k]) {
        assert PathOf(files[k]) == p;
      }
    }
  }

  lemma PlacedFile(files: seq<File>, k: nat, tree: Tree, tree': Tree, path: Path, parent: Path)
    requires k < |files| && Restored(files, k, tree) && path == PathOf(files[k]) && path != []
    requires parent == path[..|path| - 1] && ApartFrom(files, k)
    requires tree' == WithFile(tree, path, parent, files[k].data)
    ensures Restored(files, k + 1, tree')
  {
    FileAdded(files, k, tree, tree'.files);
    FilesKnown(files, k, tree, tree'.files);
    DirsAdded(files, k, tree, tree', path, parent);
  }

  /** The directories of a file are the proper prefixes of its path. */
  lemma ParentPrefixes(path: Path, parent: Path, d: Path)
    requires path != [] && parent == path[..|path| - 1]
    ensures d in Prefixes(parent) <==> d < path
  {
    if d < path {
      assert d == parent[..|d|];
    }
  }

  lemma DirsAdded(files: seq<File>, k: nat, tree: Tree, tree': Tree, path: Path, parent: Path)
    requires k < |files| && Restored(files, k, tree) && path == PathOf(files[k]) && path != []
    requires parent == path[..|path| - 1] && tree'.dirs == tree.dirs + Prefixes(parent)
    ensures forall d :: d in tree'.dirs <==> d == [] || exists i :: 0 <= i < k + 1 && d < PathOf(files[i])
  {
    forall d
      ensures d in tree'.dirs <==> d == [] || exists i :: 0 <= i < k + 1 && d < PathOf(files[i])
    {
      ParentPrefixes(path, parent, d);
    }
  }

  lemma ApartMeans(p: Path, q: Path)
    ensures Apart(p, q) <==> !(p < q) && !(q < p) && p != q
  {
  }

  function WithFile(tree: Tree, path: Path, parent: Path, data: Bytes): Tree {
    Tree(tree.files[path := data], tree.dirs + Prefixes(parent))
  }

  lemma PlaceFile(tree: Tree, f: File, path: Path, parent: Path)
    requires FileName(f.name) && path == PathOf(f) && parent == path[..|path| - 1]
    ensures var r := Place(tree, f.name, f.data);
      && (r.failure == None <==> CreateDirs(tree, parent).Ok? && path !in tree.dirs + Prefixes(parent))
      && (r.failure == None ==> r.tree == WithFile(tree, path, parent, f.data))
  {
  }

  lemma PlaceOther(tree: Tree, f: File)
    requires !FileName(f.name) && [] in tree.dirs
    ensures var r := Place(tree, f.name, f.data); r.failure == None ==> r.tree.files == tree.files
  {
  }

  lemma EarlierPaths(files: seq<File>, k: nat, tree: Tree)
    requires k < |files| && Restored(files, k, tree)
    ensures PathOf(files[k]) in tree.files <==> exists i :: 0 <= i < k && PathOf(files[i]) == PathOf(files[k])
  {
  }

  lemma ApartFromMeans(files: seq<File>, k: nat)
    requires k < |files|
    ensures var path := PathOf(files[k]);
      ApartFrom(files, k) <==>
      && !(exists i :: 0 <= i < k && PathOf(files[i]) < path)
      && !(exists i :: 0 <= i < k && path < PathOf(files[i]))
      && !(exists i :: 0 <= i < k && PathOf(files[i]) == path)
  {
    forall i | 0 <= i < k
      ensures Apart(PathOf(files[i]), PathOf(files[k])) <==>
        && !(PathOf(files[i]) < PathOf(files[k])) && !(PathOf(files[k]) < PathOf(files[i]))
        && PathOf(files[i]) != PathOf(files[k])
    {
      ApartMeans(PathOf(files[i]), PathOf(files[k]));
    }
  }

  lemma PlaceNamed(files: seq<File>, k: nat, tree: Tree, r: Outcome)
    requires k < |files| && Restored(files, k, tree) && FileName(files[k].name)
    requires r == Place(tree, files[k].name, files[k].data)
    ensures r.failure == None && |r.tree.files| == k + 1 <==> ApartFrom(files, k)
    ensures ApartFrom(files, k) ==> Restored(files, k + 1, r.tree)
  {
    var path := PathOf(files[k]);
    var parent := path[..|path| - 1];
    PlaceFile(tree, files[k], path, parent);
    ParentsMade(files, k, tree, path, parent);
    NotNeeded(files, k, tree, path, parent);
    ApartFromMeans(files, k);
    EarlierPaths(files, k, tree);
    if ApartFrom(files, k) {
      PlacedFile(files, k, tree, r.tree, path, parent);
    }
  }

  /** The name spells a file that is apart from all earlier ones. */
  predicate Fresh(files: seq<File>, k: nat)
    requires k < |files|
  {
    FileName(files[k].name) && ApartFrom(files, k)
  }

  /** What holds of the tree after the first files were restored. */
  type Progress = (nat, Tree) -> bool

  ghost function RestoredTo(files: seq<File>): Progress {
    (n: nat, tree: Tree) => n <= |files| && Restored(files, n, tree)
  }

  /** A fresh file is placed beside the earlier ones. */
  ghost predicate Keeps(place: Placer, inv: Progress, files: seq<File>, k: nat, tree: Tree)
    requires k < |files|
  {
    var r := place(tree, files[k].name, files[k].data);
    Fresh(files, k) ==> r.failure == None && inv(k + 1, r.tree)
  }

  /** Any other fails, or leaves no more files than there were. */
  ghost predicate Refuses(place: Placer, files: seq<File>, k: nat, tree: Tree)
    requires k < |files|
  {
    var r := place(tree, files[k].name, files[k].data);
    !Fresh(files, k) ==> r.failure != None || |r.tree.files| <= k
  }

  /** One file after some that are restored: it comes to stand beside them exactly when it is fresh. */
  lemma PlaceOne(files: seq<File>, k: nat, tree: Tree)
    requires k < |files| && Restored(files, k, tree)
    ensures Keeps(Place, RestoredTo(files), files, k, tree) && Refuses(Place, files, k, tree)
  {
    var r := Place(tree, files[k].name, files[k].data);
    PlaceAddsOne(tree, files[k].name, files[k].data);
    if FileName(files[k].name) {
      PlaceNamed(files, k, tree, r);
    } else {
      PlaceOther(tree, files[k]);
    }
  }

  // ---- The round trip -------------------------------------------------------------------------------

  /** The first `n` files respect the limits, and their names spell files that are apart from each other. */
  predicate StorableTo(files: seq<File>, n: nat)
    requires n <= |files|
  {
    n == 0 ||
    (&& StorableTo(files, n - 1)
     && n <= MAX_PACKAGE_FILES && Total(files, n) <= MAX_PACKAGE_BYTES
     && Utf8(files[n - 1].name) && FileName(files[n - 1].name) && ApartFrom(files, n - 1))
  }

  predicate Storable(files: seq<File>) {
    StorableTo(files, |files|)
  }

  lemma {:induction false} StorablePrefix(files: seq<File>, k: nat, n: nat)
    requires k <= n <= |files| && StorableTo(files, n)
    ensures StorableTo(files, k)
  {
    if k < n {
      StorablePrefix(files, k, n - 1);
    }
  }

  /** The placer restores one fresh file after another, and never adds more than one. */
  ghost predicate Exact(place: Placer, inv: Progress, files: seq<File>) {
    && (forall k, tree {:trigger Keeps(place, inv, files, k, tree)} ::
          0 <= k < |files| && inv(k, tree) ==> Keeps(place, inv, files, k, tree))
    && (forall k, tree {:trigger Refuses(place, files, k, tree)} ::
          0 <= k < |files| && inv(k, tree) ==> Refuses(place, files, k, tree))
    && AddsOne(place)
  }

  lemma TakeFresh(place: Placer, inv: Progress, files: seq<File>, k: nat, total: nat, tree: Tree, taken: Outcome)
    requires k < |files| && StorableTo(files, k + 1) && Keeps(place, inv, files, k, tree) && total == Total(files, k)
    requires taken == Take(place, files[k].name, files[k].data, |files[k].data|, k, total, tree)
    ensures Utf8(files[k].name) && taken.failure == None && inv(k + 1, taken.tree)
  {
  }

  lemma TakeOther(place: Placer, files: seq<File>, k: nat, total: nat, tree: Tree, taken: Outcome)
    requires k < |files| && StorableTo(files, k) && !StorableTo(files, k + 1)
    requires Refuses(place, files, k, tree) && total == Total(files, k)
    requires taken == Take(place, files[k].name, files[k].data, |files[k].data|, k, total, tree)
    ensures !Utf8(files[k].name) || taken.failure != None || |taken.tree.files| <= k
  {
  }

  /** As many files came back as the list has exactly when it is storable, and then all is restored. */
  ghost predicate Exactly(files: seq<File>, r: Outcome) {
    && (r.failure == None && |r.tree.files| == |files| <==> Storable(files))
    && (Storable(files) ==> Restored(files, |files|, r.tree))
  }

  lemma PlaceAllNext(
    place: Placer, files: seq<File>, k: nat, total: nat, tree: Tree, taken: Outcome, sum: nat, r: Outcome)
    requires k < |files| && Utf8(files[k].name) && taken.failure == None && sum == total + |files[k].data|
    requires taken == Take(place, files[k].name, files[k].data, |files[k].data|, k, total, tree)
    requires r == PlaceAll(place, files, k, total, tree)
    ensures r == PlaceAll(place, files, k + 1, sum, taken.tree)
  {
  }

  lemma PlaceAllStops(place: Placer, files: seq<File>, k: nat, total: nat, tree: Tree, taken: Outcome)
    requires k < |files| && (!Utf8(files[k].name) || taken.failure != None)
    requires taken == Take(place, files[k].name, files[k].data, |files[k].data|, k, total, tree)
    ensures PlaceAll(place, files, k, total, tree).failure != None
  {
  }

  /** After one file that is not restored, some file is always missing. */
  lemma OneMissing(place: Placer, files: seq<File>, k: nat, total: nat, tree: Tree, taken: Outcome, r: Outcome)
    requires k < |files| && AddsOne(place)
    requires taken == Take(place, files[k].name, files[k].data, |files[k].data|, k, total, tree)
    requires !Utf8(files[k].name) || taken.failure != None || |taken.tree.files| <= k
    requires r == PlaceAll(place, files, k, total, tree)
    ensures r.failure != None || |r.tree.files| < |files|
  {
    if Utf8(files[k].name) && taken.failure == None {
      var sum := total + |files[k].data|;
      PlaceAllNext(place, files, k, total, tree, taken, sum, r);
      PlaceAllAdds(place, files, k + 1, sum, taken.tree);
    } else {
      PlaceAllStops(place, files, k, total, tree, taken);
    }
  }

  lemma FreshStep(
    place: Placer, inv: Progress, files: seq<File>, k: nat, total: nat, tree: Tree, sum: nat, r: Outcome)
    returns (next: Tree)
    requires k < |files| && StorableTo(files, k + 1) && Keeps(place, inv, files, k, tree)
    requires total == Total(files, k) && sum == total + |files[k].data|
    requires r == PlaceAll(place, files, k, total, tree)
    ensures inv(k + 1, next) && r == PlaceAll(place, files, k + 1, sum, next)
  {
    var taken := Take(place, files[k].name, files[k].data, |files[k].data|, k, total, tree);
    TakeFresh(place, inv, files, k, total, tree, taken);
    PlaceAllNext(place, files, k, total, tree, taken, sum, r);
    next := taken.tree;
  }

  lemma OtherStep(place: Placer, files: seq<File>, k: nat, total: nat, tree: Tree, r: Outcome)
    requires k < |files| && StorableTo(files, k) && !StorableTo(files, k + 1) && Refuses(place, files, k, tree)
    requires AddsOne(place) && total == Total(files, k) && r == PlaceAll(place, files, k, total, tree)
    ensures r.failure != None || |r.tree.files| < |files|
  {
    var taken := Take(place, files[k].name, files[k].data, |files[k].data|, k, total, tree);
    TakeOther(place, files, k, total, tree, taken);
    OneMissing(place, files, k, total, tree, taken, r);
  }

  lemma {:induction false} AllFresh(
    place: Placer, inv: Progress, files: seq<File>, k: nat, total: nat, tree: Tree, r: Outcome)
    requires k <= |files| && inv(k, tree) && Storable(files) && Exact(place, inv, files)
    requires total == Total(files, k) && r == PlaceAll(place, files, k, total, tree)
    ensures r.failure == None && inv(|files|, r.tree)
    decreases |files| - k
  {
    if k < |files| {
      var sum := total + |files[k].data|;
      StorablePrefix(files, k + 1, |files|);
      var next := FreshStep(place, inv, files, k, total, tree, sum, r);
      AllFresh(place, inv, files, k + 1, sum, next, r);
    }
  }

  lemma {:induction false} SomeOther(
    place: Placer, inv: Progress, files: seq<File>, k: nat, total: nat, tree: Tree, r: Outcome)
    requires k <= |files| && inv(k, tree) && Exact(place, inv, files)
    requires StorableTo(files, k) && !Storable(files)
    requires total == Total(files, k) && r == PlaceAll(place, files, k, total, tree)
    ensures r.failure != None || |r.tree.files| < |files|
    decreases |files| - k
  {
    if StorableTo(files, k + 1) {
      var sum := total + |files[k].data|;
      var next := FreshStep(place, inv, files, k, total, tree, sum, r);
      SomeOther(place, inv, files, k + 1, sum, next, r);
    } else {
      OtherStep(place, files, k, total, tree, r);
    }
  }

  lemma PlaceIsExact(files: seq<File>)
    ensures Exact(Place, RestoredTo(files), files)
  {
    forall k, tree | 0 <= k < |files| && RestoredTo(files)(k, tree)
      ensures Keeps(Place, RestoredTo(files), files, k, tree) && Refuses(Place, files, k, tree)
    {
      PlaceOne(files, k, tree);
    }
    forall tree, name, data
      ensures |Place(tree, name, data).tree.files| <= |tree.files| + 1
    {
      PlaceAddsOne(tree, name, data);
    }
  }

  /**
   Main result: extracting the archive of a list of files below an empty directory succeeds
   and brings back as many files as the list has exactly when the list is storable, and then
   every file is back with its bytes, with no other files and only the directories they need.
   */
  lemma RoundTrip(files: seq<File>)
    requires AllFit(files)
    ensures Exactly(files, Extracted(Archive(files), EMPTY))
  {
    ArchiveIsItsFiles(files, EMPTY);
    PlaceIsExact(files);
    var r := PlaceAll(Place, files, 0, 0, EMPTY);
    if Storable(files) {
      AllFresh(Place, RestoredTo(files), files, 0, 0, EMPTY, r);
    } else {
      SomeOther(Place, RestoredTo(files), files, 0, 0, EMPTY, r);
    }
  }
}
