/**
 What becomes of the checksums that the writer stores: the package reader
 (crates/host-core/src/plugins.rs) never looks at them, so it takes an archive whose data was
 replaced for the archive of the replaced files. A reader of the central directory notices.
 */
module ZipChecksums {

  import Crc32
  import opened ZipWriter
  import opened ZipLayout
  import opened ZipReader
  import opened ZipRoundTrip
  import opened Wrappers

  // ---- Other checksums, same outcome ------------------------------------------------------------

  /** From an offset on, the archives differ at most in the checksums of the local headers that are walked. */
  predicate AlikeFrom(a: Bytes, b: Bytes, at: nat)
    decreases |a| - at
  {
    && |a| == |b| && at <= |a|
    && if !LookAt(a, at).Found? then a[at..] == b[at..]
       else
         var next := LookAt(a, at).entry.next;
         next >= at + 30 && a[at..at + 14] == b[at..at + 14] && a[at + 18..next] == b[at + 18..next]
         && AlikeFrom(a, b, next)
  }

  lemma {:induction false} SameNumber(a: Bytes, b: Bytes, at: nat, width: nat)
    requires at + width <= |a| && at + width <= |b| && forall i :: at <= i < at + width ==> a[i] == b[i]
    ensures Number(a, at, width) == Number(b, at, width)
    decreases width
  {
    if width > 0 {
      SameNumber(a, b, at + 1, width - 1);
    }
  }

  lemma SameBytes(a: Bytes, b: Bytes, i: nat, j: nat)
    requires i <= j <= |a| && |a| == |b| && a[i..j] == b[i..j]
    ensures forall k :: i <= k < j ==> a[k] == b[k]
  {
    forall k | i <= k < j
      ensures a[k] == b[k]
    {
      assert a[k] == a[i..j][k - i];
    }
  }

  lemma SameHeader(a: Bytes, b: Bytes, at: nat)
    requires at + 30 <= |a| == |b|
    requires forall i :: at <= i < at + 14 || at + 18 <= i < at + 30 ==> a[i] == b[i]
    ensures Number(a, at, 4) == Number(b, at, 4) && Number(a, at + 8, 2) == Number(b, at + 8, 2)
    ensures Number(a, at + 18, 4) == Number(b, at + 18, 4) && Number(a, at + 22, 4) == Number(b, at + 22, 4)
    ensures Number(a, at + 26, 2) == Number(b, at + 26, 2) && Number(a, at + 28, 2) == Number(b, at + 28, 2)
  {
    SameNumber(a, b, at, 4);
    SameNumber(a, b, at + 8, 2);
    SameNumber(a, b, at + 18, 4);
    SameNumber(a, b, at + 22, 4);
    SameNumber(a, b, at + 26, 2);
    SameNumber(a, b, at + 28, 2);
  }

  /** Where the data of a local header ends. */
  function DataEnd(bytes: Bytes, at: nat): nat
    requires at + 30 <= |bytes|
  {
    at + 30 + Number(bytes, at + 26, 2) + Number(bytes, at + 28, 2) + Number(bytes, at + 18, 4)
  }

  lemma SameLook(a: Bytes, b: Bytes, at: nat, end: nat)
    requires at + 30 <= end <= |a| == |b| && (DataEnd(a, at) <= end || end == |a|)
    requires forall i :: at <= i < at + 14 || at + 18 <= i < end ==> a[i] == b[i]
    ensures LookAt(a, at) == LookAt(b, at)
  {
    SameHeader(a, b, at);
    if DataEnd(a, at) <= |a| {
      var nameEnd := at + 30 + Number(a, at + 26, 2);
      var dataStart := nameEnd + Number(a, at + 28, 2);
      assert a[at + 30..nameEnd] == b[at + 30..nameEnd];
      assert a[dataStart..DataEnd(a, at)] == b[dataStart..DataEnd(a, at)];
    }
  }

  /** Reading one local header does not depend on its checksum. */
  lemma LookIgnoresChecksum(a: Bytes, b: Bytes, at: nat)
    requires AlikeFrom(a, b, at)
    ensures LookAt(a, at) == LookAt(b, at)
  {
    if at + 30 <= |a| {
      var look := LookAt(a, at);
      if look.Found? {
        var next := look.entry.next;
        assert next == DataEnd(a, at);
        SameBytes(a, b, at, at + 14);
        SameBytes(a, b, at + 18, next);
        SameLook(a, b, at, next);
      } else {
        SameBytes(a, b, at, |a|);
        SameLook(a, b, at, |a|);
      }
    }
  }

  lemma AlikeNext(a: Bytes, b: Bytes, at: nat, e: Entry)
    requires AlikeFrom(a, b, at) && LookAt(a, at) == Found(e)
    ensures LookAt(b, at) == Found(e) && AlikeFrom(a, b, e.next)
  {
    LookIgnoresChecksum(a, b, at);
  }

  lemma UnpackBoth(
    place: Placer, a: Bytes, b: Bytes, at: nat, e: Entry, count: nat, total: nat, tree: Tree, taken: Outcome)
    requires LookAt(a, at) == Found(e) && LookAt(b, at) == Found(e)
    requires taken == Take(place, e.name, e.data, e.size, count, total, tree)
    requires Unpack(place, a, e.next, count + 1, total + e.size, taken.tree)
          == Unpack(place, b, e.next, count + 1, total + e.size, taken.tree)
    ensures Unpack(place, a, at, count, total, tree) == Unpack(place, b, at, count, total, tree)
  {
  }

  lemma UnpackEnds(place: Placer, a: Bytes, b: Bytes, at: nat, count: nat, total: nat, tree: Tree)
    requires LookAt(a, at) == LookAt(b, at) && !LookAt(a, at).Found?
    ensures Unpack(place, a, at, count, total, tree) == Unpack(place, b, at, count, total, tree)
  {
  }

  lemma {:induction false} UnpackIgnoresChecksums(
    place: Placer, a: Bytes, b: Bytes, at: nat, count: nat, total: nat, tree: Tree)
    requires AlikeFrom(a, b, at)
    ensures Unpack(place, a, at, count, total, tree) == Unpack(place, b, at, count, total, tree)
    decreases |a| - at
  {
    if LookAt(a, at).Found? {
      var e := LookAt(a, at).entry;
      AlikeNext(a, b, at, e);
      var taken := Take(place, e.name, e.data, e.size, count, total, tree);
      UnpackIgnoresChecksums(place, a, b, e.next, count + 1, total + e.size, taken.tree);
      UnpackBoth(place, a, b, at, e, count, total, tree, taken);
    } else {
      LookIgnoresChecksum(a, b, at);
      UnpackEnds(place, a, b, at, count, total, tree);
    }
  }

  /**
   Main result: whatever stands in the checksums of the local headers, an extraction does the same,
   with the same failures and the same leftovers.
   */
  lemma ExtractionIgnoresChecksums(a: Bytes, b: Bytes, tree: Tree)
    requires AlikeFrom(a, b, 0)
    ensures Extracted(a, tree) == Extracted(b, tree)
  {
    UnpackIgnoresChecksums(Place, a, b, 0, 0, 0, tree);
  }

  // ---- Other data, same checksums ------------------------------------------------------------------

  /** A local header of one file with its name, before other data of the same length. */
  function Replaced(f: File, data: Bytes): Bytes {
    Header(LocalFields(f)) + f.name + data
  }

  /** The archive of the files, with the data bytes of one of them replaced. */
  function Tampered(files: seq<File>, k: nat, data: Bytes): Bytes
    requires k < |files|
  {
    Assemble(LocalParts(files)[k := Replaced(files[k], data)], CentralParts(files), EndOf(files))
  }

  function With(f: File, data: Bytes): File {
    File(f.name, data)
  }

  lemma LocalLength(f: File)
    ensures |Local(f)| == 30 + |f.name| + |f.data| && |Header(LocalFields(f))| == 30
  {
    LocalPlaces(f, LocalFields(f));
    EncodedLength(LocalFields(f), 11);
  }

  lemma ReplacedParts(bytes: Bytes, at: nat, f: File, data: Bytes)
    requires Fits(f) && |data| == |f.data| && Holds(bytes, at, Replaced(f, data))
    ensures |Replaced(f, data)| == 30 + |f.name| + |f.data| && at + 30 + |f.name| + |data| <= |bytes|
    ensures Holds(bytes, at, Header(LocalFields(f))) && bytes[at + 30..at + 30 + |f.name|] == f.name
    ensures bytes[at + 30 + |f.name|..at + 30 + |f.name| + |data|] == data
  {
    LocalLength(f);
    PartOf(bytes, at, Header(LocalFields(f)), f.name, data);
  }

  lemma ReplacedLook(bytes: Bytes, at: nat, f: File, data: Bytes, next: nat)
    requires Fits(f) && |data| == |f.data| && Holds(bytes, at, Replaced(f, data))
    requires next == at + 30 + |f.name| + |f.data|
    ensures LookAt(bytes, at) == LookOf(With(f, data), next)
  {
    ReplacedParts(bytes, at, f, data);
    LocalNumbers(bytes, at, f);
  }

  lemma ReplacedLocal(bytes: Bytes, at: nat, f: File, data: Bytes)
    requires Fits(f) && |data| == |f.data| && Holds(bytes, at, Replaced(f, data))
    ensures LocalAt(bytes, at, With(f, data)) <==> Crc(data) == Crc(f.data)
  {
    ReplacedParts(bytes, at, f, data);
    LocalNumbers(bytes, at, f);
  }

  /** Parts of the same lengths begin at the same places. */
  lemma {:induction false} SameStarts(a: seq<Bytes>, b: seq<Bytes>, n: nat)
    requires |a| == |b| && n <= |a| && forall i :: 0 <= i < |a| ==> |a[i]| == |b[i]|
    ensures |Joined(a, n)| == |Joined(b, n)|
  {
    if n > 0 {
      SameStarts(a, b, n - 1);
    }
  }

  /** The local parts of a tampered archive, and where they begin. */
  lemma TamperedParts(files: seq<File>, k: nat, data: Bytes, locals: seq<Bytes>)
    requires k < |files| && |data| == |files[k].data|
    requires locals == LocalParts(files)[k := Replaced(files[k], data)]
    ensures forall n :: 0 <= n <= |files| ==> |Joined(locals, n)| == |Joined(LocalParts(files), n)|
  {
    LocalPartAt(files, |files|, k);
    LocalLength(files[k]);
    forall n | 0 <= n <= |files|
      ensures |Joined(locals, n)| == |Joined(LocalParts(files), n)|
    {
      SameStarts(locals, LocalParts(files), n);
    }
  }

  lemma TamperedLook(
    files: seq<File>, k: nat, data: Bytes, bytes: Bytes, locals: seq<Bytes>, i: nat, at: nat, next: nat)
    requires k < |files| && |data| == |files[k].data| && i < |files| && Fits(files[i])
    requires locals == LocalParts(files)[k := Replaced(files[k], data)]
    requires Holds(bytes, 0, Joined(locals, |locals|))
    requires at == |Joined(locals, i)| && next == |Joined(locals, i + 1)|
    ensures LookAt(bytes, at) == LookOf(files[k := With(files[k], data)][i], next)
  {
    LocalPartAt(files, |files|, i);
    if i == k {
      JoinedHolds(bytes, 0, locals, |locals|, k);
      LocalLength(files[k]);
      ReplacedLook(bytes, at, files[k], data, next);
    } else {
      LocalLooks(files[i], bytes, locals, i, at, next);
    }
  }

  /** Main result: extracting an archive with replaced data does what placing the replaced files does. */
  lemma TamperedIsExtracted(files: seq<File>, k: nat, data: Bytes, tree: Tree)
    requires AllFit(files) && k < |files| && |data| == |files[k].data|
    ensures Extracted(Tampered(files, k, data), tree) == PlaceAll(Place, files[k := With(files[k], data)], 0, 0, tree)
  {
    var bytes, locals := Tampered(files, k, data), LocalParts(files)[k := Replaced(files[k], data)];
    AssembledLaid(locals, CentralParts(files), EndOf(files));
    EndLength(|files|, |Centrals(files)|, |Locals(files)|);
    var at := Starts(0, locals);
    var files' := files[k := With(files[k], data)];
    forall i {:trigger files'[i]} | 0 <= i < |files'|
      ensures LookAt(bytes, at[i]) == LookOf(files'[i], at[i + 1])
    {
      assert Fits(files[i]);
      TamperedLook(files, k, data, bytes, locals, i, at[i], at[i + 1]);
    }
    LastLook(files, bytes, CentralParts(files), |Joined(locals, |locals|)|);
    UnpackFiles(Place, files', 0, 0, tree, bytes, at);
  }

  /** The same names, and data of the same lengths. */
  predicate SameShape(files: seq<File>, files': seq<File>) {
    |files| == |files'| &&
    forall i {:trigger files'[i]} :: 0 <= i < |files'| ==>
      files'[i].name == files[i].name && |files'[i].data| == |files[i].data|
  }

  lemma ShapeKeepsApart(files: seq<File>, files': seq<File>, k: nat)
    requires SameShape(files, files') && k < |files|
    ensures ApartFrom(files', k) <==> ApartFrom(files, k)
  {
    assert forall j :: 0 <= j < |files| ==> PathOf(files'[j]) == PathOf(files[j]);
  }

  lemma {:induction false} ShapeKeepsTotal(files: seq<File>, files': seq<File>, n: nat)
    requires SameShape(files, files') && n <= |files|
    ensures Total(files', n) == Total(files, n)
  {
    if n > 0 {
      ShapeKeepsTotal(files, files', n - 1);
      assert |files'[n - 1].data| == |files[n - 1].data|;
    }
  }

  lemma {:induction false} ShapeKeepsStorable(files: seq<File>, files': seq<File>, n: nat)
    requires SameShape(files, files') && n <= |files| && StorableTo(files, n)
    ensures StorableTo(files', n)
  {
    if n > 0 {
      ShapeKeepsStorable(files, files', n - 1);
      ShapeKeepsApart(files, files', n - 1);
      ShapeKeepsTotal(files, files', n);
      assert files'[n - 1].name == files[n - 1].name;
    }
  }

  /** The replaced data comes back without a failure whenever the files themselves would. */
  lemma TamperedComesBack(files: seq<File>, k: nat, data: Bytes)
    requires AllFit(files) && Storable(files) && k < |files| && |data| == |files[k].data|
    ensures var r := Extracted(Tampered(files, k, data), EMPTY);
      && r.failure == None && PathOf(files[k]) in r.tree.files && r.tree.files[PathOf(files[k])] == data
      && Restored(files[k := With(files[k], data)], |files|, r.tree)
  {
    var files' := files[k := With(files[k], data)];
    assert AllFit(files') by {
      forall i | 0 <= i < |files'|
        ensures Fits(files'[i])
      {
        assert Fits(files[i]);
      }
    }
    ShapeKeepsStorable(files, files', |files|);
    TamperedIsExtracted(files, k, data, EMPTY);
    ArchiveIsItsFiles(files', EMPTY);
    RoundTrip(files');
    assert PathOf(files'[k]) == PathOf(files[k]);
  }

  // ---- The directory notices --------------------------------------------------------------------------

  lemma TamperedLink(f: File, data: Bytes, bytes: Bytes, at: nat, local: nat)
    requires Fits(f) && |data| == |f.data| && Holds(bytes, local, Replaced(f, data))
    requires CentralAt(bytes, at, f, local)
    ensures Linked(bytes, at) == if Crc(data) == Crc(f.data) then Some(With(f, data)) else None
  {
    ReplacedParts(bytes, local, f, data);
    ReplacedLocal(bytes, local, f, data);
    LinkReads(bytes, at, f.name, data, |f.name|, |data|, local);
  }

  /** Every other central header leads to its file. */
  lemma OtherLinks(
    files: seq<File>, k: nat, data: Bytes, bytes: Bytes, locals: seq<Bytes>, i: nat, base: nat, at: nat)
    requires AllFit(files) && k < |files| && |data| == |files[k].data| && i < |files| && i != k
    requires locals == LocalParts(files)[k := Replaced(files[k], data)] && |Joined(locals, |locals|)| < U32
    requires Holds(bytes, 0, Joined(locals, |locals|)) && Holds(bytes, base, Joined(CentralParts(files), |files|))
    requires at == base + |Joined(CentralParts(files), i)|
    ensures |Joined(CentralParts(files), i + 1)| == |Joined(CentralParts(files), i)| + 46 + |files[i].name|
    ensures Links(bytes)(at) == Some(files[i])
  {
    TamperedParts(files, k, data, locals);
    OffsetAt(LocalParts(files), |files|, i);
    CentralPartAt(files, |files|, i);
    LocalPartAt(files, |files|, i);
    assert Fits(files[i]) && |Joined(locals, i)| == |Joined(LocalParts(files), i)|;
    FileLinked(files[i], bytes, locals, CentralParts(files), i, base, at);
  }

  /** The one of the replaced data leads to the replaced file or to nothing. */
  lemma ReplacedLinks(
    files: seq<File>, k: nat, data: Bytes, bytes: Bytes, locals: seq<Bytes>, base: nat, at: nat)
    requires AllFit(files) && k < |files| && |data| == |files[k].data|
    requires locals == LocalParts(files)[k := Replaced(files[k], data)] && |Joined(locals, |locals|)| < U32
    requires Holds(bytes, 0, Joined(locals, |locals|)) && Holds(bytes, base, Joined(CentralParts(files), |files|))
    requires at == base + |Joined(CentralParts(files), k)|
    ensures |Joined(CentralParts(files), k + 1)| == |Joined(CentralParts(files), k)| + 46 + |files[k].name|
    ensures Links(bytes)(at) == if Crc(data) == Crc(files[k].data) then Some(With(files[k], data)) else None
  {
    var local := |Joined(locals, k)|;
    TamperedParts(files, k, data, locals);
    OffsetAt(LocalParts(files), |files|, k);
    CentralPartAt(files, |files|, k);
    assert Fits(files[k]) && local == |Joined(LocalParts(files), k)|;
    JoinedGrows(locals, k, |locals|);
    CentralPart(files[k], bytes, base, CentralParts(files), k, local, at);
    JoinedHolds(bytes, 0, locals, |locals|, k);
    TamperedLink(files[k], data, bytes, at, local);
  }

  lemma TamperedLinkAt(
    files: seq<File>, k: nat, data: Bytes, bytes: Bytes, locals: seq<Bytes>, i: nat, base: nat, at: nat)
    requires AllFit(files) && k < |files| && |data| == |files[k].data| && i < |files|
    requires locals == LocalParts(files)[k := Replaced(files[k], data)] && |Joined(locals, |locals|)| < U32
    requires Holds(bytes, 0, Joined(locals, |locals|)) && Holds(bytes, base, Joined(CentralParts(files), |files|))
    requires at == base + |Joined(CentralParts(files), i)|
    ensures |Joined(CentralParts(files), i + 1)| == |Joined(CentralParts(files), i)| + 46 + |files[i].name|
    ensures Links(bytes)(at)
      == if i != k || Crc(data) == Crc(files[k].data) then Some(files[k := With(files[k], data)][i]) else None
  {
    if i == k {
      ReplacedLinks(files, k, data, bytes, locals, base, at);
    } else {
      OtherLinks(files, k, data, bytes, locals, i, base, at);
    }
  }

  /** What the first central headers lead to when the one of file `k` may be broken. */
  function Wanted(files: seq<File>, k: nat, sound: bool, n: nat): (want: seq<Option<File>>)
    requires n <= |files|
    ensures |want| == n
  {
    if n == 0 then []
    else Wanted(files, k, sound, n - 1) + [if n - 1 != k || sound then Some(files[n - 1]) else None]
  }

  lemma {:induction false} WantedAt(files: seq<File>, k: nat, sound: bool, n: nat, i: nat)
    requires i < n <= |files|
    ensures Wanted(files, k, sound, n)[i] == if i != k || sound then Some(files[i]) else None
  {
    if i < n - 1 {
      WantedAt(files, k, sound, n - 1, i);
    }
  }

  /** The central header at one place leads to what is wanted, and the next one follows it. */
  predicate LeadsTo(files: seq<File>, want: seq<Option<File>>, link: nat -> Option<File>, at: seq<nat>, i: nat)
    requires i < |files| == |want| && |at| == |files| + 1
  {
    link(at[i]) == want[i] && at[i + 1] == at[i] + 46 + |files[i].name|
  }

  predicate LeadTo(files: seq<File>, want: seq<Option<File>>, link: nat -> Option<File>, at: seq<nat>, n: nat)
    requires n <= |files| == |want| && |at| == |files| + 1
  {
    n == 0 || (LeadTo(files, want, link, at, n - 1) && LeadsTo(files, want, link, at, n - 1))
  }

  lemma {:induction false} EachLeads(
    files: seq<File>, want: seq<Option<File>>, link: nat -> Option<File>, at: seq<nat>, i: nat, n: nat)
    requires i < n <= |files| == |want| && |at| == |files| + 1 && LeadTo(files, want, link, at, n)
    ensures LeadsTo(files, want, link, at, i)
  {
    if i < n - 1 {
      EachLeads(files, want, link, at, i, n - 1);
    }
  }

  lemma {:induction false} ListedOver(
    files: seq<File>, k: nat, sound: bool, link: nat -> Option<File>, at: seq<nat>, i: nat)
    requires k < |files| && |at| == |files| + 1 && i <= |files|
    requires LeadTo(files, Wanted(files, k, sound, |files|), link, at, |files|)
    ensures Listed(link, at[i], |files| - i) == if i > k || sound then Some(files[i..]) else None
    decreases |files| - i
  {
    if i < |files| {
      EachLeads(files, Wanted(files, k, sound, |files|), link, at, i, |files|);
      WantedAt(files, k, sound, |files|, i);
      ListedOver(files, k, sound, link, at, i + 1);
      assert files[i..] == [files[i]] + files[i + 1..];
    } else {
      assert files[i..] == [];
    }
  }

  lemma OneLeads(
    files: seq<File>, k: nat, data: Bytes, bytes: Bytes, locals: seq<Bytes>, base: nat,
    files': seq<File>, want: seq<Option<File>>, at: seq<nat>, i: nat)
    requires AllFit(files) && k < |files| && |data| == |files[k].data| && i < |files|
    requires locals == LocalParts(files)[k := Replaced(files[k], data)] && |Joined(locals, |locals|)| < U32
    requires Holds(bytes, 0, Joined(locals, |locals|)) && Holds(bytes, base, Joined(CentralParts(files), |files|))
    requires files' == files[k := With(files[k], data)] && at == Starts(base, CentralParts(files))
    requires want == Wanted(files', k, Crc(data) == Crc(files[k].data), |files|)
    ensures LeadsTo(files', want, Links(bytes), at, i)
  {
    WantedAt(files', k, Crc(data) == Crc(files[k].data), |files|, i);
    TamperedLinkAt(files, k, data, bytes, locals, i, base, at[i]);
  }

  lemma {:induction false} AllLead(
    files: seq<File>, k: nat, data: Bytes, bytes: Bytes, locals: seq<Bytes>, base: nat,
    files': seq<File>, want: seq<Option<File>>, at: seq<nat>, n: nat)
    requires AllFit(files) && k < |files| && |data| == |files[k].data| && n <= |files|
    requires locals == LocalParts(files)[k := Replaced(files[k], data)] && |Joined(locals, |locals|)| < U32
    requires Holds(bytes, 0, Joined(locals, |locals|)) && Holds(bytes, base, Joined(CentralParts(files), |files|))
    requires files' == files[k := With(files[k], data)] && at == Starts(base, CentralParts(files))
    requires want == Wanted(files', k, Crc(data) == Crc(files[k].data), |files|)
    ensures LeadTo(files', want, Links(bytes), at, n)
  {
    if n > 0 {
      AllLead(files, k, data, bytes, locals, base, files', want, at, n - 1);
      OneLeads(files, k, data, bytes, locals, base, files', want, at, n - 1);
    }
  }

  lemma TamperedListed(
    files: seq<File>, k: nat, data: Bytes, bytes: Bytes, locals: seq<Bytes>, base: nat,
    files': seq<File>, link: nat -> Option<File>)
    requires AllFit(files) && k < |files| && |data| == |files[k].data|
    requires locals == LocalParts(files)[k := Replaced(files[k], data)] && |Joined(locals, |locals|)| < U32
    requires Holds(bytes, 0, Joined(locals, |locals|)) && Holds(bytes, base, Joined(CentralParts(files), |files|))
    requires files' == files[k := With(files[k], data)] && link == Links(bytes)
    ensures Listed(link, base, |files|) == if Crc(data) == Crc(files[k].data) then Some(files') else None
  {
    var at, sound := Starts(base, CentralParts(files)), Crc(data) == Crc(files[k].data);
    AllLead(files, k, data, bytes, locals, base, files', Wanted(files', k, sound, |files|), at, |files|);
    ListedOver(files', k, sound, link, at, 0);
    assert files'[0..] == files';
  }

  /** Main result: the directory reader refuses replaced data exactly when its checksum is another one. */
  lemma DirectoryNoticesTampering(files: seq<File>, k: nat, data: Bytes)
    requires AllFit(files) && |files| < U16 && |Locals(files)| < U32 && |Centrals(files)| < U32
    requires k < |files| && |data| == |files[k].data|
    ensures Directory(Tampered(files, k, data))
      == if Crc(data) == Crc(files[k].data) then Some(files[k := With(files[k], data)]) else None
  {
    var bytes, locals := Tampered(files, k, data), LocalParts(files)[k := Replaced(files[k], data)];
    var l, c := |Locals(files)|, |Centrals(files)|;
    TamperedParts(files, k, data, locals);
    assert |Joined(locals, |locals|)| == l;
    AssembledLaid(locals, CentralParts(files), EndOf(files));
    EndLength(|files|, c, l);
    DirectoryAt(bytes, |files|, c, l, l + c);
    TamperedListed(files, k, data, bytes, locals, l, files[k := With(files[k], data)], Links(bytes));
  }

  /** The same bytes outside a window. */
  predicate SameOutside(a: Bytes, b: Bytes, at: nat, n: nat) {
    |a| == |b| && forall i :: 0 <= i < |a| && !(at <= i < at + n) ==> a[i] == b[i]
  }

  function AsByte(b: bv8): byte {
    b as byte
  }

  lemma ByteBack(x: byte)
    ensures AsByte(x as bv8) == x
  {
  }

  lemma ByteBits(x: byte, y: byte)
    requires x as bv8 == y as bv8
    ensures x == y
  {
    ByteBack(x);
    ByteBack(y);
  }

  lemma OtherBits(a: Bytes, b: Bytes)
    requires |a| == |b| && a != b
    ensures AsBits(a) != AsBits(b)
  {
    var i :| 0 <= i < |a| && a[i] != b[i];
    if AsBits(a)[i] == AsBits(b)[i] {
      ByteBits(a[i], b[i]);
    }
  }

  lemma SameBitsOutside(a: Bytes, b: Bytes, at: nat, n: nat)
    requires SameOutside(a, b, at, n)
    ensures |AsBits(a)| == |AsBits(b)| && Crc32.AgreeOutside(AsBits(a), AsBits(b), at, n)
  {
  }

  lemma SameWord(x: bv32, y: bv32)
    requires x as nat == y as nat
    ensures x == y
  {
    assert (x as nat) as bv32 == x && (y as nat) as bv32 == y;
  }

  lemma CrcDiffers(a: Bytes, b: Bytes, x: bv32, y: bv32)
    requires x == Crc32.Checksum(AsBits(a)) && y == Crc32.Checksum(AsBits(b)) && x != y
    ensures Crc(a) != Crc(b)
  {
    if x as nat == y as nat {
      SameWord(x, y);
    }
  }

  lemma BurstChangesCrc(a: Bytes, b: Bytes, at: nat, n: nat)
    requires n <= 4 && at + n <= |a| && SameOutside(a, b, at, n) && a != b
    ensures Crc(a) != Crc(b)
  {
    OtherBits(a, b);
    SameBitsOutside(a, b, at, n);
    Crc32.BurstsAreDetected(AsBits(a), AsBits(b), at, n);
    CrcDiffers(a, b, Crc32.Checksum(AsBits(a)), Crc32.Checksum(AsBits(b)));
  }

  /**
   Main result: data that is replaced within four consecutive bytes is always noticed by the
   directory reader, and always extracted by the package reader.
   */
  lemma ReplacedBurst(files: seq<File>, k: nat, data: Bytes, at: nat, n: nat)
    requires AllFit(files) && |files| < U16 && |Locals(files)| < U32 && |Centrals(files)| < U32 && Storable(files)
    requires k < |files| && n <= 4 && at + n <= |data| && SameOutside(data, files[k].data, at, n)
    requires data != files[k].data
    ensures var bytes := Tampered(files, k, data);
      && Directory(bytes).None? && Extracted(bytes, EMPTY).failure == None
      && PathOf(files[k]) in Extracted(bytes, EMPTY).tree.files
      && Extracted(bytes, EMPTY).tree.files[PathOf(files[k])] == data
  {
    BurstChangesCrc(data, files[k].data, at, n);
    DirectoryNoticesTampering(files, k, data);
    TamperedComesBack(files, k, data);
  }

  /** Such a package: one file `a` of one byte. */
  lemma PackageWithOtherByte()
    ensures var files := [File([97], [1])]; var bytes := Tampered(files, 0, [2]);
      && Directory(Archive(files)) == Some(files) && Directory(bytes).None?
      && Extracted(bytes, EMPTY).failure == None
      && [[97]] in Extracted(bytes, EMPTY).tree.files && Extracted(bytes, EMPTY).tree.files[[[97]]] == [2]
  {
    var f := File([97], [1]);
    var files := [f];
    OneFile(f, files);
    DirectoryIsComplete(files);
    assert [2][0] != f.data[0];
    ReplacedBurst(files, 0, [2], 0, 1);
  }

  lemma OneFile(f: File, files: seq<File>)
    requires f == File([97], [1]) && files == [f]
    ensures AllFit(files) && |Locals(files)| < U32 && |Centrals(files)| < U32 && Storable(files)
    ensures PathOf(f) == [[97]]
  {
    LocalLength(f);
    LocalPartAt(files, 1, 0);
    assert Joined(LocalParts(files), 1) == Joined(LocalParts(files), 0) + LocalParts(files)[0];
    CentralPartAt(files, 1, 0);
    var offset := LocalOffsets(files)[0];
    CentralPlaces(f, offset, CentralFields(f, offset));
    EncodedLength(CentralFields(f, offset), 17);
    assert Joined(CentralParts(files), 1) == Joined(CentralParts(files), 0) + CentralParts(files)[0];
    assert Spell([[97]]) == [97];
    SpelledPathJoins([[97]]);
    assert Utf8From([97], 1) && Utf8([97]);
    assert Total(files, 0) == 0 && Total(files, 1) == 1;
    assert StorableTo(files, 0);
    assert ApartFrom(files, 0);
  }
}
