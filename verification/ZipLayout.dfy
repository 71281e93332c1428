/**
 Where everything is in an archive that the writer made, and a reader that follows the
 central directory (sections 4.3.12 and 4.3.16 of the PKWARE APPNOTE) back to the files.
 */
module ZipLayout {

  import opened ZipWriter
  import opened Wrappers

  /** The little-endian number stored at an offset. */
  function Number(bytes: Bytes, at: nat, width: nat): nat
    requires at + width <= |bytes|
    decreases width, bytes
  {
    if width == 0 then 0 else bytes[at] as nat + 256 * Number(bytes, at + 1, width - 1)
  }

  /** A part of the archive stands at an offset. */
  predicate Holds(bytes: Bytes, at: nat, part: Bytes) {
    at + |part| <= |bytes| && bytes[at..at + |part|] == part
  }

  lemma SliceOfSlice(bytes: Bytes, a: nat, b: nat, i: nat, j: nat)
    requires a <= b <= |bytes| && i <= j <= b - a
    ensures bytes[a..b][i..j] == bytes[a + i..a + j]
  {
    var s := bytes[a..b];
    forall k | 0 <= k < j - i
      ensures s[i..j][k] == bytes[a + i..a + j][k]
    {
      assert s[i..j][k] == s[i + k];
    }
  }

  lemma PartOf(bytes: Bytes, at: nat, pre: Bytes, part: Bytes, post: Bytes)
    requires Holds(bytes, at, pre + part + post)
    ensures Holds(bytes, at, pre)
    ensures Holds(bytes, at + |pre|, part)
    ensures Holds(bytes, at + |pre| + |part|, post)
  {
    var whole := pre + part + post;
    assert whole[..|pre|] == pre && whole[|pre|..|pre| + |part|] == part && whole[|pre| + |part|..] == post;
    var s := bytes[at..at + |whole|];
    assert s[..|pre|] == bytes[at..at + |pre|];
    SliceOfSlice(bytes, at, at + |whole|, |pre|, |pre| + |part|);
    SliceOfSlice(bytes, at, at + |whole|, |pre| + |part|, |whole|);
  }

  lemma HalfOf(bytes: Bytes, at: nat, pre: Bytes, post: Bytes)
    requires Holds(bytes, at, pre + post)
    ensures Holds(bytes, at, pre) && Holds(bytes, at + |pre|, post)
  {
    assert pre + post == pre + post + [];
    PartOf(bytes, at, pre, post, []);
  }

  lemma {:induction false} NumberAt(bytes: Bytes, at: nat, n: nat, width: nat)
    requires n < Limit(width) && Holds(bytes, at, Le(n, width))
    ensures at + width <= |bytes| && Number(bytes, at, width) == n
    decreases width
  {
    if width > 0 {
      var s := bytes[at..at + width];
      assert s[0] == (n % 256) as byte && s[1..] == Le(n / 256, width - 1);
      assert bytes[at + 1..at + width] == s[1..];
      NumberAt(bytes, at + 1, n / 256, width - 1);
    }
  }

  lemma {:induction false} EncodedLength(fields: seq<Field>, n: nat)
    requires n <= |fields|
    ensures |Encode(fields, n)| == PlaceOf(fields, n)
  {
    if n > 0 {
      EncodedLength(fields, n - 1);
    }
  }

  /** Each field is read back at its place. */
  lemma {:induction false} FieldRead(bytes: Bytes, at: nat, fields: seq<Field>, n: nat, k: nat)
    requires k < n <= |fields| && fields[k].value < Limit(fields[k].width) && Holds(bytes, at, Encode(fields, n))
    ensures at + PlaceOf(fields, k) + fields[k].width <= |bytes|
    ensures Number(bytes, at + PlaceOf(fields, k), fields[k].width) == fields[k].value
  {
    EncodedLength(fields, n - 1);
    HalfOf(bytes, at, Encode(fields, n - 1), Le(fields[n - 1].value, fields[n - 1].width));
    if k < n - 1 {
      FieldRead(bytes, at, fields, n - 1, k);
    } else {
      NumberAt(bytes, at + PlaceOf(fields, k), fields[k].value, fields[k].width);
    }
  }

  lemma NumberOf(bytes: Bytes, at: nat, fields: seq<Field>, k: nat, place: nat, n: nat, width: nat)
    requires k < |fields| && fields[k] == Field(n, width) && PlaceOf(fields, k) == place
    requires n < Limit(width) && Holds(bytes, at, Header(fields))
    ensures at + place + width <= |bytes| && Number(bytes, at + place, width) == n
  {
    FieldRead(bytes, at, fields, |fields|, k);
  }

  /** The sizes a header can hold. */
  predicate Fits(f: File) {
    |f.name| < U16 && |f.data| < U32
  }

  /** A local header with its name and data, as section 4.3.7 of the APPNOTE lays it out. */
  predicate LocalAt(bytes: Bytes, at: nat, f: File) {
    && at + 30 + |f.name| + |f.data| <= |bytes|
    && Number(bytes, at, 4) == LOCAL_SIGNATURE && Number(bytes, at + 8, 2) == 0
    && Number(bytes, at + 14, 4) == Crc(f.data)
    && Number(bytes, at + 18, 4) == |f.data| && Number(bytes, at + 22, 4) == |f.data|
    && Number(bytes, at + 26, 2) == |f.name| && Number(bytes, at + 28, 2) == 0
    && bytes[at + 30..at + 30 + |f.name|] == f.name
    && bytes[at + 30 + |f.name|..at + 30 + |f.name| + |f.data|] == f.data
  }

  lemma LocalPlaces(f: File, fields: seq<Field>)
    requires fields == LocalFields(f)
    ensures PlaceOf(fields, 0) == 0 && PlaceOf(fields, 3) == 8 && PlaceOf(fields, 6) == 14 && PlaceOf(fields, 7) == 18
    ensures PlaceOf(fields, 8) == 22 && PlaceOf(fields, 9) == 26 && PlaceOf(fields, 10) == 28
    ensures PlaceOf(fields, 11) == 30
  {
    assert PlaceOf(fields, 6) == 14;
    assert PlaceOf(fields, 9) == 26;
  }

  lemma LocalNumbers(bytes: Bytes, at: nat, f: File)
    requires Fits(f) && Holds(bytes, at, Header(LocalFields(f)))
    ensures |Header(LocalFields(f))| == 30 && at + 30 <= |bytes|
    ensures Number(bytes, at, 4) == LOCAL_SIGNATURE && Number(bytes, at + 8, 2) == 0
    ensures Number(bytes, at + 14, 4) == Crc(f.data)
    ensures Number(bytes, at + 18, 4) == |f.data| && Number(bytes, at + 22, 4) == |f.data|
    ensures Number(bytes, at + 26, 2) == |f.name| && Number(bytes, at + 28, 2) == 0
  {
    var fields := LocalFields(f);
    Limits();
    LocalPlaces(f, fields);
    EncodedLength(fields, 11);
    NumberOf(bytes, at, fields, 0, 0, LOCAL_SIGNATURE, 4);
    NumberOf(bytes, at, fields, 3, 8, 0, 2);
    NumberOf(bytes, at, fields, 6, 14, Crc(f.data), 4);
    NumberOf(bytes, at, fields, 7, 18, |f.data|, 4);
    NumberOf(bytes, at, fields, 8, 22, |f.data|, 4);
    NumberOf(bytes, at, fields, 9, 26, |f.name|, 2);
    NumberOf(bytes, at, fields, 10, 28, 0, 2);
  }

  /** The fields of a local header that no reader here looks at: version 2.0, no flags, no time and no date. */
  predicate LocalConstants(bytes: Bytes, at: nat) {
    && at + 30 <= |bytes|
    && Number(bytes, at + 4, 2) == 20 && Number(bytes, at + 6, 2) == 0
    && Number(bytes, at + 10, 2) == 0 && Number(bytes, at + 12, 2) == 0
  }

  lemma LocalOthers(bytes: Bytes, at: nat, f: File)
    requires Fits(f) && Holds(bytes, at, Header(LocalFields(f))) && at + 30 <= |bytes|
    ensures LocalConstants(bytes, at)
  {
    var fields := LocalFields(f);
    Limits();
    assert PlaceOf(fields, 3) == 8;
    assert PlaceOf(fields, 5) == 12;
    NumberOf(bytes, at, fields, 1, 4, 20, 2);
    NumberOf(bytes, at, fields, 2, 6, 0, 2);
    NumberOf(bytes, at, fields, 4, 10, 0, 2);
    NumberOf(bytes, at, fields, 5, 12, 0, 2);
  }

  lemma LocalReads(bytes: Bytes, at: nat, f: File)
    requires Fits(f) && Holds(bytes, at, Local(f))
    ensures |Local(f)| == 30 + |f.name| + |f.data| && LocalAt(bytes, at, f) && LocalConstants(bytes, at)
  {
    PartOf(bytes, at, Header(LocalFields(f)), f.name, f.data);
    LocalNumbers(bytes, at, f);
    LocalOthers(bytes, at, f);
  }

  /** A central header with its name, as section 4.3.12 lays it out. */
  predicate CentralAt(bytes: Bytes, at: nat, f: File, offset: nat) {
    && at + 46 + |f.name| <= |bytes|
    && Number(bytes, at, 4) == CENTRAL_SIGNATURE
    && Number(bytes, at + 16, 4) == Crc(f.data)
    && Number(bytes, at + 20, 4) == |f.data| && Number(bytes, at + 24, 4) == |f.data|
    && Number(bytes, at + 28, 2) == |f.name| && Number(bytes, at + 30, 2) == 0
    && Number(bytes, at + 32, 2) == 0 && Number(bytes, at + 42, 4) == offset
    && bytes[at + 46..at + 46 + |f.name|] == f.name
  }

  lemma CentralPlaces(f: File, offset: nat, fields: seq<Field>)
    requires fields == CentralFields(f, offset)
    ensures PlaceOf(fields, 0) == 0 && PlaceOf(fields, 7) == 16 && PlaceOf(fields, 8) == 20 && PlaceOf(fields, 9) == 24
    ensures PlaceOf(fields, 10) == 28 && PlaceOf(fields, 11) == 30 && PlaceOf(fields, 12) == 32
    ensures PlaceOf(fields, 16) == 42 && PlaceOf(fields, 17) == 46
  {
    assert PlaceOf(fields, 7) == 16;
    assert PlaceOf(fields, 12) == 32;
  }

  lemma CentralNumbers(bytes: Bytes, at: nat, f: File, offset: nat)
    requires Fits(f) && offset < U32 && Holds(bytes, at, Header(CentralFields(f, offset)))
    ensures |Header(CentralFields(f, offset))| == 46 && at + 46 <= |bytes|
    ensures Number(bytes, at, 4) == CENTRAL_SIGNATURE && Number(bytes, at + 16, 4) == Crc(f.data)
    ensures Number(bytes, at + 20, 4) == |f.data| && Number(bytes, at + 24, 4) == |f.data|
    ensures Number(bytes, at + 28, 2) == |f.name| && Number(bytes, at + 30, 2) == 0
    ensures Number(bytes, at + 32, 2) == 0 && Number(bytes, at + 42, 4) == offset
  {
    var fields := CentralFields(f, offset);
    Limits();
    CentralPlaces(f, offset, fields);
    EncodedLength(fields, 17);
    NumberOf(bytes, at, fields, 0, 0, CENTRAL_SIGNATURE, 4);
    NumberOf(bytes, at, fields, 7, 16, Crc(f.data), 4);
    NumberOf(bytes, at, fields, 8, 20, |f.data|, 4);
    NumberOf(bytes, at, fields, 9, 24, |f.data|, 4);
    NumberOf(bytes, at, fields, 10, 28, |f.name|, 2);
    NumberOf(bytes, at, fields, 11, 30, 0, 2);
    NumberOf(bytes, at, fields, 12, 32, 0, 2);
    NumberOf(bytes, at, fields, 16, 42, offset, 4);
  }

  /** The other fields of a central header: versions 2.0, no flags, stored data, no time, date, disk or attributes. */
  predicate CentralConstants(bytes: Bytes, at: nat) {
    && at + 46 <= |bytes|
    && Number(bytes, at + 4, 2) == 20 && Number(bytes, at + 6, 2) == 20
    && Number(bytes, at + 8, 2) == 0 && Number(bytes, at + 10, 2) == 0
    && Number(bytes, at + 12, 2) == 0 && Number(bytes, at + 14, 2) == 0
    && Number(bytes, at + 34, 2) == 0 && Number(bytes, at + 36, 2) == 0 && Number(bytes, at + 38, 4) == 0
  }

  lemma CentralOthers(bytes: Bytes, at: nat, f: File, offset: nat)
    requires Fits(f) && offset < U32 && Holds(bytes, at, Header(CentralFields(f, offset))) && at + 46 <= |bytes|
    ensures CentralConstants(bytes, at)
  {
    var fields := CentralFields(f, offset);
    Limits();
    CentralPlaces(f, offset, fields);
    assert PlaceOf(fields, 4) == 10;
    assert PlaceOf(fields, 6) == 14;
    assert PlaceOf(fields, 15) == 38;
    NumberOf(bytes, at, fields, 1, 4, 20, 2);
    NumberOf(bytes, at, fields, 2, 6, 20, 2);
    NumberOf(bytes, at, fields, 3, 8, 0, 2);
    NumberOf(bytes, at, fields, 4, 10, 0, 2);
    NumberOf(bytes, at, fields, 5, 12, 0, 2);
    NumberOf(bytes, at, fields, 6, 14, 0, 2);
    NumberOf(bytes, at, fields, 13, 34, 0, 2);
    NumberOf(bytes, at, fields, 14, 36, 0, 2);
    NumberOf(bytes, at, fields, 15, 38, 0, 4);
  }

  lemma CentralReads(bytes: Bytes, at: nat, f: File, offset: nat)
    requires Fits(f) && offset < U32 && Holds(bytes, at, Central(f, offset))
    ensures |Central(f, offset)| == 46 + |f.name| && CentralAt(bytes, at, f, offset) && CentralConstants(bytes, at)
  {
    HalfOf(bytes, at, Header(CentralFields(f, offset)), f.name);
    CentralNumbers(bytes, at, f, offset);
    CentralOthers(bytes, at, f, offset);
  }

  lemma EndReads(bytes: Bytes, at: nat, entries: nat, size: nat, offset: nat)
    requires entries < U16 && size < U32 && offset < U32 && Holds(bytes, at, End(entries, size, offset))
    ensures |End(entries, size, offset)| == 22 && at + 22 <= |bytes|
    ensures Number(bytes, at, 4) == END_SIGNATURE && Number(bytes, at + 10, 2) == entries
    ensures Number(bytes, at + 12, 4) == size && Number(bytes, at + 16, 4) == offset
    ensures Number(bytes, at + 4, 2) == 0 && Number(bytes, at + 6, 2) == 0
    ensures Number(bytes, at + 8, 2) == entries && Number(bytes, at + 20, 2) == 0
  {
    var fields := EndFields(entries, size, offset);
    Limits();
    assert PlaceOf(fields, 2) == 6;
    assert PlaceOf(fields, 4) == 10;
    assert PlaceOf(fields, 6) == 16;
    assert PlaceOf(fields, 8) == 22;
    EncodedLength(fields, 8);
    NumberOf(bytes, at, fields, 0, 0, END_SIGNATURE, 4);
    NumberOf(bytes, at, fields, 1, 4, 0, 2);
    NumberOf(bytes, at, fields, 2, 6, 0, 2);
    NumberOf(bytes, at, fields, 3, 8, entries, 2);
    NumberOf(bytes, at, fields, 7, 20, 0, 2);
    NumberOf(bytes, at, fields, 4, 10, entries, 2);
    NumberOf(bytes, at, fields, 5, 12, size, 4);
    NumberOf(bytes, at, fields, 6, 16, offset, 4);
  }

  // ---- Finding each file's part -------------------------------------------------------------

  lemma {:induction false} JoinedHolds(bytes: Bytes, at: nat, parts: seq<Bytes>, n: nat, k: nat)
    requires k < n <= |parts| && Holds(bytes, at, Joined(parts, n))
    ensures Holds(bytes, at + |Joined(parts, k)|, parts[k])
    ensures |Joined(parts, k + 1)| == |Joined(parts, k)| + |parts[k]|
  {
    HalfOf(bytes, at, Joined(parts, n - 1), parts[n - 1]);
    if k < n - 1 {
      JoinedHolds(bytes, at, parts, n - 1, k);
    }
  }

  lemma EndLength(entries: nat, size: nat, offset: nat)
    ensures |End(entries, size, offset)| == 22
  {
    var fields := EndFields(entries, size, offset);
    assert PlaceOf(fields, 8) == 22;
    EncodedLength(fields, 8);
  }

  /** Local parts, central headers and an end record, one after the other. */
  predicate Laid(bytes: Bytes, locals: seq<Bytes>, centrals: seq<Bytes>, end: Bytes) {
    var l, c := Joined(locals, |locals|), Joined(centrals, |centrals|);
    && |bytes| == |l| + |c| + |end|
    && Holds(bytes, 0, l) && Holds(bytes, |l|, c) && Holds(bytes, |l| + |c|, end)
  }

  lemma AssembledLaid(locals: seq<Bytes>, centrals: seq<Bytes>, end: Bytes)
    ensures Laid(Assemble(locals, centrals, end), locals, centrals, end)
  {
    var bytes := Assemble(locals, centrals, end);
    assert bytes[0..|bytes|] == bytes;
    PartOf(bytes, 0, Joined(locals, |locals|), Joined(centrals, |centrals|), end);
  }

  /** A local part is where the running offset says. */
  lemma LocalPart(f: File, bytes: Bytes, locals: seq<Bytes>, k: nat, at: nat)
    requires k < |locals| && locals[k] == Local(f) && Fits(f) && at == |Joined(locals, k)|
    requires Holds(bytes, 0, Joined(locals, |locals|))
    ensures LocalAt(bytes, at, f) && |Joined(locals, k + 1)| == at + 30 + |f.name| + |f.data|
  {
    JoinedHolds(bytes, 0, locals, |locals|, k);
    LocalReads(bytes, at, f);
  }

  /** So is a central header. */
  lemma CentralPart(f: File, bytes: Bytes, base: nat, centrals: seq<Bytes>, k: nat, local: nat, at: nat)
    requires k < |centrals| && local < U32 && centrals[k] == Central(f, local) && Fits(f)
    requires Holds(bytes, base, Joined(centrals, |centrals|)) && at == base + |Joined(centrals, k)|
    ensures CentralAt(bytes, at, f, local)
    ensures |Joined(centrals, k + 1)| == |Joined(centrals, k)| + 46 + |f.name|
  {
    JoinedHolds(bytes, base, centrals, |centrals|, k);
    CentralReads(bytes, at, f, local);
  }

  // ---- Reading through the central directory --------------------------------------------------

  /** The file whose local header a central header points at; both headers must agree. */
  function Linked(bytes: Bytes, at: nat): Option<File> {
    if at + 46 > |bytes| || Number(bytes, at, 4) != CENTRAL_SIGNATURE then None
    else
      var n, size, local := Number(bytes, at + 28, 2), Number(bytes, at + 24, 4), Number(bytes, at + 42, 4);
      if at + 46 + n > |bytes| || local + 30 + n + size > |bytes| then None
      else
        Agreed(bytes, at, local, File(bytes[at + 46..at + 46 + n], bytes[local + 30 + n..local + 30 + n + size]))
  }

  /** The file, if its local header and the checksum of the central one say so. */
  function Agreed(bytes: Bytes, at: nat, local: nat, f: File): Option<File>
    requires at + 20 <= |bytes|
  {
    if LocalAt(bytes, local, f) && Number(bytes, at + 16, 4) == Crc(f.data) then Some(f) else None
  }

  /** Headers one after the other, each read by `link`. */
  function Listed(link: nat -> Option<File>, at: nat, count: nat): Option<seq<File>>
    decreases count
  {
    if count == 0 then Some([])
    else
      var first := link(at);
      if first.None? then None
      else
        var rest := Listed(link, at + 46 + |first.value.name|, count - 1);
        if rest.None? then None else Some([first.value] + rest.value)
  }

  function Links(bytes: Bytes): nat -> Option<File> {
    (at: nat) => Linked(bytes, at)
  }

  /** The files of an archive without a comment, found from its end record. */
  function Directory(bytes: Bytes): Option<seq<File>> {
    if |bytes| < 22 || Number(bytes, |bytes| - 22, 4) != END_SIGNATURE then None
    else
      var end := |bytes| - 22;
      Listed(Links(bytes), Number(bytes, end + 16, 4), Number(bytes, end + 10, 2))
  }

  /** What a central header links to, when name and data are where it says. */
  lemma LinkReads(bytes: Bytes, at: nat, name: Bytes, data: Bytes, n: nat, size: nat, local: nat)
    requires at + 46 + n <= |bytes| && local + 30 + n + size <= |bytes|
    requires Number(bytes, at, 4) == CENTRAL_SIGNATURE && Number(bytes, at + 28, 2) == n
    requires Number(bytes, at + 24, 4) == size && Number(bytes, at + 42, 4) == local
    requires bytes[at + 46..at + 46 + n] == name && bytes[local + 30 + n..local + 30 + n + size] == data
    ensures Linked(bytes, at) == Agreed(bytes, at, local, File(name, data))
  {
  }

  lemma LinkFound(bytes: Bytes, at: nat, f: File, local: nat)
    requires CentralAt(bytes, at, f, local) && LocalAt(bytes, local, f)
    ensures Links(bytes)(at) == Some(f)
  {
    assert f == File(f.name, f.data);
    LinkReads(bytes, at, f.name, f.data, |f.name|, |f.data|, local);
  }

  lemma {:induction false} JoinedGrows(parts: seq<Bytes>, k: nat, n: nat)
    requires k <= n <= |parts|
    ensures |Joined(parts, k)| <= |Joined(parts, n)|
  {
    if k < n {
      JoinedGrows(parts, k, n - 1);
    }
  }

  predicate AllFit(files: seq<File>) {
    forall i :: 0 <= i < |files| ==> Fits(files[i])
  }

  lemma FileLinked(f: File, bytes: Bytes, locals: seq<Bytes>, centrals: seq<Bytes>, k: nat, base: nat, at: nat)
    requires Fits(f) && k < |locals| && k < |centrals|
    requires |Joined(locals, |locals|)| < U32 && locals[k] == Local(f)
    requires centrals[k] == Central(f, |Joined(locals, k)|) && at == base + |Joined(centrals, k)|
    requires Holds(bytes, 0, Joined(locals, |locals|)) && Holds(bytes, base, Joined(centrals, |centrals|))
    ensures Links(bytes)(at) == Some(f)
    ensures |Joined(centrals, k + 1)| == |Joined(centrals, k)| + 46 + |f.name|
  {
    var local := |Joined(locals, k)|;
    JoinedGrows(locals, k, |locals|);
    LocalPart(f, bytes, locals, k, local);
    CentralPart(f, bytes, base, centrals, k, local, at);
    LinkFound(bytes, at, f, local);
  }

  lemma ListedNext(link: nat -> Option<File>, at: nat, count: nat, f: File, rest: seq<File>)
    requires count > 0 && link(at) == Some(f)
    requires Listed(link, at + 46 + |f.name|, count - 1) == Some(rest)
    ensures Listed(link, at, count) == Some([f] + rest)
  {
  }

  lemma {:induction false} ListedFiles(files: seq<File>, k: nat, link: nat -> Option<File>, at: seq<nat>)
    requires k <= |files| && |at| == |files| + 1
    requires forall i {:trigger files[i]} :: 0 <= i < |files| ==> link(at[i]) == Some(files[i])
    requires forall i {:trigger files[i]} :: 0 <= i < |files| ==> at[i + 1] == at[i] + 46 + |files[i].name|
    ensures Listed(link, at[k], |files| - k) == Some(files[k..])
    decreases |files| - k
  {
    if k < |files| {
      ListedFiles(files, k + 1, link, at);
      ListedNext(link, at[k], |files| - k, files[k], files[k + 1..]);
      assert files[k..] == [files[k]] + files[k + 1..];
    }
  }

  /** Where each central header stands. */
  function Starts(base: nat, centrals: seq<Bytes>): (at: seq<nat>)
    ensures |at| == |centrals| + 1
    ensures forall k :: 0 <= k <= |centrals| ==> at[k] == base + |Joined(centrals, k)|
  {
    seq(|centrals| + 1, k requires 0 <= k <= |centrals| => base + |Joined(centrals, k)|)
  }

  lemma FilesListed(files: seq<File>, bytes: Bytes, locals: seq<Bytes>, centrals: seq<Bytes>, base: nat)
    requires AllFit(files) && locals == LocalParts(files) && centrals == CentralParts(files)
    requires |Joined(locals, |locals|)| < U32
    requires Holds(bytes, 0, Joined(locals, |locals|)) && Holds(bytes, base, Joined(centrals, |centrals|))
    ensures Listed(Links(bytes), base, |files|) == Some(files)
  {
    var at := Starts(base, centrals);
    forall k | 0 <= k < |files|
      ensures Links(bytes)(at[k]) == Some(files[k]) && at[k + 1] == at[k] + 46 + |files[k].name|
    {
      OffsetAt(locals, |files|, k);
      LocalPartAt(files, |files|, k);
      CentralPartAt(files, |files|, k);
      FileLinked(files[k], bytes, locals, centrals, k, base, at[k]);
    }
    ListedFiles(files, 0, Links(bytes), at);
    assert files[0..] == files;
  }

  lemma DirectoryAt(bytes: Bytes, n: nat, size: nat, offset: nat, end: nat)
    requires n < U16 && size < U32 && offset < U32 && |bytes| == end + 22
    requires Holds(bytes, end, End(n, size, offset))
    ensures Directory(bytes) == Listed(Links(bytes), offset, n)
  {
    EndReads(bytes, end, n, size, offset);
  }

  lemma TailHeld(locals: seq<Bytes>, centrals: seq<Bytes>, end: Bytes, bytes: Bytes, at: nat)
    requires bytes == Assemble(locals, centrals, end) && |end| == 22
    requires at == |Joined(locals, |locals|)| + |Joined(centrals, |centrals|)|
    ensures |bytes| == at + 22 && Holds(bytes, at, end)
  {
    AssembledLaid(locals, centrals, end);
  }

  lemma ArchiveTail(files: seq<File>, bytes: Bytes, end: Bytes)
    requires bytes == Archive(files) && end == EndOf(files) && |end| == 22
    ensures |bytes| == |Locals(files)| + |Centrals(files)| + 22
    ensures Holds(bytes, |Locals(files)| + |Centrals(files)|, end)
  {
    TailHeld(LocalParts(files), CentralParts(files), end, bytes, |Locals(files)| + |Centrals(files)|);
  }

  lemma ArchiveEnd(files: seq<File>, bytes: Bytes, n: nat, c: nat, l: nat)
    requires n == |files| < U16 && l == |Locals(files)| < U32 && c == |Centrals(files)| < U32
    requires bytes == Archive(files)
    ensures Directory(bytes) == Listed(Links(bytes), l, n)
  {
    EndLength(n, c, l);
    ArchiveTail(files, bytes, EndOf(files));
    DirectoryAt(bytes, n, c, l, l + c);
  }

  lemma ArchiveListed(files: seq<File>, bytes: Bytes)
    requires AllFit(files) && |Locals(files)| < U32 && bytes == Archive(files)
    ensures Listed(Links(bytes), |Locals(files)|, |files|) == Some(files)
  {
    AssembledLaid(LocalParts(files), CentralParts(files), EndOf(files));
    FilesListed(files, bytes, LocalParts(files), CentralParts(files), |Locals(files)|);
  }

  /**
   Main result: following the central directory of an archive finds exactly the files it
   was made from, in order, each under a local header that its own offset points at.
   */
  lemma DirectoryIsComplete(files: seq<File>)
    requires AllFit(files) && |files| < U16 && |Locals(files)| < U32 && |Centrals(files)| < U32
    ensures Directory(Archive(files)) == Some(files)
  {
    ArchiveEnd(files, Archive(files), |files|, |Centrals(files)|, |Locals(files)|);
    ArchiveListed(files, Archive(files));
  }
}
