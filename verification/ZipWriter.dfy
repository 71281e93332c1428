/**
 The package writer (crates/host-core/src/plugins.rs): stored ZIP archives, byte by
 byte. Header layouts follow sections 4.3.7, 4.3.12 and 4.3.16 of the PKWARE APPNOTE.
 */
module ZipWriter {

  import Crc32

  newtype byte = x: int | 0 <= x < 256

  type Bytes = seq<byte>

  const U16 := 0x1_0000
  const U32 := 0x1_0000_0000
  const LOCAL_SIGNATURE := 0x0403_4b50
  const CENTRAL_SIGNATURE := 0x0201_4b50
  const END_SIGNATURE := 0x0605_4b50

  datatype File = File(name: Bytes, data: Bytes)

  // ---- Little-endian numbers ----------------------------------------------------------

  /**
   The low `width` bytes of `n`, least significant first. Every number of the writer that
   is cut down to 16 or 32 bits, or wraps there, is only ever written out by this
   function, so the unbounded number stands for it.
   */
  function Le(n: nat, width: nat): (s: Bytes)
    ensures |s| == width
    decreases width, n
  {
    if width == 0 then [] else [(n % 256) as byte] + Le(n / 256, width - 1)
  }

  function Limit(width: nat): nat {
    if width == 0 then 1 else 256 * Limit(width - 1)
  }

  lemma Limits()
    ensures Limit(2) == U16 && Limit(4) == U32
  {
    assert Limit(2) == 256 * Limit(1);
    assert Limit(4) == 256 * Limit(3);
  }

  function AsBits(data: Bytes): seq<bv8> {
    seq(|data|, i requires 0 <= i < |data| => data[i] as bv8)
  }

  function Crc(data: Bytes): (r: nat)
    ensures r < U32
  {
    Crc32.Checksum(AsBits(data)) as nat
  }

  // ---- Headers --------------------------------------------------------------------------

  datatype Field = Field(value: nat, width: nat)

  /** The first `n` fields, one after the other. */
  function Encode(fields: seq<Field>, n: nat): Bytes
    requires n <= |fields|
    decreases n, fields
  {
    if n == 0 then [] else Encode(fields, n - 1) + Le(fields[n - 1].value, fields[n - 1].width)
  }

  /** Where field `n` begins. */
  function PlaceOf(fields: seq<Field>, n: nat): nat
    requires n <= |fields|
    decreases n
  {
    if n == 0 then 0 else PlaceOf(fields, n - 1) + fields[n - 1].width
  }

  /** Section 4.3.7: version, flags, method, time and date stand before the checksum. */
  function LocalFields(f: File): (fields: seq<Field>)
    ensures |fields| == 11
  {
    [Field(LOCAL_SIGNATURE, 4), Field(20, 2), Field(0, 2), Field(0, 2), Field(0, 2), Field(0, 2),
     Field(Crc(f.data), 4), Field(|f.data|, 4), Field(|f.data|, 4),
     Field(|f.name|, 2), Field(0, 2)]
  }

  /** Section 4.3.12: comment length, disk and attributes stand before the offset. */
  function CentralFields(f: File, offset: nat): (fields: seq<Field>)
    ensures |fields| == 17
  {
    [Field(CENTRAL_SIGNATURE, 4), Field(20, 2), Field(20, 2), Field(0, 2), Field(0, 2), Field(0, 2), Field(0, 2),
     Field(Crc(f.data), 4), Field(|f.data|, 4), Field(|f.data|, 4),
     Field(|f.name|, 2), Field(0, 2), Field(0, 2), Field(0, 2), Field(0, 2), Field(0, 4),
     Field(offset, 4)]
  }

  /** Section 4.3.16. */
  function EndFields(entries: nat, size: nat, offset: nat): (fields: seq<Field>)
    ensures |fields| == 8
  {
    [Field(END_SIGNATURE, 4), Field(0, 2), Field(0, 2), Field(entries, 2), Field(entries, 2),
     Field(size, 4), Field(offset, 4), Field(0, 2)]
  }

  function Header(fields: seq<Field>): Bytes {
    Encode(fields, |fields|)
  }

  function Local(f: File): Bytes {
    Header(LocalFields(f)) + f.name + f.data
  }

  function Central(f: File, offset: nat): Bytes {
    Header(CentralFields(f, offset)) + f.name
  }

  function End(entries: nat, size: nat, offset: nat): Bytes {
    Header(EndFields(entries, size, offset))
  }

  /** The first `n` parts, one after the other. */
  function Joined(parts: seq<Bytes>, n: nat): Bytes
    requires n <= |parts|
  {
    if n == 0 then [] else Joined(parts, n - 1) + parts[n - 1]
  }

  /** The local parts of the first `n` files. */
  function LocalPartsTo(files: seq<File>, n: nat): (parts: seq<Bytes>)
    requires n <= |files|
    ensures |parts| == n
  {
    if n == 0 then [] else LocalPartsTo(files, n - 1) + [Local(files[n - 1])]
  }

  function LocalParts(files: seq<File>): (parts: seq<Bytes>)
    ensures |parts| == |files|
  {
    LocalPartsTo(files, |files|)
  }

  lemma {:induction false} LocalPartAt(files: seq<File>, n: nat, k: nat)
    requires k < n <= |files|
    ensures LocalPartsTo(files, n)[k] == Local(files[k])
  {
    if k < n - 1 {
      LocalPartAt(files, n - 1, k);
    }
  }

  /** Where each of the first `n` parts begins. */
  function Offsets(parts: seq<Bytes>, n: nat): (at: seq<nat>)
    requires n <= |parts|
    ensures |at| == n
  {
    if n == 0 then [] else Offsets(parts, n - 1) + [|Joined(parts, n - 1)|]
  }

  lemma {:induction false} OffsetAt(parts: seq<Bytes>, n: nat, k: nat)
    requires k < n <= |parts|
    ensures Offsets(parts, n)[k] == |Joined(parts, k)|
  {
    if k < n - 1 {
      OffsetAt(parts, n - 1, k);
    }
  }

  function LocalOffsets(files: seq<File>): (at: seq<nat>)
    ensures |at| == |files|
  {
    Offsets(LocalParts(files), |files|)
  }

  /** The central headers of the first `n` files; each holds the offset of its local header. */
  function CentralPartsTo(files: seq<File>, n: nat): (parts: seq<Bytes>)
    requires n <= |files|
    ensures |parts| == n
  {
    if n == 0 then [] else CentralPartsTo(files, n - 1) + [Central(files[n - 1], LocalOffsets(files)[n - 1])]
  }

  function CentralParts(files: seq<File>): (parts: seq<Bytes>)
    ensures |parts| == |files|
  {
    CentralPartsTo(files, |files|)
  }

  lemma {:induction false} CentralPartAt(files: seq<File>, n: nat, k: nat)
    requires k < n <= |files|
    ensures CentralPartsTo(files, n)[k] == Central(files[k], LocalOffsets(files)[k])
  {
    if k < n - 1 {
      CentralPartAt(files, n - 1, k);
    }
  }

  function Locals(files: seq<File>): Bytes {
    Joined(LocalParts(files), |files|)
  }

  function Centrals(files: seq<File>): Bytes {
    Joined(CentralParts(files), |files|)
  }

  function Assemble(locals: seq<Bytes>, centrals: seq<Bytes>, end: Bytes): Bytes {
    Joined(locals, |locals|) + Joined(centrals, |centrals|) + end
  }

  /** The end record of the files' archive. */
  function EndOf(files: seq<File>): Bytes {
    End(|files|, |Centrals(files)|, |Locals(files)|)
  }

  /** The archive of the files. */
  function Archive(files: seq<File>): Bytes {
    Assemble(LocalParts(files), CentralParts(files), EndOf(files))
  }

  // ---- The writer -------------------------------------------------------------------------

  /** The pushes of one header, in the order of its fields. */
  method PutFields(fields: seq<Field>) returns (out: Bytes)
    ensures out == Header(fields)
  {
    out := [];
    for i := 0 to |fields|
      invariant out == Encode(fields, i)
    {
      out := out + Le(fields[i].value, fields[i].width);
    }
  }

  method PutLocal(f: File) returns (out: Bytes)
    ensures out == Local(f)
  {
    out := PutFields(LocalFields(f));
    out := out + f.name;
    out := out + f.data;
  }

  method PutCentral(f: File, offset: nat) returns (out: Bytes)
    ensures out == Central(f, offset)
  {
    out := PutFields(CentralFields(f, offset));
    out := out + f.name;
  }

  method PutEnd(entries: nat, size: nat, offset: nat) returns (out: Bytes)
    ensures out == End(entries, size, offset)
  {
    out := PutFields(EndFields(entries, size, offset));
  }

  /** One turn of the loop: the file's local header and data, and its central header. */
  method PutEntry(files: seq<File>, i: nat, out: Bytes, central: Bytes, offset: nat)
    returns (out': Bytes, central': Bytes, offset': nat)
    requires i < |files| && out == Joined(LocalParts(files), i) && central == Joined(CentralParts(files), i)
    requires offset == |out|
    ensures out' == Joined(LocalParts(files), i + 1) && central' == Joined(CentralParts(files), i + 1)
    ensures offset' == |out'|
  {
    OffsetAt(LocalParts(files), |files|, i);
    var local := PutLocal(files[i]);
    var header := PutCentral(files[i], offset);
    LocalPartAt(files, |files|, i);
    CentralPartAt(files, |files|, i);
    out' := out + local;
    central' := central + header;
    offset' := offset + |local|;
  }

  /** The loop: all local parts, and all central headers beside them. */
  method PutEntries(files: seq<File>) returns (out: Bytes, central: Bytes, entries: nat)
    ensures out == Locals(files) && central == Centrals(files) && entries == |files|
  {
    out := [];
    var offset: nat := 0;
    central := [];
    entries := 0;
    for i := 0 to |files|
      invariant out == Joined(LocalParts(files), i) && central == Joined(CentralParts(files), i)
      invariant offset == |out| && entries == i
    {
      out, central, offset := PutEntry(files, i, out, central, offset);
      entries := entries + 1;
    }
  }

  /** `make_zip`. */
  method MakeZip(files: seq<File>) returns (out: Bytes)
    ensures out == Archive(files)
  {
    var central, entries;
    out, central, entries := PutEntries(files);
    var centralOffset := |out|;
    out := out + central;
    var end := PutEnd(entries, |central|, centralOffset);
    out := out + end;
  }
}
