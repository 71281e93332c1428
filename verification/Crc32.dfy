/**
 The checksum of plugin packages (crates/host-core/src/plugins.rs): the
 masked-shift loop, and the errors it is certain to detect. The polynomial is the
 one of section 4.4.7 of the PKWARE APPNOTE, with its bits reversed.
 */
module Crc32 {

  import opened Iteration

  const POLYNOMIAL: bv32 := 0xEDB8_8320

  /** One bit of the division. */
  function BitStep(c: bv32): bv32 {
    if c & 1 == 1 then (c >> 1) ^ POLYNOMIAL else c >> 1
  }

  /** One byte: added into the low end, then eight bits of division. */
  function ByteStep(c: bv32, b: bv8): bv32 {
    Iterate(BitStep, c ^ (b as bv32), 8)
  }

  /** The register after the bytes, from a given start. */
  function Register(c: bv32, data: seq<bv8>): bv32 {
    Fold(ByteStep, c, data)
  }

  function Checksum(data: seq<bv8>): bv32 {
    !Register(0xFFFF_FFFF, data)
  }

  // ---- Bit-level facts ------------------------------------------------------------

  lemma LowBit(c: bv32)
    ensures c & 1 == 1 || c & 1 == 0
  {
  }

  lemma MaskOfOne(c: bv32, p: bv32)
    requires c & 1 == 1
    ensures p & (!(c & 1) + 1) == p
  {
    assert !1 + 1 == 0xFFFF_FFFF as bv32;
  }

  lemma MaskOfZero(c: bv32, p: bv32)
    requires c & 1 == 0
    ensures p & (!(c & 1) + 1) == 0
  {
    assert !0 + 1 == 0 as bv32;
  }

  lemma XorZero(a: bv32)
    ensures a ^ 0 == a
  {
  }

  lemma XorSelf(a: bv32)
    ensures a ^ a == 0
  {
  }

  lemma XorMoves(a: bv32, b: bv32, c: bv32)
    ensures a ^ b == c <==> a == b ^ c
  {
  }

  lemma XorPairs(a: bv32, b: bv32, c: bv32, d: bv32)
    ensures (a ^ b) ^ (c ^ d) == (a ^ c) ^ (b ^ d)
  {
  }

  lemma XorLeft(a: bv32, b: bv32, p: bv32)
    ensures (a ^ p) ^ b == (a ^ b) ^ p
  {
  }

  lemma XorRight(a: bv32, b: bv32, p: bv32)
    ensures a ^ (b ^ p) == (a ^ b) ^ p
  {
  }

  lemma XorBoth(a: bv32, b: bv32, p: bv32)
    ensures (a ^ p) ^ (b ^ p) == a ^ b
  {
  }

  lemma XorNots(a: bv32, b: bv32)
    ensures !a ^ !b == a ^ b
  {
  }

  lemma XorShift(a: bv32, b: bv32)
    ensures (a ^ b) >> 1 == (a >> 1) ^ (b >> 1)
  {
  }

  lemma XorLowBit(a: bv32, b: bv32)
    ensures (a ^ b) & 1 == 1 <==> (a & 1 == 1) != (b & 1 == 1)
  {
  }

  lemma XorWidens(x: bv8, y: bv8)
    ensures (x ^ y) as bv32 == (x as bv32) ^ (y as bv32)
  {
  }

  lemma ByteIsZero(x: bv8, y: bv8)
    ensures x ^ y == 0 <==> x == y
  {
  }

  // ---- The loop ---------------------------------------------------------------------

  /** The mask is all ones when the low bit is set and zero when it is not. */
  lemma MaskSelects(c: bv32, picked: bv32)
    requires picked == POLYNOMIAL & (!(c & 1) + 1)
    ensures picked == if c & 1 == 1 then POLYNOMIAL else 0
  {
    LowBit(c);
    if c & 1 == 1 {
      MaskOfOne(c, POLYNOMIAL);
    } else {
      MaskOfZero(c, POLYNOMIAL);
    }
  }

  lemma Selected(c: bv32, picked: bv32)
    requires picked == if c & 1 == 1 then POLYNOMIAL else 0
    ensures (c >> 1) ^ picked == BitStep(c)
  {
    XorZero(c >> 1);
  }

  lemma OneBit(c: bv32, mask: bv32, picked: bv32, r: bv32)
    requires mask == !(c & 1) + 1 && picked == POLYNOMIAL & mask && r == (c >> 1) ^ picked
    ensures r == BitStep(c)
  {
    MaskSelects(c, picked);
    Selected(c, picked);
  }

  method DivideBit(c: bv32) returns (r: bv32)
    ensures r == BitStep(c)
  {
    var mask: bv32 := !(c & 1) + 1;
    var picked := POLYNOMIAL & mask;
    r := (c >> 1) ^ picked;
    OneBit(c, mask, picked, r);
  }

  method DivideByte(start: bv32) returns (crc: bv32)
    ensures crc == Iterate(BitStep, start, 8)
  {
    crc := start;
    for bit := 0 to 8
      invariant crc == Iterate(BitStep, start, bit)
    {
      crc := DivideBit(crc);
    }
  }

  method Crc32(data: seq<bv8>) returns (r: bv32)
    ensures r == Checksum(data)
  {
    var crc: bv32 := 0xFFFF_FFFF;
    for i := 0 to |data|
      invariant Register(crc, data[i..]) == Register(0xFFFF_FFFF, data)
    {
      crc := DivideByte(crc ^ (data[i] as bv32));
      assert data[i..][1..] == data[i + 1..];
    }
    assert data[|data|..] == [];
    r := !crc;
  }

  // ---- Each bit step is linear and can be undone ------------------------------------

  lemma BitStepLinear(a: bv32, b: bv32)
    ensures BitStep(a ^ b) == BitStep(a) ^ BitStep(b)
  {
    XorLowBit(a, b);
    XorShift(a, b);
    var s, t := a >> 1, b >> 1;
    XorLeft(s, t, POLYNOMIAL);
    XorRight(s, t, POLYNOMIAL);
    XorBoth(s, t, POLYNOMIAL);
  }

  function BitUnstep(c: bv32): bv32 {
    if c & 0x8000_0000 != 0 then ((c ^ POLYNOMIAL) << 1) | 1 else c << 1
  }

  /** Each bit step is a bijection on 32-bit states. */
  lemma BitStepUndone(c: bv32)
    ensures BitUnstep(BitStep(c)) == c
  {
  }

  lemma UnstepHigh(c: bv32, u: bv32)
    requires c & 0x8000_0000 != 0 && u == ((c ^ POLYNOMIAL) << 1) | 1
    ensures BitStep(u) == c
  {
  }

  lemma UnstepLow(c: bv32, u: bv32)
    requires c & 0x8000_0000 == 0 && u == c << 1
    ensures BitStep(u) == c
  {
  }

  /** Every state is reached by a bit step. */
  lemma BitUnstepUndone(c: bv32)
    ensures BitStep(BitUnstep(c)) == c
  {
    if c & 0x8000_0000 != 0 {
      UnstepHigh(c, BitUnstep(c));
    } else {
      UnstepLow(c, BitUnstep(c));
    }
  }

  function XorWord(a: bv32, b: bv32): bv32 {
    a ^ b
  }

  function XorByte(a: bv8, b: bv8): bv8 {
    a ^ b
  }

  lemma BitStepsLinear(a: bv32, b: bv32, n: nat)
    ensures Iterate(BitStep, XorWord(a, b), n) == XorWord(Iterate(BitStep, a, n), Iterate(BitStep, b, n))
  {
    forall x, y
      ensures BitStep(XorWord(x, y)) == XorWord(BitStep(x), BitStep(y))
    {
      BitStepLinear(x, y);
    }
    IterateAdditive(XorWord, BitStep, a, b, n);
  }

  lemma BitStepsInjective(a: bv32, b: bv32, n: nat)
    requires Iterate(BitStep, a, n) == Iterate(BitStep, b, n)
    ensures a == b
  {
    forall x
      ensures BitUnstep(BitStep(x)) == x
    {
      BitStepUndone(x);
    }
    IterateInjective(BitStep, BitUnstep, a, b, n);
  }

  // ---- The checksum is affine over XOR ------------------------------------------------

  function Xor(a: seq<bv8>, b: seq<bv8>): seq<bv8>
    requires |a| == |b|
  {
    ZipWith(XorByte, a, b)
  }

  lemma XorArguments(c: bv32, d: bv32, x: bv8, y: bv8)
    ensures (c ^ d) ^ ((x ^ y) as bv32) == (c ^ (x as bv32)) ^ (d ^ (y as bv32))
  {
    XorWidens(x, y);
    XorPairs(c, d, x as bv32, y as bv32);
  }

  lemma ByteStepLinear(c: bv32, d: bv32, x: bv8, y: bv8)
    ensures ByteStep(XorWord(c, d), XorByte(x, y)) == XorWord(ByteStep(c, x), ByteStep(d, y))
  {
    XorArguments(c, d, x, y);
    BitStepsLinear(c ^ (x as bv32), d ^ (y as bv32), 8);
  }

  lemma RegisterAffine(c: bv32, d: bv32, a: seq<bv8>, b: seq<bv8>)
    requires |a| == |b|
    ensures Register(XorWord(c, d), Xor(a, b)) == XorWord(Register(c, a), Register(d, b))
  {
    forall u, v, x, y
      ensures ByteStep(XorWord(u, v), XorByte(x, y)) == XorWord(ByteStep(u, x), ByteStep(v, y))
    {
      ByteStepLinear(u, v, x, y);
    }
    FoldAdditive(XorWord, XorByte, ByteStep, c, d, a, b);
  }

  /** Main result: the difference of two checksums depends only on the difference of the inputs. */
  lemma ChecksumAffine(a: seq<bv8>, b: seq<bv8>)
    requires |a| == |b|
    ensures Checksum(a) ^ Checksum(b) == Register(0, Xor(a, b))
  {
    RegisterAffine(0xFFFF_FFFF, 0xFFFF_FFFF, a, b);
    XorSelf(0xFFFF_FFFF);
    XorNots(Register(0xFFFF_FFFF, a), Register(0xFFFF_FFFF, b));
  }

  // ---- Bursts ---------------------------------------------------------------------------

  lemma Doubled(x: bv32)
    requires x & 0x8000_0000 == 0
    ensures (x << 1) & 1 == 0 && (x << 1) >> 1 == x
  {
  }

  lemma Room(x: bv32)
    ensures x & 0xFF00_0000 == 0 ==> (x << 4) & 0xF000_0000 == 0 && x & 0xF000_0000 == 0
    ensures x & 0xF000_0000 == 0 ==> (x << 1) & 0xE000_0000 == 0 && x & 0x8000_0000 == 0
    ensures x & 0xE000_0000 == 0 ==> (x << 1) & 0xC000_0000 == 0 && x & 0x8000_0000 == 0
    ensures x & 0xC000_0000 == 0 ==> (x << 1) & 0x8000_0000 == 0 && x & 0x8000_0000 == 0
  {
  }

  lemma ShiftTwice(x: bv32)
    ensures (x << 4) << 4 == x << 8 && (((x << 1) << 1) << 1) << 1 == x << 4
  {
  }

  lemma StepDown(x: bv32)
    requires x & 0x8000_0000 == 0
    ensures BitStep(x << 1) == x
  {
    Doubled(x);
  }

  lemma FourStepsDown(x: bv32, x1: bv32, x2: bv32, x3: bv32, x4: bv32)
    requires BitStep(x1) == x && BitStep(x2) == x1 && BitStep(x3) == x2 && BitStep(x4) == x3
    ensures Iterate(BitStep, x4, 4) == x
  {
    IterateFour(BitStep, x4, x3, x2, x1);
  }

  lemma HalfByteDown(x: bv32)
    requires x & 0xF000_0000 == 0
    ensures Iterate(BitStep, x << 4, 4) == x
  {
    var x1 := x << 1;
    var x2 := x1 << 1;
    var x3 := x2 << 1;
    Room(x);
    Room(x1);
    Room(x2);
    StepDown(x);
    StepDown(x1);
    StepDown(x2);
    StepDown(x3);
    ShiftTwice(x);
    FourStepsDown(x, x1, x2, x3, x << 4);
  }

  /** Eight steps take a register whose last byte is empty down by that byte. */
  lemma EightStepsDown(x: bv32)
    requires x & 0xFF00_0000 == 0
    ensures Iterate(BitStep, x << 8, 8) == x
  {
    Room(x);
    HalfByteDown(x);
    HalfByteDown(x << 4);
    ShiftTwice(x);
    IterateSum(BitStep, x << 8, 4, 4);
  }

  /** The little-endian word of at most four bytes. */
  function Word(w: seq<bv8>): bv32
    requires |w| <= 4
  {
    if w == [] then 0 else (w[0] as bv32) ^ (Word(w[1..]) << 8)
  }

  lemma Widen(b: bv8, r: bv32)
    ensures r == 0 ==> ((b as bv32) ^ (r << 8)) & 0xFFFF_FF00 == 0
    ensures r & 0xFFFF_FF00 == 0 ==> ((b as bv32) ^ (r << 8)) & 0xFFFF_0000 == 0
    ensures r & 0xFFFF_0000 == 0 ==> ((b as bv32) ^ (r << 8)) & 0xFF00_0000 == 0
  {
  }

  lemma Narrow(r: bv32)
    ensures r == 0 ==> r & 0xFF00_0000 == 0
    ensures r & 0xFFFF_FF00 == 0 ==> r & 0xFF00_0000 == 0
    ensures r & 0xFFFF_0000 == 0 ==> r & 0xFF00_0000 == 0
  {
  }

  lemma {:induction false} WordFits(w: seq<bv8>)
    requires |w| <= 3
    ensures |w| == 0 ==> Word(w) == 0
    ensures |w| == 1 ==> Word(w) & 0xFFFF_FF00 == 0
    ensures |w| == 2 ==> Word(w) & 0xFFFF_0000 == 0
    ensures |w| == 3 ==> Word(w) & 0xFF00_0000 == 0
  {
    if w != [] {
      WordFits(w[1..]);
      Widen(w[0], Word(w[1..]));
    }
  }

  lemma SplitWord(b: bv8, r: bv32)
    requires r & 0xFF00_0000 == 0
    ensures (b as bv32) ^ (r << 8) == 0 ==> b == 0 && r == 0
  {
  }

  lemma {:induction false} WordZero(w: seq<bv8>)
    requires |w| <= 4 && Word(w) == 0
    ensures forall i :: 0 <= i < |w| ==> w[i] == 0
  {
    if w != [] {
      WordFits(w[1..]);
      Narrow(Word(w[1..]));
      SplitWord(w[0], Word(w[1..]));
      WordZero(w[1..]);
      forall i | 0 <= i < |w|
        ensures w[i] == 0
      {
        assert i > 0 ==> w[i] == w[1..][i - 1];
      }
    }
  }

  lemma ZeroStays()
    ensures Iterate(BitStep, 0, 8) == 0
  {
    EightStepsDown(0);
    assert (0 as bv32) << 8 == 0;
  }

  /** Over at most four bytes the register reaches zero exactly when it held those bytes. */
  lemma {:induction false} ReachesZero(c: bv32, w: seq<bv8>)
    requires |w| <= 4
    ensures Register(c, w) == 0 <==> c == Word(w)
    decreases |w|
  {
    if w != [] {
      var r := Word(w[1..]);
      ReachesZero(ByteStep(c, w[0]), w[1..]);
      WordFits(w[1..]);
      Narrow(r);
      EightStepsDown(r);
      if ByteStep(c, w[0]) == r {
        BitStepsInjective(c ^ (w[0] as bv32), r << 8, 8);
      }
      XorMoves(c, w[0] as bv32, r << 8);
    }
  }

  predicate Zeros(s: seq<bv8>) {
    forall i :: 0 <= i < |s| ==> s[i] == 0
  }

  lemma {:induction false} ZerosKeep(c: bv32, z: seq<bv8>)
    requires Zeros(z)
    ensures Register(c, z) == 0 <==> c == 0
    decreases |z|
  {
    if z != [] {
      ZeroStays();
      XorZero(c);
      assert (0 as bv8) as bv32 == 0;
      if Iterate(BitStep, c, 8) == 0 {
        BitStepsInjective(c, 0, 8);
      }
      ZerosKeep(ByteStep(c, 0), z[1..]);
    }
  }

  lemma BurstRegister(p: seq<bv8>, w: seq<bv8>, q: seq<bv8>)
    requires Zeros(p) && Zeros(q) && |w| <= 4
    requires Register(0, p + w + q) == 0
    ensures Zeros(w)
  {
    FoldAppend(ByteStep, 0, p + w, q);
    FoldAppend(ByteStep, 0, p, w);
    ZerosKeep(0, p);
    ZerosKeep(Register(0, w), q);
    ReachesZero(0, w);
    WordZero(w);
  }

  /** The two inputs agree at every index outside `[at, at + n)`. */
  predicate AgreeOutside(a: seq<bv8>, b: seq<bv8>, at: nat, n: nat)
    requires |a| == |b|
  {
    forall i :: 0 <= i < |a| && !(at <= i < at + n) ==> a[i] == b[i]
  }

  lemma XorIsZeroAt(a: seq<bv8>, b: seq<bv8>, i: nat)
    requires |a| == |b| && i < |a|
    ensures Xor(a, b)[i] == 0 <==> a[i] == b[i]
  {
    ByteIsZero(a[i], b[i]);
  }

  /**
   Main result: two inputs of one length that differ only inside four consecutive
   bytes have equal checksums only when they are equal.
   */
  lemma BurstsAreDetected(a: seq<bv8>, b: seq<bv8>, at: nat, n: nat)
    requires |a| == |b| && n <= 4 && at + n <= |a| && AgreeOutside(a, b, at, n)
    ensures Checksum(a) == Checksum(b) <==> a == b
  {
    if Checksum(a) == Checksum(b) {
      var x := Xor(a, b);
      ChecksumAffine(a, b);
      XorSelf(Checksum(a));
      var p, w, q := x[..at], x[at..at + n], x[at + n..];
      assert x == p + w + q;
      forall i | 0 <= i < |a|
        ensures x[i] == 0 <==> a[i] == b[i]
      {
        XorIsZeroAt(a, b, i);
      }
      BurstRegister(p, w, q);
      forall i | 0 <= i < |a|
        ensures a[i] == b[i]
      {
        if at <= i < at + n {
          assert x[i] == w[i - at];
        }
      }
    }
  }
}
