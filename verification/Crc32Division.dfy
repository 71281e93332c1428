/**
 The checksum of plugin packages (crates/host-core/src/plugins.rs) as long division: the
 polynomial of section 4.4.7 of the PKWARE APPNOTE, the dividend begun with ones and the
 remainder complemented.
 */
module Crc32Division {

  import opened BitDivision
  import opened Crc32
  import opened Iteration

  predicate Low(c: bv32) {
    c & 1 == 1
  }

  function Half(c: bv32): bv32 {
    c >> 1
  }

  /** Bit `j` of a word, counted from the lowest one. */
  predicate Bit(c: bv32, j: nat) {
    Nth(Low, Half, c, j)
  }

  /** The bits of a message: each byte from its lowest bit on. */
  function MessageBits(data: seq<bv8>): (bits: seq<bool>)
    ensures |bits| == 8 * |data|
  {
    if data == [] then [] else Firsts(Low, Half, data[0] as bv32, 8) + MessageBits(data[1..])
  }

  /** The message and 32 zeros behind it, with its first 32 bits complemented. */
  function Dividend(m: seq<bool>): (s: seq<bool>)
    ensures |s| == |m| + 32
  {
    seq(|m| + 32, i requires 0 <= i < |m| + 32 => (i < |m| && m[i]) != (i < 32))
  }

  /** The word holds the complement of these 32 bits, the first one lowest. */
  predicate HoldsComplement(c: bv32, r: seq<bool>) {
    |r| == 32 && forall j :: 0 <= j < 32 ==> (Bit(c, j) <==> !r[j])
  }

  // ---- Words of 32 bits -----------------------------------------------------------------

  lemma NthLater<T(!new)>(low: T -> bool, half: T -> T, c: T, j: nat, n: nat)
    ensures Nth(low, half, c, j + n) == Nth(low, half, Iterate(half, c, n), j)
    decreases n
  {
    if n > 0 {
      NthLater(low, half, c, j + 1, n - 1);
    }
  }

  lemma FourHalves<T>(half: T -> T, c: T, c1: T, c2: T, c3: T, c4: T)
    requires half(c) == c1 && half(c1) == c2 && half(c2) == c3 && half(c3) == c4
    ensures Iterate(half, c, 4) == c4
  {
    IterateFour(half, c, c1, c2, c3);
  }

  lemma HalvesShift(c: bv32, c1: bv32, c2: bv32, c3: bv32, c4: bv32)
    requires Half(c) == c1 && Half(c1) == c2 && Half(c2) == c3 && Half(c3) == c4
    ensures c4 == c >> 4
  {
  }

  lemma HalfByteShifted(c: bv32, d: bv32)
    requires d == c >> 4
    ensures Iterate(Half, c, 4) == d
  {
    var c1 := Half(c);
    var c2 := Half(c1);
    var c3 := Half(c2);
    var c4 := Half(c3);
    HalvesShift(c, c1, c2, c3, c4);
    FourHalves(Half, c, c1, c2, c3, c4);
  }

  lemma ByteShifted(c: bv32, d: bv32, e: bv32)
    requires d == c >> 4 && e == d >> 4
    ensures Iterate(Half, c, 8) == e
  {
    HalfByteShifted(c, d);
    HalfByteShifted(d, e);
    IterateSum(Half, c, 4, 4);
  }

  lemma EightShiftsOfFour(a: bv32, b: bv32, c: bv32, d: bv32, e: bv32, f: bv32, g: bv32, h: bv32, i: bv32)
    requires b == a >> 4 && c == b >> 4 && d == c >> 4 && e == d >> 4
    requires f == e >> 4 && g == f >> 4 && h == g >> 4 && i == h >> 4
    ensures i == 0
  {
  }

  lemma EightEach<T>(f: T -> T, a: T, c: T, e: T, g: T, i: T)
    requires Iterate(f, a, 8) == c && Iterate(f, c, 8) == e && Iterate(f, e, 8) == g && Iterate(f, g, 8) == i
    ensures Iterate(f, a, 32) == i
  {
    IterateSum(f, a, 8, 8);
    IterateSum(f, e, 8, 8);
    IterateSum(f, a, 16, 16);
  }

  lemma WordShifted(a: bv32)
    ensures Iterate(Half, a, 32) == 0
  {
    var b := a >> 4;
    var c := b >> 4;
    var d := c >> 4;
    var e := d >> 4;
    var f := e >> 4;
    var g := f >> 4;
    var h := g >> 4;
    var i := h >> 4;
    ByteShifted(a, b, c);
    ByteShifted(c, d, e);
    ByteShifted(e, f, g);
    ByteShifted(g, h, i);
    EightEach(Half, a, c, e, g, i);
    EightShiftsOfFour(a, b, c, d, e, f, g, h, i);
  }

  lemma NoMoreBits(c: bv32)
    ensures !Bit(c, 32)
  {
    WordShifted(c);
    NthLater(Low, Half, c, 0, 32);
    ZeroIsEven();
  }

  lemma ZeroIsEven()
    ensures !Bit(0, 0)
  {
  }

  // ---- Bits of constants ------------------------------------------------------------------

  /** The lowest four bits of a word. */
  lemma LowestFour(c: bv32)
    ensures Bit(c, 0) <==> c & 1 != 0
    ensures Bit(c, 1) <==> c & 2 != 0
    ensures Bit(c, 2) <==> c & 4 != 0
    ensures Bit(c, 3) <==> c & 8 != 0
  {
    var c1 := Half(c);
    var c2 := Half(c1);
    var c3 := Half(c2);
    FourBits(Low, Half, c, c1, c2, c3);
    LowestBits(c, c1, c2, c3);
  }

  lemma FourBits<T(!new)>(low: T -> bool, half: T -> T, c: T, c1: T, c2: T, c3: T)
    requires half(c) == c1 && half(c1) == c2 && half(c2) == c3
    ensures Nth(low, half, c, 0) == low(c) && Nth(low, half, c, 1) == low(c1)
    ensures Nth(low, half, c, 2) == low(c2) && Nth(low, half, c, 3) == low(c3)
  {
    assert Nth(low, half, c1, 1) == low(c2) && Nth(low, half, c2, 1) == low(c3) && Nth(low, half, c1, 2) == low(c3);
  }

  lemma LowestBits(c: bv32, c1: bv32, c2: bv32, c3: bv32)
    requires Half(c) == c1 && Half(c1) == c2 && Half(c2) == c3
    ensures Low(c) == (c & 1 != 0) && Low(c1) == (c & 2 != 0) && Low(c2) == (c & 4 != 0) && Low(c3) == (c & 8 != 0)
  {
  }

  lemma NextFour(c: bv32, d: bv32, j: nat)
    requires d == c >> 4
    ensures Bit(c, j + 4) == Bit(d, j)
  {
    HalfByteShifted(c, d);
    NthLater(Low, Half, c, j, 4);
  }

  /** A word, and what is left of it when its lowest four bits are dropped again and again. */
  ghost predicate Dropping(words: seq<bv32>) {
    |words| == 8 && forall k {:trigger words[k]} :: 0 <= k < 7 ==> words[k + 1] == words[k] >> 4
  }

  lemma {:induction false} BitInFour(words: seq<bv32>, k: nat, j: nat)
    requires Dropping(words) && k < 8
    ensures Bit(words[0], 4 * k + j) == Bit(words[k], j)
  {
    if k > 0 {
      BitInFour(words, k - 1, j + 4);
      assert words[k - 1 + 1] == words[k - 1] >> 4;
      NextFour(words[k - 1], words[k], j);
    }
  }

  const POLYNOMIAL_WORDS: seq<bv32> :=
    [0xEDB8_8320, 0x0EDB_8832, 0x00ED_B883, 0x000E_DB88, 0x0000_EDB8, 0x0000_0EDB, 0x0000_00ED, 0x0000_000E]

  lemma PolynomialFour(k: nat, c: bv32)
    requires k < 8 && c == POLYNOMIAL_WORDS[k]
    ensures Bit(c, 0) == Divisor(4 * k + 1) && Bit(c, 1) == Divisor(4 * k + 2)
    ensures Bit(c, 2) == Divisor(4 * k + 3) && Bit(c, 3) == Divisor(4 * k + 4)
  {
    LowestFour(c);
  }

  lemma PolynomialDrops()
    ensures Dropping(POLYNOMIAL_WORDS) && POLYNOMIAL_WORDS[0] == POLYNOMIAL
  {
  }

  lemma PolynomialBit(j: nat)
    requires j < 32
    ensures Bit(POLYNOMIAL, j) <==> Divisor(j + 1)
  {
    var k := j / 4;
    PolynomialDrops();
    BitInFour(POLYNOMIAL_WORDS, k, j % 4);
    PolynomialFour(k, POLYNOMIAL_WORDS[k]);
  }

  const ONES_WORDS: seq<bv32> :=
    [0xFFFF_FFFF, 0x0FFF_FFFF, 0x00FF_FFFF, 0x000F_FFFF, 0x0000_FFFF, 0x0000_0FFF, 0x0000_00FF, 0x0000_000F]

  lemma OnesFour(k: nat, c: bv32)
    requires k < 8 && c == ONES_WORDS[k]
    ensures Bit(c, 0) && Bit(c, 1) && Bit(c, 2) && Bit(c, 3)
  {
    LowestFour(c);
  }

  lemma OnesDrop()
    ensures Dropping(ONES_WORDS) && ONES_WORDS[0] == 0xFFFF_FFFF
  {
  }

  lemma OnesBit(j: nat)
    requires j < 32
    ensures Bit(0xFFFF_FFFF, j)
  {
    var k := j / 4;
    OnesDrop();
    BitInFour(ONES_WORDS, k, j % 4);
    OnesFour(k, ONES_WORDS[k]);
  }

  lemma {:induction false} ZeroBits(j: nat)
    ensures !Bit(0, j)
    decreases j
  {
    assert Half(0) == 0;
    if j > 0 {
      ZeroBits(j - 1);
    }
  }

  lemma OneBits(j: nat)
    requires 0 < j
    ensures Low(1) && !Bit(1, j)
  {
    assert Half(1) == 0;
    ZeroBits(j - 1);
  }

  // ---- The register is a long division -------------------------------------------------------

  lemma WordsAreBitwise()
    ensures Bitwise(Low, Half, XorWord)
  {
    forall a, b
      ensures Low(XorWord(a, b)) <==> Low(a) != Low(b)
      ensures Half(XorWord(a, b)) == XorWord(Half(a), Half(b))
    {
      XorLowBit(a, b);
      XorShift(a, b);
    }
  }

  lemma StepsDivide()
    ensures Divides(Low, Half, XorWord, BitStep, POLYNOMIAL)
  {
  }

  lemma WordsHave32Bits()
    ensures Has32Bits(Low, Half)
  {
    forall c
      ensures !Nth(Low, Half, c, 32)
    {
      NoMoreBits(c);
    }
  }

  lemma PolynomialIsDivisor()
    ensures HoldsDivisor(Low, Half, POLYNOMIAL)
  {
    forall j | 0 <= j < 32
      ensures Nth(Low, Half, POLYNOMIAL, j) <==> Divisor(j + 1)
    {
      PolynomialBit(j);
    }
  }

  lemma WordsAreRegisters()
    ensures IsRegister(Low, Half, XorWord, BitStep, POLYNOMIAL)
  {
    WordsAreBitwise();
    StepsDivide();
    WordsHave32Bits();
    PolynomialIsDivisor();
  }

  lemma WordParts(c: bv32, w: bv32, h: bv32, rest: bv32)
    requires h == Half(w) && rest == h << 1
    ensures h & 0x8000_0000 == 0
    ensures XorWord(c, w) == XorWord(if Low(w) then XorWord(c, 1) else c, rest)
  {
  }

  lemma StepPeels(c: bv32, w: bv32, h: bv32, rest: bv32)
    requires h == Half(w) && rest == h << 1
    ensures BitStep(XorWord(c, w)) == XorWord(Feed(XorWord, BitStep, 1, c, Low(w)), h)
  {
    WordParts(c, w, h, rest);
    StepDown(h);
    StepsAddUp(if Low(w) then XorWord(c, 1) else c, rest, h);
  }

  lemma StepsAddUp(a: bv32, rest: bv32, h: bv32)
    requires BitStep(rest) == h
    ensures BitStep(XorWord(a, rest)) == XorWord(BitStep(a), h)
  {
    forall x, y
      ensures BitStep(XorWord(x, y)) == XorWord(BitStep(x), BitStep(y))
    {
      BitStepLinear(x, y);
    }
    SumOfSteps(XorWord, BitStep, a, rest, h);
  }

  lemma SumOfSteps<T(!new)>(xor: (T, T) -> T, step: T -> T, a: T, rest: T, h: T)
    requires Additive(xor, step) && step(rest) == h
    ensures step(xor(a, rest)) == xor(step(a), h)
  {
  }

  lemma StepsPeel()
    ensures Peels(Low, Half, XorWord, BitStep, 1)
  {
    forall c, w
      ensures BitStep(XorWord(c, w)) == XorWord(Feed(XorWord, BitStep, 1, c, Low(w)), Half(w))
    {
      StepPeels(c, w, Half(w), Half(w) << 1);
    }
  }

  lemma ByteIsShort(b: bv8, w: bv32, d: bv32, e: bv32)
    requires w == b as bv32 && d == w >> 4 && e == d >> 4
    ensures e == 0
  {
  }

  /** One byte of the loop takes its eight bits in, lowest first. */
  lemma ByteFeeds(c: bv32, b: bv8)
    ensures ByteStep(c, b) == FeedAll(XorWord, BitStep, 1, c, Firsts(Low, Half, b as bv32, 8))
  {
    var w := b as bv32;
    ByteIsShort(b, w, w >> 4, (w >> 4) >> 4);
    ByteShifted(w, w >> 4, (w >> 4) >> 4);
    StepsPeel();
    forall x
      ensures XorWord(x, 0) == x
    {
      XorZero(x);
    }
    WordFeeds(Low, Half, XorWord, BitStep, 1, 0, c, w, 8);
  }

  lemma {:induction false} RegisterFeeds(c: bv32, data: seq<bv8>)
    ensures Register(c, data) == FeedAll(XorWord, BitStep, 1, c, MessageBits(data))
    decreases |data|
  {
    if data != [] {
      ByteFeeds(c, data[0]);
      RegisterFeeds(ByteStep(c, data[0]), data[1..]);
      FeedAppend(XorWord, BitStep, 1, c, Firsts(Low, Half, data[0] as bv32, 8), MessageBits(data[1..]));
    }
  }

  lemma DividendIsLaid(m: seq<bool>)
    ensures Dividend(m) == Laid(Low, Half, 0xFFFF_FFFF, m)
  {
    forall i | 0 <= i < |m| + 32
      ensures Dividend(m)[i] == Laid(Low, Half, 0xFFFF_FFFF, m)[i]
    {
      if i < 32 { OnesBit(i); }
    }
  }

  lemma ComplementBit(c: bv32, j: nat)
    requires j < 32
    ensures Bit(!c, j) <==> !Bit(c, j)
  {
    Complement(c);
    WordsAreBitwise();
    XorNth(Low, Half, XorWord, c, 0xFFFF_FFFF, j);
    OnesBit(j);
  }

  lemma Complement(c: bv32)
    ensures !c == XorWord(c, 0xFFFF_FFFF)
  {
  }

  lemma DividesAll(c: bv32, m: seq<bool>)
    ensures Remainder(Laid(Low, Half, c, m)) == Laid(Low, Half, FeedAll(XorWord, BitStep, 1, c, m), [])
  {
    WordsAreRegisters();
    forall j | 0 < j < 32
      ensures !Nth(Low, Half, 1, j)
    {
      OneBits(j);
    }
    OneBits(1);
    DividesByFeeding(Low, Half, XorWord, BitStep, POLYNOMIAL, 1, c, m);
  }

  lemma OnlyTheWord<T(!new)>(low: T -> bool, half: T -> T, c: T, n: T, r: seq<bool>)
    requires r == Laid(low, half, c, [])
    requires forall j :: 0 <= j < 32 ==> (Nth(low, half, n, j) <==> !Nth(low, half, c, j))
    ensures |r| == 32 && forall j :: 0 <= j < 32 ==> (Nth(low, half, n, j) <==> !r[j])
  {
  }

  lemma ComplementedBits(c: bv32, n: bv32, r: seq<bool>)
    requires n == !c && r == Laid(Low, Half, c, [])
    ensures HoldsComplement(n, r)
  {
    forall j | 0 <= j < 32
      ensures Nth(Low, Half, n, j) <==> !Nth(Low, Half, c, j)
    {
      ComplementBit(c, j);
    }
    OnlyTheWord(Low, Half, c, n, r);
  }

  lemma RemainderIsRegister(data: seq<bv8>, c: bv32, r: seq<bool>)
    requires c == Register(0xFFFF_FFFF, data) && r == Remainder(Dividend(MessageBits(data)))
    ensures r == Laid(Low, Half, c, [])
  {
    RegisterFeeds(0xFFFF_FFFF, data);
    DividendIsLaid(MessageBits(data));
    DividesAll(0xFFFF_FFFF, MessageBits(data));
  }

  lemma ComplementedRegister(data: seq<bv8>, c: bv32, r: seq<bool>, n: bv32)
    requires c == Register(0xFFFF_FFFF, data) && r == Remainder(Dividend(MessageBits(data))) && n == !c
    ensures HoldsComplement(n, r)
  {
    RemainderIsRegister(data, c, r);
    ComplementedBits(c, n, r);
  }

  lemma ChecksumIs(data: seq<bv8>, c: bv32, n: bv32)
    requires c == Register(0xFFFF_FFFF, data) && n == Checksum(data)
    ensures n == !c
  {
  }

  lemma ChecksumHolds(data: seq<bv8>, c: bv32, n: bv32, r: seq<bool>)
    requires c == Register(0xFFFF_FFFF, data) && n == Checksum(data) && r == Remainder(Dividend(MessageBits(data)))
    ensures HoldsComplement(n, r)
  {
    ChecksumIs(data, c, n);
    ComplementedRegister(data, c, r, n);
  }

  /** Main result: the checksum is the complemented remainder of a long division: the message, each byte from its
      lowest bit on, with 32 zeros behind it and its first 32 bits complemented, divided by the polynomial. The
      lowest bit of the checksum belongs to the highest power. */
  lemma ChecksumIsRemainder(data: seq<bv8>)
    ensures HoldsComplement(Checksum(data), Remainder(Dividend(MessageBits(data))))
  {
    ChecksumHolds(data, Register(0xFFFF_FFFF, data), Checksum(data), Remainder(Dividend(MessageBits(data))));
  }
}
