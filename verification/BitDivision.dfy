/**
 Long division of bits, and a register of 32 bits that carries it out one bit at a time, for any
 representation of the register.
 */
module BitDivision {

  import opened Iteration

  /** The divisor, highest power first: whether bit `i` of its 33 bits is set. */
  predicate Divisor(i: nat) {
    i <= 32 && 32 - i in {32, 26, 23, 22, 16, 12, 11, 10, 8, 7, 5, 4, 2, 1, 0}
  }

  /** The divisor subtracted from the highest bits, without carries. */
  function Subtracted(s: seq<bool>): (t: seq<bool>)
    ensures |t| == |s|
  {
    seq(|s|, i requires 0 <= i < |s| => s[i] != Divisor(i))
  }

  /** What long division leaves: the divisor is subtracted wherever the highest bit is set. */
  function Remainder(s: seq<bool>): seq<bool>
    decreases |s|
  {
    if |s| <= 32 then s else Remainder((if s[0] then Subtracted(s) else s)[1..])
  }

  /** Bit `j` of a word, counted from the lowest one. */
  predicate Nth<T(!new)>(low: T -> bool, half: T -> T, c: T, j: nat)
    decreases j
  {
    if j == 0 then low(c) else Nth(low, half, half(c), j - 1)
  }

  /** The exclusive or of two words works bit by bit. */
  ghost predicate Bitwise<T(!new)>(low: T -> bool, half: T -> T, xor: (T, T) -> T) {
    && (forall a, b :: low(xor(a, b)) <==> low(a) != low(b))
    && (forall a, b :: half(xor(a, b)) == xor(half(a), half(b)))
  }

  /** A step drops the lowest bit and, when it was set, subtracts the word `poly`. */
  ghost predicate Divides<T(!new)>(low: T -> bool, half: T -> T, xor: (T, T) -> T, step: T -> T, poly: T) {
    forall c :: step(c) == if low(c) then xor(half(c), poly) else half(c)
  }

  ghost predicate Has32Bits<T(!new)>(low: T -> bool, half: T -> T) {
    forall c :: !Nth(low, half, c, 32)
  }

  /** The word holds the divisor behind its highest power, which comes first. */
  ghost predicate HoldsDivisor<T(!new)>(low: T -> bool, half: T -> T, poly: T) {
    forall j :: 0 <= j < 32 ==> (Nth(low, half, poly, j) <==> Divisor(j + 1))
  }

  ghost predicate IsRegister<T(!new)>(low: T -> bool, half: T -> T, xor: (T, T) -> T, step: T -> T, poly: T) {
    && Bitwise(low, half, xor) && Divides(low, half, xor, step, poly)
    && Has32Bits(low, half) && HoldsDivisor(low, half, poly)
  }

  lemma {:induction false} XorNth<T(!new)>(low: T -> bool, half: T -> T, xor: (T, T) -> T, a: T, b: T, j: nat)
    requires Bitwise(low, half, xor)
    ensures Nth(low, half, xor(a, b), j) <==> Nth(low, half, a, j) != Nth(low, half, b, j)
    decreases j
  {
    if j > 0 {
      XorNth(low, half, xor, half(a), half(b), j - 1);
    }
  }

  /** The word is subtracted from the first 32 bits of the message and the 32 zeros behind it. */
  function Laid<T(!new)>(low: T -> bool, half: T -> T, c: T, m: seq<bool>): (s: seq<bool>)
    ensures |s| == |m| + 32
  {
    seq(|m| + 32, i requires 0 <= i < |m| + 32 => (i < |m| && m[i]) != (i < 32 && Nth(low, half, c, i)))
  }

  /** One bit of the message goes into the word, and one bit of the division is done. */
  function Feed<T(!new)>(xor: (T, T) -> T, step: T -> T, one: T, c: T, b: bool): T {
    step(if b then xor(c, one) else c)
  }

  function FeedAll<T(!new)>(xor: (T, T) -> T, step: T -> T, one: T, c: T, m: seq<bool>): T
    decreases |m|
  {
    if m == [] then c else FeedAll(xor, step, one, Feed(xor, step, one, c, m[0]), m[1..])
  }

  /** Bits of the word after a step. */
  lemma StepBits<T(!new)>(low: T -> bool, half: T -> T, xor: (T, T) -> T, step: T -> T, poly: T, c: T, j: nat)
    requires IsRegister(low, half, xor, step, poly) && j < 32
    ensures Nth(low, half, step(c), j) <==>
      (j < 31 && Nth(low, half, c, j + 1)) != (low(c) && Divisor(j + 1))
  {
    XorNth(low, half, xor, half(c), poly, j);
    assert Nth(low, half, half(c), j) == Nth(low, half, c, j + 1);
    assert j == 31 ==> !Nth(low, half, c, 32);
  }

  /** Whether the first bit of what is left to divide is set, and what is left after it. */
  lemma LaidAfter<T(!new)>(
    low: T -> bool, half: T -> T, xor: (T, T) -> T, step: T -> T, poly: T, one: T, c: T, m: seq<bool>)
    requires IsRegister(low, half, xor, step, poly) && m != []
    requires low(one) && forall j :: 0 < j < 32 ==> !Nth(low, half, one, j)
    ensures var s := Laid(low, half, c, m); var c' := Feed(xor, step, one, c, m[0]);
      (if s[0] then Subtracted(s) else s)[1..] == Laid(low, half, c', m[1..])
  {
    var s := Laid(low, half, c, m);
    var w := if m[0] then xor(c, one) else c;
    assert low(w) == s[0];
    forall i | 0 <= i < |m| + 31
      ensures (if s[0] then Subtracted(s) else s)[1..][i] == Laid(low, half, step(w), m[1..])[i]
    {
      if i < 32 {
        StepBits(low, half, xor, step, poly, w, i);
        XorNth(low, half, xor, c, one, i + 1);
      }
    }
  }

  /** Dividing is feeding the word with the message bit by bit. */
  lemma {:induction false} DividesByFeeding<T(!new)>(
    low: T -> bool, half: T -> T, xor: (T, T) -> T, step: T -> T, poly: T, one: T, c: T, m: seq<bool>)
    requires IsRegister(low, half, xor, step, poly)
    requires low(one) && forall j :: 0 < j < 32 ==> !Nth(low, half, one, j)
    ensures Remainder(Laid(low, half, c, m)) == Laid(low, half, FeedAll(xor, step, one, c, m), [])
    decreases |m|
  {
    if m != [] {
      LaidAfter(low, half, xor, step, poly, one, c, m);
      DividesByFeeding(low, half, xor, step, poly, one, Feed(xor, step, one, c, m[0]), m[1..]);
    }
  }

  lemma {:induction false} FeedAppend<T(!new)>(
    xor: (T, T) -> T, step: T -> T, one: T, c: T, m: seq<bool>, n: seq<bool>)
    ensures FeedAll(xor, step, one, c, m + n) == FeedAll(xor, step, one, FeedAll(xor, step, one, c, m), n)
    decreases |m|
  {
    if m == [] {
      assert m + n == n;
    } else {
      assert (m + n)[1..] == m[1..] + n;
      FeedAppend(xor, step, one, Feed(xor, step, one, c, m[0]), m[1..], n);
    }
  }

  /** The lowest `n` bits of a word, lowest first. */
  function Firsts<T(!new)>(low: T -> bool, half: T -> T, c: T, n: nat): (bits: seq<bool>)
    ensures |bits| == n
    decreases n
  {
    if n == 0 then [] else [low(c)] + Firsts(low, half, half(c), n - 1)
  }

  /** Steps over a word that was put in as a whole take it in bit by bit. */
  ghost predicate Peels<T(!new)>(low: T -> bool, half: T -> T, xor: (T, T) -> T, step: T -> T, one: T) {
    forall c, w :: step(xor(c, w)) == xor(Feed(xor, step, one, c, low(w)), half(w))
  }

  lemma {:induction false} WordFeeds<T(!new)>(
    low: T -> bool, half: T -> T, xor: (T, T) -> T, step: T -> T, one: T, zero: T, c: T, w: T, n: nat)
    requires Peels(low, half, xor, step, one) && Iterate(half, w, n) == zero && forall x :: xor(x, zero) == x
    ensures Iterate(step, xor(c, w), n) == FeedAll(xor, step, one, c, Firsts(low, half, w, n))
    decreases n
  {
    if n > 0 {
      IterateSum(half, w, 1, n - 1);
      IterateSum(step, xor(c, w), 1, n - 1);
      assert Iterate(half, w, 1) == half(w) && Iterate(step, xor(c, w), 1) == step(xor(c, w));
      WordFeeds(low, half, xor, step, one, zero, Feed(xor, step, one, c, low(w)), half(w), n - 1);
    }
  }
}
