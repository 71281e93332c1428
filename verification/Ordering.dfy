/** Three-way comparisons, and what it takes for one to be a total preorder. */
module Ordering {

  datatype Order = Less | Equal | Greater

  function Flip(o: Order): Order {
    match o
    case Less => Greater
    case Equal => Equal
    case Greater => Less
  }

  function CompareNat(a: nat, b: nat): Order {
    if a < b then Less else if a == b then Equal else Greater
  }

  function CompareChar(a: char, b: char): Order {
    if a < b then Less else if a == b then Equal else Greater
  }

  /** The first comparison that is not equal decides. */
  function Then(first: Order, second: Order): Order {
    if first == Equal then second else first
  }

  /** Element by element; a proper prefix comes first. */
  function Lexicographic<T>(cmp: (T, T) -> Order, s: seq<T>, t: seq<T>): Order {
    if s == [] then (if t == [] then Equal else Less)
    else if t == [] then Greater
    else Then(cmp(s[0], t[0]), Lexicographic(cmp, s[1..], t[1..]))
  }

  function CompareText(s: string, t: string): Order {
    Lexicographic(CompareChar, s, t)
  }

  ghost predicate Reversible<T(!new)>(cmp: (T, T) -> Order) {
    forall a, b :: cmp(b, a) == Flip(cmp(a, b))
  }

  /** Two comparisons in a row, neither `Greater`, and what the third must be. */
  predicate Chains(ab: Order, bc: Order, ac: Order) {
    ab != Greater && bc != Greater ==>
      ac == if ab == Less || bc == Less then Less else Equal
  }

  ghost predicate Transitive<T(!new)>(cmp: (T, T) -> Order) {
    forall a, b, c {:trigger cmp(a, b), cmp(b, c)} :: Chains(cmp(a, b), cmp(b, c), cmp(a, c))
  }

  ghost predicate TotalPreorder<T(!new)>(cmp: (T, T) -> Order) {
    Reversible(cmp) && Transitive(cmp)
  }

  lemma {:induction false} LexicographicReverses<T(!new)>(cmp: (T, T) -> Order, s: seq<T>, t: seq<T>)
    requires Reversible(cmp)
    ensures Lexicographic(cmp, t, s) == Flip(Lexicographic(cmp, s, t))
  {
    if s != [] && t != [] {
      LexicographicReverses(cmp, s[1..], t[1..]);
    }
  }

  lemma ThenChains(ab: Order, bc: Order, ac: Order, ab': Order, bc': Order, ac': Order)
    requires Chains(ab, bc, ac) && Chains(ab', bc', ac')
    ensures Chains(Then(ab, ab'), Then(bc, bc'), Then(ac, ac'))
  {
  }

  lemma {:induction false} LexicographicChains<T(!new)>(cmp: (T, T) -> Order, s: seq<T>, t: seq<T>, u: seq<T>)
    requires Transitive(cmp)
    ensures Chains(Lexicographic(cmp, s, t), Lexicographic(cmp, t, u), Lexicographic(cmp, s, u))
  {
    if s != [] && t != [] && u != [] {
      LexicographicChains(cmp, s[1..], t[1..], u[1..]);
      ThenChains(cmp(s[0], t[0]), cmp(t[0], u[0]), cmp(s[0], u[0]),
                 Lexicographic(cmp, s[1..], t[1..]), Lexicographic(cmp, t[1..], u[1..]),
                 Lexicographic(cmp, s[1..], u[1..]));
    }
  }

  lemma TextIsOrdered(s: string, t: string, u: string)
    ensures CompareText(t, s) == Flip(CompareText(s, t))
    ensures Chains(CompareText(s, t), CompareText(t, u), CompareText(s, u))
  {
    LexicographicReverses(CompareChar, s, t);
    LexicographicChains(CompareChar, s, t, u);
  }

  /** The first place where two sequences differ, found without comparing step by step. */
  ghost predicate FirstLower<T(!new)>(lower: (T, T) -> bool, s: seq<T>, t: seq<T>) {
    exists i :: DiffersAt(lower, s, t, i)
  }

  ghost predicate DiffersAt<T(!new)>(lower: (T, T) -> bool, s: seq<T>, t: seq<T>, i: nat) {
    && i <= |s| && i < |t| && s[..i] == t[..i]
    && (i == |s| || lower(s[i], t[i]))
  }

  /** Comparing step by step finds that place. */
  lemma {:induction false} LexicographicIsFirstLower<T(!new)>(
    cmp: (T, T) -> Order, lower: (T, T) -> bool, s: seq<T>, t: seq<T>)
    requires forall a, b :: cmp(a, b) == Less <==> lower(a, b)
    requires forall a, b :: cmp(a, b) == Equal <==> a == b
    ensures Lexicographic(cmp, s, t) == Less <==> FirstLower(lower, s, t)
    ensures Lexicographic(cmp, s, t) == Equal <==> s == t
  {
    if s == [] || t == [] {
      if s == [] && t != [] {
        assert DiffersAt(lower, s, t, 0);
      }
    } else {
      LexicographicIsFirstLower(cmp, lower, s[1..], t[1..]);
      assert s == [s[0]] + s[1..] && t == [t[0]] + t[1..];
      if i :| DiffersAt(lower, s[1..], t[1..], i) {
        if s[0] == t[0] {
          LaterDifference(lower, s, t, i);
        }
      }
      if lower(s[0], t[0]) {
        assert DiffersAt(lower, s, t, 0);
      }
      if i :| DiffersAt(lower, s, t, i) {
        if i > 0 {
          EarlierDifference(lower, s, t, i);
        }
      }
    }
  }

  lemma LaterDifference<T(!new)>(lower: (T, T) -> bool, s: seq<T>, t: seq<T>, i: nat)
    requires s != [] && t != [] && s[0] == t[0] && DiffersAt(lower, s[1..], t[1..], i)
    ensures DiffersAt(lower, s, t, i + 1)
  {
    assert s[..i + 1] == [s[0]] + s[1..][..i];
    assert t[..i + 1] == [t[0]] + t[1..][..i];
  }

  lemma EarlierDifference<T(!new)>(lower: (T, T) -> bool, s: seq<T>, t: seq<T>, i: nat)
    requires i > 0 && DiffersAt(lower, s, t, i)
    ensures s != [] && t != [] && s[0] == t[0] && DiffersAt(lower, s[1..], t[1..], i - 1)
  {
    assert s[..i][0] == t[..i][0];
    assert s[1..][..i - 1] == s[..i][1..];
    assert t[1..][..i - 1] == t[..i][1..];
  }
}
