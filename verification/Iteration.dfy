/** Repeating a step: what an additive or a reversible step still is after many repetitions. */
module Iteration {

  function Iterate<T>(f: T -> T, x: T, n: nat): T
    decreases n, x
  {
    if n == 0 then x else f(Iterate(f, x, n - 1))
  }

  function Fold<T, B>(f: (T, B) -> T, x: T, s: seq<B>): T
    decreases |s|
  {
    if s == [] then x else Fold(f, f(x, s[0]), s[1..])
  }

  function ZipWith<B>(op: (B, B) -> B, s: seq<B>, t: seq<B>): (z: seq<B>)
    requires |s| == |t|
    ensures |z| == |s| && forall i :: 0 <= i < |s| ==> z[i] == op(s[i], t[i])
  {
    seq(|s|, i requires 0 <= i < |s| => op(s[i], t[i]))
  }

  ghost predicate Additive<T(!new)>(op: (T, T) -> T, f: T -> T) {
    forall x, y :: f(op(x, y)) == op(f(x), f(y))
  }

  lemma {:induction false} IterateAdditive<T(!new)>(op: (T, T) -> T, f: T -> T, x: T, y: T, n: nat)
    requires Additive(op, f)
    ensures Iterate(f, op(x, y), n) == op(Iterate(f, x, n), Iterate(f, y, n))
  {
    if n > 0 {
      IterateAdditive(op, f, x, y, n - 1);
    }
  }

  lemma {:induction false} IterateInjective<T(!new)>(f: T -> T, back: T -> T, x: T, y: T, n: nat)
    requires forall z :: back(f(z)) == z
    requires Iterate(f, x, n) == Iterate(f, y, n)
    ensures x == y
  {
    if n > 0 {
      assert back(f(Iterate(f, x, n - 1))) == back(f(Iterate(f, y, n - 1)));
      IterateInjective(f, back, x, y, n - 1);
    }
  }

  lemma IterateFour<T>(f: T -> T, x: T, x1: T, x2: T, x3: T)
    requires f(x) == x1 && f(x1) == x2 && f(x2) == x3
    ensures Iterate(f, x, 4) == f(x3)
  {
    assert Iterate(f, x, 1) == x1;
    assert Iterate(f, x, 2) == x2;
    assert Iterate(f, x, 3) == x3;
  }

  lemma {:induction false} IterateSum<T>(f: T -> T, x: T, m: nat, n: nat)
    ensures Iterate(f, x, m + n) == Iterate(f, Iterate(f, x, m), n)
  {
    if n > 0 {
      IterateSum(f, x, m, n - 1);
    }
  }

  lemma {:induction false} FoldAdditive<T(!new), B(!new)>(
    op: (T, T) -> T, ob: (B, B) -> B, f: (T, B) -> T, x: T, y: T, s: seq<B>, t: seq<B>)
    requires |s| == |t|
    requires forall u, v, a, b :: f(op(u, v), ob(a, b)) == op(f(u, a), f(v, b))
    ensures Fold(f, op(x, y), ZipWith(ob, s, t)) == op(Fold(f, x, s), Fold(f, y, t))
    decreases |s|
  {
    if s != [] {
      assert ZipWith(ob, s, t)[1..] == ZipWith(ob, s[1..], t[1..]);
      FoldAdditive(op, ob, f, f(x, s[0]), f(y, t[0]), s[1..], t[1..]);
    }
  }

  lemma {:induction false} FoldAppend<T, B>(f: (T, B) -> T, x: T, s: seq<B>, t: seq<B>)
    ensures Fold(f, x, s + t) == Fold(f, Fold(f, x, s), t)
    decreases |s|
  {
    if s == [] {
      assert s + t == t;
    } else {
      assert (s + t)[1..] == s[1..] + t;
      FoldAppend(f, f(x, s[0]), s[1..], t);
    }
  }
}
