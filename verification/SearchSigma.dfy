/**
 When a match survives in another text (crates/host-core/src/session_search.rs): the same
 characters in other surroundings. A capital sigma folds by its surroundings, so a match stays
 exactly when each of its capital sigmas ends a word in both texts or in neither.
 */
module SearchSigma {

  import opened Lowercase
  import opened SearchExcerpt
  import opened Text
  import opened Wrappers

  /** The characters of a range stand at a place of another text. */
  predicate HoldsMatch(text: string, r: Range, other: string, at: nat) {
    && r.start <= r.end <= |text| && at + (r.end - r.start) <= |other|
    && text[r.start..r.end] == other[at..at + (r.end - r.start)]
  }

  predicate AgreesAt(c: Casing, text: string, other: string, i: nat, j: nat)
    requires i < |text| && j < |other|
  {
    text[i] == CAPITAL_SIGMA ==> (WordFinal(c, text, i) <==> WordFinal(c, other, j))
  }

  /** Each capital sigma of the range ends a word in both texts or in neither. */
  ghost predicate SigmasAgree(c: Casing, text: string, r: Range, other: string, at: nat)
    requires HoldsMatch(text, r, other, at)
  {
    forall i, j {:trigger AgreesAt(c, text, other, i, j)} ::
      r.start <= i < r.end && j == at + (i - r.start) ==> AgreesAt(c, text, other, i, j)
  }

  /** Where the hit of the text would stand in the other one, in lower case. */
  function PlaceOfHit(c: Casing, text: string, query: string, r: Range, other: string, at: nat): int
    requires r.start <= |text| && at <= |other| && Find(Lower(c, text), Needle(c, query)).Some?
  {
    Offset(c.fold, other, at) + (Find(Lower(c, text), Needle(c, query)).value - Offset(c.fold, text, r.start))
  }

  /** The match of the text is a match at this place of the other one. */
  predicate StandsAt(c: Casing, text: string, query: string, r: Range, other: string, at: nat)
    requires r.start <= |text| && at <= |other| && Find(Lower(c, text), Needle(c, query)).Some?
  {
    var place := PlaceOfHit(c, text, query, r, other, at);
    place >= 0 && Hit(Lower(c, other), Needle(c, query), place)
  }

  // ---- Hits in parts ---------------------------------------------------------------------------------

  lemma HitInside(pre: string, mid: string, post: string, needle: string, i: nat)
    requires |pre| <= i && i + |needle| <= |pre| + |mid|
    ensures Hit(pre + mid + post, needle, i) <==> Hit(mid, needle, i - |pre|)
  {
    assert (pre + mid + post)[i..i + |needle|] == mid[i - |pre|..i - |pre| + |needle|];
  }

  /** The first and the last folded offset of the hit, and the range around them. */
  lemma HitOf(fold: Fold, text: string, needle: string, r: Range) returns (hit: nat, last: nat)
    requires Nonempty(fold) && NeedleRange(fold, text, needle) == Some(r)
    ensures needle != "" && Find(Folded(fold, text), needle) == Some(hit)
    ensures last == hit + |needle| - 1 && last < FoldedLength(fold, text) && r == Between(fold, text, hit, last)
    ensures Offset(fold, text, r.start) <= hit && last < Offset(fold, text, r.end)
  {
    hit := Find(Folded(fold, text), needle).value;
    last := hit + |needle| - 1;
    OffsetIsLength(fold, text, |text|);
  }

  /** A hit within a part of the text is one of the part. */
  lemma HitOfPart(fold: Fold, text: string, a: nat, b: nat, part: string, needle: string, d: nat)
    requires a <= b <= |text| && part == text[a..b] && d + |needle| <= |Folded(fold, part)|
    ensures Hit(Folded(fold, text), needle, Offset(fold, text, a) + d) <==> Hit(Folded(fold, part), needle, d)
  {
    FoldedInside(fold, text, a, b);
    HitInside(FoldTo(fold, text, a), Folded(fold, part), FoldPart(fold, text, b, |text|), needle,
              Offset(fold, text, a) + d);
  }

  lemma PartLength(fold: Fold, text: string, a: nat, b: nat, part: string)
    requires a <= b <= |text| && part == text[a..b]
    ensures |Folded(fold, part)| == Offset(fold, text, b) - Offset(fold, text, a)
  {
    FoldedPart(fold, text, a, b, b - a);
    OffsetIsLength(fold, part, |part|);
  }

  lemma FoldedAt(fold: Fold, text: string, k: nat, x: char)
    requires k < |text| && fold(text[k]) == [x]
    ensures Offset(fold, text, k) < |Folded(fold, text)| && Folded(fold, text)[Offset(fold, text, k)] == x
  {
    FoldedInside(fold, text, k, k + 1);
    FoldedPart(fold, text, k, k + 1, 1);
    assert FoldPart(fold, text, k, k + 1) == FoldPart(fold, text, k, k) + fold(text[k]);
  }

  lemma NeedleAt(hay: string, needle: string, d: nat, o: nat)
    requires Hit(hay, needle, d) && d <= o < d + |needle|
    ensures needle[o - d] == hay[o]
  {
    assert hay[d..d + |needle|][o - d] == hay[o];
  }

  /** Two texts that differ in a character of the hit do not both have it. */
  lemma OtherCharNoHit(fold: Fold, x: string, y: string, k: nat, needle: string, d: nat, p: char, q: char)
    requires k < |x| && k < |y| && fold(x[k]) == [p] && fold(y[k]) == [q] && p != q
    requires Offset(fold, x, k) == Offset(fold, y, k) && d <= Offset(fold, x, k) < d + |needle|
    requires Hit(Folded(fold, x), needle, d)
    ensures !Hit(Folded(fold, y), needle, d)
  {
    var o := Offset(fold, x, k);
    FoldedAt(fold, x, k, p);
    FoldedAt(fold, y, k, q);
    NeedleAt(Folded(fold, x), needle, d, o);
    if d + |needle| <= |Folded(fold, y)| {
      assert Folded(fold, y)[d..d + |needle|][o - d] == q;
    }
  }

  /** A character of the range that folds to a single one lies wholly within the hit. */
  lemma SingleWithin(fold: Fold, text: string, hit: nat, last: nat, r: Range, i: nat)
    requires Nonempty(fold) && hit <= last < FoldedLength(fold, text) && r == Between(fold, text, hit, last)
    requires r.start <= i < r.end && |fold(text[i])| == 1
    ensures hit <= Offset(fold, text, i) <= last
  {
    if i > r.start {
      OffsetsGrow(fold, text, r.start + 1, i);
    }
    OffsetsGrow(fold, text, i, r.end - 1);
  }

  // ---- Where sigmas differ ---------------------------------------------------------------------------

  lemma SameCharacter(text: string, r: Range, other: string, at: nat, k: nat)
    requires HoldsMatch(text, r, other, at) && k < r.end - r.start
    ensures text[r.start + k] == other[at + k]
  {
    assert text[r.start + k] == text[r.start..r.end][k];
    assert other[at + k] == other[at..at + (r.end - r.start)][k];
  }

  /** The two parts, with their final sigmas, are equal exactly when their capital sigmas agree. */
  lemma SlicesAgree(c: Casing, text: string, r: Range, other: string, at: nat, x: string, y: string)
    requires HoldsMatch(text, r, other, at)
    requires x == WithFinals(c, text)[r.start..r.end]
    requires y == WithFinals(c, other)[at..at + (r.end - r.start)]
    ensures SigmasAgree(c, text, r, other, at) <==> x == y
  {
    forall i, j | r.start <= i < r.end && j == at + (i - r.start)
      ensures AgreesAt(c, text, other, i, j) <==> x[i - r.start] == y[i - r.start]
    {
      SameCharacter(text, r, other, at, i - r.start);
      WithFinalsAt(c, text, |text|, i);
      WithFinalsAt(c, other, |other|, j);
      assert x[i - r.start] == WithFinals(c, text)[i] && y[i - r.start] == WithFinals(c, other)[j];
    }
    if x != y {
      var k :| 0 <= k < |x| && x[k] != y[k];
      assert !AgreesAt(c, text, other, r.start + k, at + (r.start + k - r.start));
    }
  }

  /** Where the parts differ, one has a capital sigma and the other a final one. */
  lemma DifferInSigma(c: Casing, text: string, r: Range, other: string, at: nat, x: string, y: string, k: nat)
    requires HoldsMatch(text, r, other, at) && k < r.end - r.start
    requires x == WithFinals(c, text)[r.start..r.end]
    requires y == WithFinals(c, other)[at..at + (r.end - r.start)] && x[k] != y[k]
    ensures (x[k] == CAPITAL_SIGMA && y[k] == FINAL_SIGMA) || (x[k] == FINAL_SIGMA && y[k] == CAPITAL_SIGMA)
  {
    SameCharacter(text, r, other, at, k);
    WithFinalsAt(c, text, |text|, r.start + k);
    WithFinalsAt(c, other, |other|, at + k);
    assert x[k] == WithFinals(c, text)[r.start + k] && y[k] == WithFinals(c, other)[at + k];
  }

  lemma {:induction false} SameLengths(c: Casing, x: string, y: string, k: nat)
    requires Lowering(c) && |x| == |y| && k <= |x|
    requires forall i :: 0 <= i < |x| ==> |c.fold(x[i])| == |c.fold(y[i])|
    ensures Offset(c.fold, x, k) == Offset(c.fold, y, k)
  {
    if k > 0 {
      SameLengths(c, x, y, k - 1);
    }
  }

  lemma SlicesAlike(c: Casing, text: string, r: Range, other: string, at: nat, x: string, y: string)
    requires Lowering(c) && HoldsMatch(text, r, other, at)
    requires x == WithFinals(c, text)[r.start..r.end]
    requires y == WithFinals(c, other)[at..at + (r.end - r.start)]
    ensures |x| == |y| && forall k :: 0 <= k <= |x| ==> Offset(c.fold, x, k) == Offset(c.fold, y, k)
    ensures |Folded(c.fold, x)| == |Folded(c.fold, y)|
  {
    forall i | 0 <= i < |x|
      ensures |c.fold(x[i])| == |c.fold(y[i])|
    {
      if x[i] != y[i] {
        DifferInSigma(c, text, r, other, at, x, y, i);
      }
    }
    forall k | 0 <= k <= |x|
      ensures Offset(c.fold, x, k) == Offset(c.fold, y, k)
    {
      SameLengths(c, x, y, k);
    }
    OffsetIsLength(c.fold, x, |x|);
    OffsetIsLength(c.fold, y, |y|);
  }

  /** The hit lies in the part of the range and covers all characters that fold to a single one. */
  ghost predicate FoundAt(fold: Fold, x: string, needle: string, d: nat) {
    && d + |needle| <= |Folded(fold, x)| && Hit(Folded(fold, x), needle, d)
    && forall k :: 0 <= k < |x| && |fold(x[k])| == 1 ==> d <= Offset(fold, x, k) < d + |needle|
  }

  lemma HitInPart(fold: Fold, u: string, needle: string, r: Range, x: string) returns (d: nat)
    requires Nonempty(fold) && NeedleRange(fold, u, needle) == Some(r) && r.start < r.end <= |u|
    requires x == u[r.start..r.end]
    ensures Find(Folded(fold, u), needle) == Some(Offset(fold, u, r.start) + d) && FoundAt(fold, x, needle, d)
  {
    var hit, last := HitOf(fold, u, needle, r);
    d := hit - Offset(fold, u, r.start);
    PartLength(fold, u, r.start, r.end, x);
    HitOfPart(fold, u, r.start, r.end, x, needle, d);
    forall k | 0 <= k < |x| && |fold(x[k])| == 1
      ensures d <= Offset(fold, x, k) < d + |needle|
    {
      SingleWithin(fold, u, hit, last, r, r.start + k);
      FoldedPart(fold, u, r.start, r.end, k);
    }
  }

  /** A hit in one of two parts is one in the other exactly when they are equal. */
  lemma HitInOther(
    c: Casing, text: string, r: Range, other: string, at: nat, x: string, y: string, needle: string, d: nat)
    requires Lowering(c) && HoldsMatch(text, r, other, at)
    requires x == WithFinals(c, text)[r.start..r.end]
    requires y == WithFinals(c, other)[at..at + (r.end - r.start)]
    requires FoundAt(c.fold, x, needle, d)
    ensures d + |needle| <= |Folded(c.fold, y)|
    ensures Hit(Folded(c.fold, y), needle, d) <==> x == y
  {
    SlicesAlike(c, text, r, other, at, x, y);
    if x != y {
      var k :| 0 <= k < |x| && x[k] != y[k];
      DifferInSigma(c, text, r, other, at, x, y, k);
      OtherCharNoHit(c.fold, x, y, k, needle, d, c.fold(x[k])[0], c.fold(y[k])[0]);
    }
  }

  lemma HitLower(c: Casing, other: string, at: nat, b: nat, y: string, needle: string, d: nat)
    requires Lowering(c) && at <= b <= |other| && y == WithFinals(c, other)[at..b]
    requires d + |needle| <= |Folded(c.fold, y)|
    ensures Hit(Lower(c, other), needle, Offset(c.fold, other, at) + d) <==> Hit(Folded(c.fold, y), needle, d)
  {
    SameOffset(c, other, at);
    HitOfPart(c.fold, WithFinals(c, other), at, b, y, needle, d);
  }

  lemma HitBeside(c: Casing, text: string, r: Range, other: string, at: nat, x: string, needle: string, d: nat)
    requires Lowering(c) && HoldsMatch(text, r, other, at)
    requires x == WithFinals(c, text)[r.start..r.end] && FoundAt(c.fold, x, needle, d)
    ensures Hit(Lower(c, other), needle, Offset(c.fold, other, at) + d) <==> SigmasAgree(c, text, r, other, at)
  {
    var b := at + (r.end - r.start);
    var y := WithFinals(c, other)[at..b];
    SlicesAgree(c, text, r, other, at, x, y);
    HitInOther(c, text, r, other, at, x, y, needle, d);
    HitLower(c, other, at, b, y, needle, d);
  }

  lemma HitInMatch(c: Casing, text: string, query: string, r: Range, x: string) returns (d: nat)
    requires Lowering(c) && MatchRange(c, text, query) == Some(r) && r.start < r.end <= |text|
    requires x == WithFinals(c, text)[r.start..r.end]
    ensures Find(Lower(c, text), Needle(c, query)) == Some(Offset(c.fold, text, r.start) + d)
    ensures FoundAt(c.fold, x, Needle(c, query), d)
  {
    SameOffset(c, text, r.start);
    d := HitInPart(c.fold, WithFinals(c, text), Needle(c, query), r, x);
  }

  lemma StandsMeans(c: Casing, text: string, query: string, r: Range, other: string, at: nat, d: nat)
    requires r.start <= |text| && at <= |other|
    requires Find(Lower(c, text), Needle(c, query)) == Some(Offset(c.fold, text, r.start) + d)
    ensures StandsAt(c, text, query, r, other, at) <==>
      Hit(Lower(c, other), Needle(c, query), Offset(c.fold, other, at) + d)
  {
  }

  lemma HitIsContained(hay: string, needle: string, i: nat)
    requires Hit(hay, needle, i)
    ensures Contains(hay, needle)
  {
  }

  /**
   Main result: where the characters of a match stand in another text, the match stands there too
   exactly when each of its capital sigmas ends a word in both texts or in neither.
   */
  lemma MatchStays(c: Casing, text: string, query: string, r: Range, other: string, at: nat)
    requires Lowering(c) && MatchRange(c, text, query) == Some(r) && r.start < r.end
    requires HoldsMatch(text, r, other, at)
    ensures Find(Lower(c, text), Needle(c, query)).Some?
    ensures StandsAt(c, text, query, r, other, at) <==> SigmasAgree(c, text, r, other, at)
    ensures SigmasAgree(c, text, r, other, at) ==> Contains(Lower(c, other), Needle(c, query))
  {
    var x := WithFinals(c, text)[r.start..r.end];
    var d := HitInMatch(c, text, query, r, x);
    HitBeside(c, text, r, other, at, x, Needle(c, query), d);
    StandsMeans(c, text, query, r, other, at, d);
    if SigmasAgree(c, text, r, other, at) {
      HitIsContained(Lower(c, other), Needle(c, query), Offset(c.fold, other, at) + d);
    }
  }

  // ---- Queries without a sigma -------------------------------------------------------------------------

  predicate SigmaFree(s: string) {
    SMALL_SIGMA !in s && FINAL_SIGMA !in s
  }

  /** A match of a query without a sigma has none either, so it stays in any surroundings. */
  lemma SigmaFreeAgrees(c: Casing, text: string, query: string, r: Range, other: string, at: nat)
    requires Lowering(c) && MatchRange(c, text, query) == Some(r) && r.start < r.end
    requires HoldsMatch(text, r, other, at) && SigmaFree(Needle(c, query))
    ensures SigmasAgree(c, text, r, other, at)
  {
    var x, needle := WithFinals(c, text)[r.start..r.end], Needle(c, query);
    var d := HitInMatch(c, text, query, r, x);
    forall i, j | r.start <= i < r.end && j == at + (i - r.start)
      ensures AgreesAt(c, text, other, i, j)
    {
      NoCapitalSigma(c, text, r, x, needle, d, i);
    }
  }

  lemma NoCapitalSigma(c: Casing, text: string, r: Range, x: string, needle: string, d: nat, i: nat)
    requires Lowering(c) && r.start <= i < r.end <= |text| && x == WithFinals(c, text)[r.start..r.end]
    requires FoundAt(c.fold, x, needle, d) && SigmaFree(needle)
    ensures text[i] != CAPITAL_SIGMA
  {
    var k := i - r.start;
    WithFinalsAt(c, text, |text|, i);
    assert x[k] == WithFinals(c, text)[i];
    if |c.fold(x[k])| == 1 {
      var o := Offset(c.fold, x, k);
      FoldedAt(c.fold, x, k, c.fold(x[k])[0]);
      NeedleAt(Folded(c.fold, x), needle, d, o);
      assert needle[o - d] in needle;
    }
  }
}
