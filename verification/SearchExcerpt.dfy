/**
 Search matches (crates/host-core/src/session_search.rs): where a query matches a text regardless
 of case. Offsets count characters of the text in lower case; the original counts their bytes, in
 the same order.
 */
module SearchExcerpt {

  import opened Lowercase
  import opened Text
  import opened Wrappers

  function Needle(c: Casing, query: string): string {
    Lower(c, Trim(query))
  }

  predicate Hit(hay: string, needle: string, i: nat) {
    i + |needle| <= |hay| && hay[i..i + |needle|] == needle
  }

  ghost predicate Contains(hay: string, needle: string) {
    exists i :: Hit(hay, needle, i)
  }

  /** `str::find`, from an offset on. */
  function FindFrom(hay: string, needle: string, i: nat): (r: Option<nat>)
    ensures r.Some? ==> i <= r.value && Hit(hay, needle, r.value)
    ensures r.Some? ==> forall j :: i <= j < r.value ==> !Hit(hay, needle, j)
    ensures r.None? ==> forall j :: i <= j ==> !Hit(hay, needle, j)
    decreases |hay| - i
  {
    if i + |needle| > |hay| then None
    else if hay[i..i + |needle|] == needle then Some(i)
    else FindFrom(hay, needle, i + 1)
  }

  function Find(hay: string, needle: string): Option<nat> {
    FindFrom(hay, needle, 0)
  }

  // ---- From folded offsets back to characters ------------------------------------------------

  /** The character whose folding holds an offset, searched from character `k`. */
  function CharFrom(fold: Fold, text: string, offset: nat, k: nat): (i: nat)
    requires k <= |text| && Offset(fold, text, k) <= offset < FoldedLength(fold, text)
    ensures k <= i < |text| && Offset(fold, text, i) <= offset < Offset(fold, text, i + 1)
    decreases |text| - k
  {
    if k < |text| && offset < Offset(fold, text, k + 1) then k else CharFrom(fold, text, offset, k + 1)
  }

  function CharAt(fold: Fold, text: string, offset: nat): (i: nat)
    requires offset < FoldedLength(fold, text)
    ensures i < |text| && Offset(fold, text, i) <= offset < Offset(fold, text, i + 1)
  {
    CharFrom(fold, text, offset, 0)
  }

  /** A range of characters: from the first one to behind the last one. */
  datatype Range = Range(start: nat, end: nat)

  /** From the character that holds one folded offset to the character that holds another. */
  function Between(fold: Fold, text: string, first: nat, last: nat): Range
    requires first < FoldedLength(fold, text) && last < FoldedLength(fold, text)
  {
    Range(CharAt(fold, text, first), CharAt(fold, text, last) + 1)
  }

  /** The range of a folded needle. */
  function NeedleRange(fold: Fold, text: string, needle: string): Option<Range> {
    var found := Find(Folded(fold, text), needle);
    if needle == "" || found.None? then None
    else
      OffsetIsLength(fold, text, |text|);
      Some(Between(fold, text, found.value, found.value + |needle| - 1))
  }

  function MatchRange(c: Casing, text: string, query: string): Option<Range> {
    NeedleRange(c.fold, WithFinals(c, text), Needle(c, query))
  }

  /** The folding of the range covers `[lo, hi)`. */
  predicate Covers(fold: Fold, text: string, r: Range, lo: nat, hi: nat) {
    && r.start <= r.end <= |text|
    && Offset(fold, text, r.start) <= lo && hi <= Offset(fold, text, r.end)
  }

  lemma NextOffset(fold: Fold, text: string, k: nat, next: nat)
    requires k < |text| && next == Offset(fold, text, k) + |fold(text[k])|
    ensures Offset(fold, text, k + 1) == next
  {
  }

  /** The loop of `match_range`, for a hit at a folded offset. */
  method WalkToHit(fold: Fold, text: string, hit: nat, length: nat, ghost last: nat) returns (r: Option<Range>)
    requires Nonempty(fold) && length > 0 && last == hit + length - 1 && last < FoldedLength(fold, text)
    ensures r == Some(Between(fold, text, hit, last))
  {
    ghost var whole := Between(fold, text, hit, last);
    var foldedOffset: nat := 0;
    var position: nat := 0;
    var foundStart := false;
    for index := 0 to |text|
      invariant foldedOffset == Offset(fold, text, index) && foldedOffset < hit + length
      invariant foundStart <==> foldedOffset > hit
      invariant foundStart ==> position == whole.start
    {
      var next := foldedOffset + |fold(text[index])|;
      NextOffset(fold, text, index, next);
      if !foundStart && next > hit {
        position := index;
        foundStart := true;
        OneChar(fold, text, hit, index, whole.start);
      }
      if next >= hit + length {
        OneChar(fold, text, last, index, whole.end - 1);
        return Some(Range(position, index + 1));
      }
      foldedOffset := next;
    }
    assert false;
    r := None;
  }

  /** Texts whose characters fold to equally many. */
  ghost predicate SameOffsets(fold: Fold, text: string, other: string) {
    |text| == |other| && forall k :: 0 <= k <= |text| ==> Offset(fold, text, k) == Offset(fold, other, k)
  }

  lemma SameBetween(fold: Fold, text: string, other: string, first: nat, last: nat)
    requires Nonempty(fold) && SameOffsets(fold, text, other)
    requires first < FoldedLength(fold, text) && last < FoldedLength(fold, text)
    ensures Between(fold, other, first, last) == Between(fold, text, first, last)
  {
    OneChar(fold, text, first, CharAt(fold, text, first), CharAt(fold, other, first));
    OneChar(fold, text, last, CharAt(fold, text, last), CharAt(fold, other, last));
  }

  /** The hit is found in one text, and the loop folds another one. */
  method FindNeedle(fold: Fold, text: string, ghost other: string, hay: string, needle: string)
    returns (r: Option<Range>)
    requires Nonempty(fold) && SameOffsets(fold, text, other) && hay == Folded(fold, other)
    ensures r == NeedleRange(fold, other, needle)
  {
    if needle == "" {
      return None;
    }
    var found := Find(hay, needle);
    if found.None? {
      return None;
    }
    OffsetIsLength(fold, other, |other|);
    r := WalkToHit(fold, text, found.value, |needle|, found.value + |needle| - 1);
    SameBetween(fold, text, other, found.value, found.value + |needle| - 1);
  }

  /** `match_range`: the hit is found in the text in lower case, the loop folds one character after the other. */
  method FindRange(c: Casing, text: string, query: string) returns (r: Option<Range>)
    requires Lowering(c)
    ensures r == MatchRange(c, text, query)
  {
    AllSameOffsets(c, text);
    r := FindNeedle(c.fold, text, WithFinals(c, text), Lower(c, text), Needle(c, query));
  }

  lemma AllSameOffsets(c: Casing, text: string)
    requires Lowering(c)
    ensures SameOffsets(c.fold, text, WithFinals(c, text))
  {
    forall k | 0 <= k <= |text|
      ensures Offset(c.fold, text, k) == Offset(c.fold, WithFinals(c, text), k)
    {
      SameOffset(c, text, k);
    }
  }

  lemma OneChar(fold: Fold, text: string, offset: nat, i: nat, j: nat)
    requires Nonempty(fold) && i < |text| && j < |text|
    requires Offset(fold, text, i) <= offset < Offset(fold, text, i + 1)
    requires Offset(fold, text, j) <= offset < Offset(fold, text, j + 1)
    ensures i == j
  {
    if i < j {
      OffsetsGrow(fold, text, i + 1, j);
    } else if j < i {
      OffsetsGrow(fold, text, j + 1, i);
    }
  }

  lemma NeedleIffContained(fold: Fold, text: string, needle: string)
    ensures NeedleRange(fold, text, needle).Some? <==> needle != "" && Contains(Folded(fold, text), needle)
  {
    var hay := Folded(fold, text);
    if i :| Hit(hay, needle, i) {
      assert Find(hay, needle).Some?;
    }
  }

  lemma SmallestRange(fold: Fold, text: string, first: nat, last: nat, other: Range)
    requires Nonempty(fold) && first <= last < FoldedLength(fold, text)
    ensures var r := Between(fold, text, first, last);
      && Covers(fold, text, r, first, last + 1) && r.start < r.end
      && (Covers(fold, text, other, first, last + 1) ==> other.start <= r.start && r.end <= other.end)
  {
    var r := Between(fold, text, first, last);
    if r.end <= r.start {
      OffsetsGrow(fold, text, r.end, r.start);
    }
    if Covers(fold, text, other, first, last + 1) {
      if other.start > r.start {
        OffsetsGrow(fold, text, r.start + 1, other.start);
      }
      if other.end < r.end {
        OffsetsGrow(fold, text, other.end, r.end - 1);
      }
    }
  }

  lemma NeedleIsSmallest(fold: Fold, text: string, needle: string, hit: nat, other: Range)
    requires Nonempty(fold) && needle != "" && Find(Folded(fold, text), needle) == Some(hit)
    ensures NeedleRange(fold, text, needle).Some?
    ensures var r := NeedleRange(fold, text, needle).value;
      && Covers(fold, text, r, hit, hit + |needle|) && r.start < r.end
      && (Covers(fold, text, other, hit, hit + |needle|) ==> other.start <= r.start && r.end <= other.end)
  {
    OffsetIsLength(fold, text, |text|);
    SmallestRange(fold, text, hit, hit + |needle| - 1, other);
  }

  /** There is a range exactly when the text in lower case contains the trimmed query in lower case. */
  lemma RangeIffContained(c: Casing, text: string, query: string)
    ensures MatchRange(c, text, query).Some? <==>
      Needle(c, query) != "" && Contains(Lower(c, text), Needle(c, query))
  {
    NeedleIffContained(c.fold, WithFinals(c, text), Needle(c, query));
  }

  lemma SameCover(c: Casing, text: string, r: Range, lo: nat, hi: nat)
    requires Lowering(c)
    ensures Covers(c.fold, WithFinals(c, text), r, lo, hi) <==> Covers(c.fold, text, r, lo, hi)
  {
    if r.start <= r.end <= |text| {
      SameOffset(c, text, r.start);
      SameOffset(c, text, r.end);
    }
  }

  /** Main result: the range is the smallest one whose folding covers the first hit. */
  lemma RangeIsSmallest(c: Casing, text: string, query: string, hit: nat, other: Range)
    requires Lowering(c) && Needle(c, query) != "" && Find(Lower(c, text), Needle(c, query)) == Some(hit)
    ensures MatchRange(c, text, query).Some?
    ensures var r := MatchRange(c, text, query).value; var end := hit + |Needle(c, query)|;
      && Covers(c.fold, text, r, hit, end) && r.start < r.end
      && (Covers(c.fold, text, other, hit, end) ==> other.start <= r.start && r.end <= other.end)
  {
    NeedleIsSmallest(c.fold, WithFinals(c, text), Needle(c, query), hit, other);
    SameCover(c, text, MatchRange(c, text, query).value, hit, hit + |Needle(c, query)|);
    SameCover(c, text, other, hit, hit + |Needle(c, query)|);
  }
}
